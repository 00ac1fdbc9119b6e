/** The bounded cache of sqlitecache/cache.go as a state machine over its tables.  Clock
    readings, the digest and the key hash are inputs. */
module CacheSpec {
  import opened LruTable
  import Ordering
  import opened Text
  import opened Wrappers

  const SECOND: int := 1_000_000_000
  const DEFAULT_MAX_AGE: int := 24 * 3600 * SECOND
  const DEFAULT_MAX_SEARCH_QUERIES := 1_000
  const DEFAULT_MAX_SEARCH_RESULTS := 5_000
  const DEFAULT_MAX_SPEC_DOCUMENTS := 1_000
  const DEFAULT_MAX_CATALOG_ARTIFACTS := 10_000
  const DEFAULT_MAX_ARTIFACT_BYTES := 128 * 1024 * 1024
  const DEFAULT_MAX_SEARCH_REPORT_BYTES := 4 * 1024 * 1024
  const DEFAULT_MAX_METADATA_BYTES := 1024 * 1024

  datatype Options = Options(maxSearchQueries: int, maxSearchResults: int, maxSpecDocuments: int,
                             maxCatalogArtifacts: int, maxArtifactBytes: int, maxSearchReportBytes: int,
                             maxMetadataBytes: int)
  {
    ghost predicate Bounded() {
      && maxSearchQueries > 0 && maxSearchResults > 0 && maxSpecDocuments > 0 && maxCatalogArtifacts > 0
      && maxArtifactBytes > 0 && maxSearchReportBytes > 0 && maxMetadataBytes > 0
    }
  }

  function OrDefault(value: int, default: int): int {
    if value <= 0 then default else value
  }

  /** normalizeOptions: cache growth cannot be made unbounded. */
  function Normalize(o: Options): (r: Options)
    ensures r.Bounded()
    ensures o.Bounded() ==> r == o
  {
    Options(OrDefault(o.maxSearchQueries, DEFAULT_MAX_SEARCH_QUERIES),
            OrDefault(o.maxSearchResults, DEFAULT_MAX_SEARCH_RESULTS),
            OrDefault(o.maxSpecDocuments, DEFAULT_MAX_SPEC_DOCUMENTS),
            OrDefault(o.maxCatalogArtifacts, DEFAULT_MAX_CATALOG_ARTIFACTS),
            OrDefault(o.maxArtifactBytes, DEFAULT_MAX_ARTIFACT_BYTES),
            OrDefault(o.maxSearchReportBytes, DEFAULT_MAX_SEARCH_REPORT_BYTES),
            OrDefault(o.maxMetadataBytes, DEFAULT_MAX_METADATA_BYTES))
  }

  datatype SearchKey = SearchKey(query: string, source: string, limit: int, publicProbe: int, providerURL: string)

  /** A search report: its JSON encoding and the IDs of its results. */
  datatype Report = Report(json: string, resultIds: seq<string>)

  datatype Env = Env(options: Options, digest: string -> string, hash: SearchKey -> string)

  predicate IsHex(s: string) {
    forall c <- s :: '0' <= c <= '9' || 'a' <= c <= 'f' || 'A' <= c <= 'F'
  }

  /** validSHA256 */
  predicate ValidSHA256(s: string) {
    IsHex(TrimSpace(s)) && |TrimSpace(s)| == 64
  }

  /** The digest is the lower-case hexadecimal form of a SHA-256 sum. */
  ghost predicate ValidEnv(env: Env) {
    && env.options.Bounded()
    && forall content: string {:trigger env.digest(content)} ::
         ValidSHA256(env.digest(content)) && ToLower(env.digest(content)) == env.digest(content)
  }

  /** validateRecordBudget compares this with the limit. */
  function TotalLength(values: seq<string>): nat {
    if values == [] then 0 else |values[0]| + TotalLength(values[1..])
  }

  /** expired */
  predicate Expired(updatedAt: int, maxAge: int, now: int) {
    now - updatedAt * SECOND > if maxAge <= 0 then DEFAULT_MAX_AGE else maxAge
  }

  // ---------------------------------------------------------------- spec documents

  datatype Spec = Spec(originalURL: string, finalURL: string, content: string, sha256: string,
                       bytes: int, metadata: string)

  /** The columns of spec_documents that a load returns. */
  datatype Document = Document(originalURL: string, finalURL: string, sha256: string, bytes: int,
                               metadata: string, content: string, updatedAt: int)

  datatype StoreError = MissingURL | MissingContent | ContentTooLarge | DigestMismatch | CountMismatch
                      | MetadataTooLarge | RecordTooLarge

  datatype Prepared = Ready(document: Document) | Refused(error: StoreError)

  /** The checks of StoreSpec, in order, and the row it writes. */
  function Prepare(env: Env, spec: Spec, now: int): Prepared {
    var original, final := TrimSpace(spec.originalURL), TrimSpace(spec.finalURL);
    var originalURL := if original == "" then final else original;
    var finalURL := if final == "" then originalURL else final;
    var digest := env.digest(spec.content);
    if originalURL == "" then Refused(MissingURL)
    else if spec.content == "" then Refused(MissingContent)
    else if |spec.content| > env.options.maxArtifactBytes then Refused(ContentTooLarge)
    else if TrimSpace(spec.sha256) != "" && (!ValidSHA256(spec.sha256) || ToLower(spec.sha256) != digest)
    then Refused(DigestMismatch)
    else if spec.bytes != 0 && spec.bytes != |spec.content| then Refused(CountMismatch)
    else if |spec.metadata| > env.options.maxMetadataBytes then Refused(MetadataTooLarge)
    else if TotalLength([originalURL, finalURL, digest, ""]) > env.options.maxMetadataBytes then Refused(RecordTooLarge)
    else Ready(Document(originalURL, finalURL, digest, |spec.content|, spec.metadata, spec.content, now / SECOND))
  }

  /** uniqueStrings(originalURL, finalURL) */
  function URLs(d: Document): seq<string> {
    if d.originalURL == d.finalURL then [d.originalURL] else [d.originalURL, d.finalURL]
  }

  datatype LoadResult = Hit(document: Document) | Miss | Corrupt

  /** LoadSpec up to its touch of the row. */
  function Lookup(env: Env, specs: Table<Document>, url: string, maxAge: int, now: int): LoadResult {
    var key := TrimSpace(url);
    if key !in specs then Miss
    else
      var d := specs[key].value;
      if Expired(d.updatedAt, maxAge, now) then Miss
      else if |d.metadata| > env.options.maxMetadataBytes then Corrupt
      else if TotalLength([d.originalURL, d.finalURL, d.sha256, ""]) > env.options.maxMetadataBytes then Corrupt
      else if d.content == "" || |d.content| > env.options.maxArtifactBytes then Corrupt
      else if !ValidSHA256(d.sha256) || env.digest(d.content) != ToLower(d.sha256) then Corrupt
      else if d.bytes <= 0 || d.bytes != |d.content| then Corrupt
      else Hit(d)
  }

  // ---------------------------------------------------------------- searches

  datatype Query = Query(report: Report, updatedAt: int)

  /** searchKeyHash */
  function KeyHash(env: Env, key: SearchKey): string {
    env.hash(key.(query := TrimSpace(key.query), source := if key.source == "" then "auto" else key.source,
                  limit := if key.limit <= 0 then 10 else key.limit))
  }

  predicate SearchFits(env: Env, key: SearchKey, report: Report) {
    && |report.json| <= env.options.maxSearchReportBytes
    && TotalLength([key.query, key.source, key.providerURL]) <= env.options.maxMetadataBytes
  }

  datatype SearchResult = Found(report: Report) | Absent | Oversized

  function LookupSearch(env: Env, queries: Table<Query>, key: SearchKey, maxAge: int, now: int): SearchResult {
    var hash := KeyHash(env, key);
    if hash !in queries then Absent
    else
      var q := queries[hash].value;
      if Expired(q.updatedAt, maxAge, now) then Absent
      else if |q.report.json| > env.options.maxSearchReportBytes then Oversized
      else Found(q.report)
  }

  function InsertAll<V>(t: Table<V>, keys: seq<string>, value: V, accessed: int, now: int): Table<V>
    decreases |keys|
  {
    if keys == [] then t else InsertAll(Insert(t, keys[0], value, accessed, now), keys[1..], value, accessed, now)
  }

  function TouchAll<V>(t: Table<V>, keys: seq<string>, accessed: int): Table<V>
    decreases |keys|
  {
    if keys == [] then t else TouchAll(Touch(t, keys[0], accessed), keys[1..], accessed)
  }

  // ---------------------------------------------------------------- catalog artifacts

  datatype Artifact = Artifact(providerId: string, artifactId: string, kind: string, path: string, sourceURL: string,
                               overlayPath: string, builderPath: string, sha256: string, bytes: int, metadata: string)

  datatype ArtifactRow = ArtifactRow(artifact: Artifact, updatedAt: int)

  /** What cleaning the three paths gives, and the digest and size of the file at the first. */
  datatype LocalFile = LocalFile(path: string, overlayPath: string, builderPath: string, sha256: string, bytes: int)

  /** The primary key; IDs hold no NUL, which comes before every other character. */
  function ArtifactKey(providerId: string, artifactId: string): string {
    providerId + ['\0'] + artifactId
  }

  predicate ArtifactFits(env: Env, a: Artifact) {
    && |a.metadata| <= env.options.maxMetadataBytes
    && TotalLength([a.providerId, a.artifactId, a.kind, a.path, a.sourceURL, a.overlayPath, a.builderPath, a.sha256])
       <= env.options.maxMetadataBytes
  }

  /** The checks of StoreCatalogArtifact; `file` is None when a path is refused or unreadable.
      The record budget is charged before the source URL is trimmed. */
  function PrepareArtifact(env: Env, a: Artifact, file: Option<LocalFile>): Option<Artifact> {
    if TrimSpace(a.providerId) == "" || TrimSpace(a.artifactId) == "" || TrimSpace(a.kind) == "" then None
    else if file.None? || file.value.bytes <= 0 then None
    else if TrimSpace(a.sha256) != "" && (!ValidSHA256(a.sha256) || ToLower(a.sha256) != file.value.sha256) then None
    else if a.bytes != 0 && a.bytes != file.value.bytes then None
    else
      var f := file.value;
      var record := Artifact(TrimSpace(a.providerId), TrimSpace(a.artifactId), TrimSpace(a.kind), f.path, a.sourceURL,
                             f.overlayPath, f.builderPath, f.sha256, f.bytes, a.metadata);
      if ArtifactFits(env, record) then Some(record.(sourceURL := TrimSpace(a.sourceURL))) else None
  }

  /** Whether ListCatalogArtifacts accepts a row whose paths are clean. */
  predicate Listable(env: Env, a: Artifact) {
    ArtifactFits(env, a) && ValidSHA256(a.sha256) && a.bytes > 0
  }

  predicate AllListable(env: Env, artifacts: Table<ArtifactRow>) {
    forall k <- artifacts.Keys :: Listable(env, artifacts[k].value.artifact)
  }

  /** The rows in the order of their keys. */
  ghost function Listing(artifacts: Table<ArtifactRow>): seq<ArtifactRow> {
    var keys := Ordering.SortedSet(artifacts.Keys);
    seq(|keys|, i requires 0 <= i < |keys| => artifacts[keys[i]].value)
  }

  function TouchEvery<V>(t: Table<V>, accessed: int): Table<V> {
    map k | k in t :: t[k].(accessed := accessed)
  }

  // ---------------------------------------------------------------- the state machine

  datatype Tables = Tables(specs: Table<Document>, queries: Table<Query>, results: Table<()>,
                           artifacts: Table<ArtifactRow>)

  const Empty := Tables(map[], map[], map[], map[])

  /** pruneTx */
  function PruneTables(env: Env, t: Tables): Tables
    requires env.options.Bounded()
  {
    Tables(Prune(t.specs, env.options.maxSpecDocuments),
           Prune(t.queries, env.options.maxSearchQueries),
           Prune(t.results, env.options.maxSearchResults),
           Prune(t.artifacts, env.options.maxCatalogArtifacts))
  }

  /** One call, with the clock readings it makes: `now` first, `accessed` second. */
  datatype Op =
    | StoreSpecOp(spec: Spec, now: int, accessed: int)
    | LoadSpecOp(url: string, maxAge: int, now: int, accessed: int)
    | StoreSearchOp(key: SearchKey, report: Report, now: int, accessed: int)
    | LoadSearchOp(key: SearchKey, maxAge: int, now: int, accessed: int)
    | StoreArtifactOp(artifact: Artifact, file: Option<LocalFile>, now: int, accessed: int)
    | ListArtifactsOp(pathsClean: bool, accessed: int)
    | PruneOp

  function Step(env: Env, t: Tables, op: Op): Tables
    requires env.options.Bounded()
  {
    match op
    case StoreSpecOp(spec, now, accessed) => (
      match Prepare(env, spec, now)
      case Refused(_) => t
      case Ready(d) => PruneTables(env, t.(specs := InsertAll(t.specs, URLs(d), d, accessed, now / SECOND))))
    case LoadSpecOp(url, maxAge, now, accessed) =>
      if Lookup(env, t.specs, url, maxAge, now).Hit? then t.(specs := Touch(t.specs, TrimSpace(url), accessed)) else t
    case StoreSearchOp(key, report, now, accessed) =>
      if !SearchFits(env, key, report) then t
      else
        PruneTables(env, t.(results := InsertAll(t.results, report.resultIds, (), accessed, now / SECOND),
                            queries := Insert(t.queries, KeyHash(env, key), Query(report, now / SECOND),
                                              accessed, now / SECOND)))
    case LoadSearchOp(key, maxAge, now, accessed) => (
      match LookupSearch(env, t.queries, key, maxAge, now)
      case Found(report) => t.(queries := Touch(t.queries, KeyHash(env, key), accessed),
                               results := TouchAll(t.results, report.resultIds, accessed))
      case _ => t)
    case StoreArtifactOp(artifact, file, now, accessed) => (
      match PrepareArtifact(env, artifact, file)
      case None => t
      case Some(a) =>
        PruneTables(env, t.(artifacts := Insert(t.artifacts, ArtifactKey(a.providerId, a.artifactId),
                                                ArtifactRow(a, now / SECOND), accessed, now / SECOND))))
    case ListArtifactsOp(pathsClean, accessed) =>
      if pathsClean && AllListable(env, t.artifacts) then t.(artifacts := TouchEvery(t.artifacts, accessed)) else t
    case PruneOp => PruneTables(env, t)
  }

  /** A run from opening the cache, which prunes it, over a list of calls. */
  function Run(env: Env, initial: Tables, ops: seq<Op>): Tables
    requires env.options.Bounded()
  {
    if ops == [] then PruneTables(env, initial)
    else Step(env, Run(env, initial, ops[..|ops| - 1]), ops[|ops| - 1])
  }
}
