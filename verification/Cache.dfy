/** The bounded cache itself: a class whose methods update its tables as the transactions of
    sqlitecache/cache.go do.  Every method is proved to take the step of CacheSpec, so the
    runs of CacheProofs are the runs of this class. */
module Cache {
  import opened CacheSpec
  import opened LruTable
  import Ordering
  import opened Text
  import opened Wrappers

  class Cache {
    var specs: Table<Document>
    var queries: Table<Query>
    var results: Table<()>
    var artifacts: Table<ArtifactRow>
    const env: Env

    ghost predicate Valid() {
      env.options.Bounded()
    }

    ghost function State(): Tables
      reads this
    {
      Tables(specs, queries, results, artifacts)
    }

    /** Open prunes what the database file held. */
    constructor (options: Options, digest: string -> string, hash: SearchKey -> string, held: Tables)
      ensures Valid() && env == Env(Normalize(options), digest, hash)
      ensures State() == Run(env, held, [])
    {
      var normalized := Normalize(options);
      env := Env(normalized, digest, hash);
      specs, queries, results, artifacts := held.specs, held.queries, held.results, held.artifacts;
      new;
      PruneAll();
    }

    /** pruneTx: one DELETE per table. */
    method PruneAll()
      requires Valid()
      modifies this
      ensures State() == Step(env, old(State()), PruneOp)
    {
      queries := Prune(queries, env.options.maxSearchQueries);
      results := Prune(results, env.options.maxSearchResults);
      specs := Prune(specs, env.options.maxSpecDocuments);
      artifacts := Prune(artifacts, env.options.maxCatalogArtifacts);
    }

    /** validateRecordBudget */
    method FitsRecord(values: seq<string>) returns (fits: bool)
      ensures fits <==> TotalLength(values) <= env.options.maxMetadataBytes || values == []
    {
      var total := 0;
      for i := 0 to |values|
        invariant TotalLength(values) == total + TotalLength(values[i..])
        invariant i > 0 ==> total <= env.options.maxMetadataBytes
      {
        total := total + |values[i]|;
        if total > env.options.maxMetadataBytes {
          return false;
        }
      }
      return true;
    }

    method InsertURLs(urls: seq<string>, d: Document, accessed: int, now: int)
      modifies this`specs
      ensures specs == InsertAll(old(specs), urls, d, accessed, now)
    {
      hide Insert;
      for i := 0 to |urls|
        invariant InsertAll(old(specs), urls, d, accessed, now) == InsertAll(specs, urls[i..], d, accessed, now)
      {
        specs := Insert(specs, urls[i], d, accessed, now);
      }
    }

    method InsertResults(ids: seq<string>, accessed: int, now: int)
      modifies this`results
      ensures results == InsertAll(old(results), ids, (), accessed, now)
    {
      hide Insert;
      for i := 0 to |ids|
        invariant InsertAll(old(results), ids, (), accessed, now) == InsertAll(results, ids[i..], (), accessed, now)
      {
        results := Insert(results, ids[i], (), accessed, now);
      }
    }

    method TouchResults(ids: seq<string>, accessed: int)
      modifies this`results
      ensures results == TouchAll(old(results), ids, accessed)
    {
      hide Touch;
      for i := 0 to |ids|
        invariant TouchAll(old(results), ids, accessed) == TouchAll(results, ids[i..], accessed)
      {
        results := Touch(results, ids[i], accessed);
      }
    }

    method StoreSpec(spec: Spec, now: int, accessed: int) returns (r: Prepared)
      requires Valid()
      modifies this
      ensures r == Prepare(env, spec, now)
      ensures State() == Step(env, old(State()), StoreSpecOp(spec, now, accessed))
    {
      hide InsertAll, TotalLength, TrimSpace, ToLower, ValidSHA256, Prune;
      var originalURL, finalURL := TrimSpace(spec.originalURL), TrimSpace(spec.finalURL);
      if originalURL == "" {
        originalURL := finalURL;
      }
      if finalURL == "" {
        finalURL := originalURL;
      }
      if originalURL == "" {
        return Refused(MissingURL);
      }
      if spec.content == "" {
        return Refused(MissingContent);
      }
      if |spec.content| > env.options.maxArtifactBytes {
        return Refused(ContentTooLarge);
      }
      var digest := env.digest(spec.content);
      if TrimSpace(spec.sha256) != "" {
        if !ValidSHA256(spec.sha256) || ToLower(spec.sha256) != digest {
          return Refused(DigestMismatch);
        }
      }
      if spec.bytes != 0 && spec.bytes != |spec.content| {
        return Refused(CountMismatch);
      }
      if |spec.metadata| > env.options.maxMetadataBytes {
        return Refused(MetadataTooLarge);
      }
      var fits := FitsRecord([originalURL, finalURL, digest, ""]);
      if !fits {
        return Refused(RecordTooLarge);
      }
      var d := Document(originalURL, finalURL, digest, |spec.content|, spec.metadata, spec.content, now / SECOND);
      InsertURLs(URLs(d), d, accessed, now / SECOND);
      PruneAll();
      return Ready(d);
    }

    method LoadSpec(url: string, maxAge: int, now: int, accessed: int) returns (r: LoadResult)
      requires Valid()
      modifies this`specs
      ensures r == Lookup(env, old(specs), url, maxAge, now)
      ensures State() == Step(env, old(State()), LoadSpecOp(url, maxAge, now, accessed))
    {
      hide TotalLength, TrimSpace, ToLower, ValidSHA256, Expired, Touch;
      var key := TrimSpace(url);
      if key !in specs {
        return Miss;
      }
      var d := specs[key].value;
      if Expired(d.updatedAt, maxAge, now) {
        return Miss;
      }
      if |d.metadata| > env.options.maxMetadataBytes {
        return Corrupt;
      }
      var fits := FitsRecord([d.originalURL, d.finalURL, d.sha256, ""]);
      if !fits {
        return Corrupt;
      }
      if d.content == "" || |d.content| > env.options.maxArtifactBytes || !ValidSHA256(d.sha256) {
        return Corrupt;
      }
      var digest := env.digest(d.content);
      if digest != ToLower(d.sha256) || d.bytes <= 0 || d.bytes != |d.content| {
        return Corrupt;
      }
      specs := Touch(specs, key, accessed);
      return Hit(d);
    }

    method StoreSearch(key: SearchKey, report: Report, now: int, accessed: int) returns (stored: bool)
      requires Valid()
      modifies this
      ensures stored <==> SearchFits(env, key, report)
      ensures State() == Step(env, old(State()), StoreSearchOp(key, report, now, accessed))
    {
      hide InsertAll, TotalLength, KeyHash, Insert, Prune;
      if |report.json| > env.options.maxSearchReportBytes {
        return false;
      }
      var fits := FitsRecord([key.query, key.source, key.providerURL]);
      if !fits {
        return false;
      }
      InsertResults(report.resultIds, accessed, now / SECOND);
      queries := Insert(queries, KeyHash(env, key), Query(report, now / SECOND), accessed, now / SECOND);
      PruneAll();
      return true;
    }

    method LoadSearch(key: SearchKey, maxAge: int, now: int, accessed: int) returns (r: SearchResult)
      requires Valid()
      modifies this`queries, this`results
      ensures r == LookupSearch(env, old(queries), key, maxAge, now)
      ensures State() == Step(env, old(State()), LoadSearchOp(key, maxAge, now, accessed))
    {
      hide KeyHash, Touch, TouchAll, Expired;
      var hash := KeyHash(env, key);
      if hash !in queries {
        return Absent;
      }
      var q := queries[hash].value;
      if Expired(q.updatedAt, maxAge, now) {
        return Absent;
      }
      if |q.report.json| > env.options.maxSearchReportBytes {
        return Oversized;
      }
      queries := Touch(queries, hash, accessed);
      TouchResults(q.report.resultIds, accessed);
      return Found(q.report);
    }

    method StoreCatalogArtifact(artifact: Artifact, file: Option<LocalFile>, now: int, accessed: int)
      returns (stored: bool)
      requires Valid()
      modifies this
      ensures stored <==> PrepareArtifact(env, artifact, file).Some?
      ensures State() == Step(env, old(State()), StoreArtifactOp(artifact, file, now, accessed))
    {
      hide TotalLength, TrimSpace, ToLower, ValidSHA256, Prune, Insert;
      var providerId, artifactId, kind := TrimSpace(artifact.providerId), TrimSpace(artifact.artifactId),
          TrimSpace(artifact.kind);
      if providerId == "" || artifactId == "" || kind == "" || file.None? {
        return false;
      }
      var f := file.value;
      if f.bytes <= 0 {
        return false;
      }
      if TrimSpace(artifact.sha256) != "" && (!ValidSHA256(artifact.sha256) || ToLower(artifact.sha256) != f.sha256) {
        return false;
      }
      if artifact.bytes != 0 && artifact.bytes != f.bytes {
        return false;
      }
      if |artifact.metadata| > env.options.maxMetadataBytes {
        return false;
      }
      var fits := FitsRecord([providerId, artifactId, kind, f.path, artifact.sourceURL, f.overlayPath, f.builderPath,
                              f.sha256]);
      if !fits {
        return false;
      }
      var row := Artifact(providerId, artifactId, kind, f.path, TrimSpace(artifact.sourceURL), f.overlayPath,
                          f.builderPath, f.sha256, f.bytes, artifact.metadata);
      artifacts := Insert(artifacts, ArtifactKey(providerId, artifactId), ArtifactRow(row, now / SECOND), accessed,
                          now / SECOND);
      PruneAll();
      return true;
    }

    /** The rows in the order of their keys, unless one fails its checks. */
    method ReadArtifacts(keys: seq<string>) returns (out: Option<seq<ArtifactRow>>)
      requires keys == Ordering.SortedSet(artifacts.Keys)
      ensures out == if AllListable(env, artifacts) then Some(Listing(artifacts)) else None
    {
      hide Listable, Ordering.SortedSet;
      var rows: seq<ArtifactRow> := [];
      for i := 0 to |keys|
        invariant |rows| == i && forall j :: 0 <= j < i ==> rows[j] == artifacts[keys[j]].value
        invariant forall j :: 0 <= j < i ==> Listable(env, artifacts[keys[j]].value.artifact)
      {
        var row := artifacts[keys[i]].value;
        if !Listable(env, row.artifact) {
          return None;
        }
        rows := rows + [row];
      }
      forall k <- artifacts.Keys ensures Listable(env, artifacts[k].value.artifact) {
        assert k in keys;
      }
      assert rows == Listing(artifacts);
      return Some(rows);
    }

    /** One UPDATE for each row that was listed. */
    method TouchArtifacts(keys: seq<string>, accessed: int)
      requires forall k :: k in keys <==> k in artifacts
      modifies this`artifacts
      ensures artifacts == TouchEvery(old(artifacts), accessed)
    {
      for i := 0 to |keys|
        invariant artifacts.Keys == old(artifacts.Keys)
        invariant forall k <- artifacts ::
            artifacts[k] == if k in keys[..i] then old(artifacts)[k].(accessed := accessed) else old(artifacts)[k]
      {
        artifacts := Touch(artifacts, keys[i], accessed);
        assert keys[..i + 1] == keys[..i] + [keys[i]];
      }
      assert keys[..|keys|] == keys;
    }

    /** ListCatalogArtifacts: one bad row fails the list, and then no row is touched. */
    method ListCatalogArtifacts(pathsClean: bool, accessed: int) returns (out: Option<seq<ArtifactRow>>)
      requires Valid()
      modifies this`artifacts
      ensures out == if pathsClean && AllListable(env, old(artifacts)) then Some(Listing(old(artifacts))) else None
      ensures State() == Step(env, old(State()), ListArtifactsOp(pathsClean, accessed))
    {
      hide AllListable, Listing, TouchEvery, Ordering.SortedSet;
      if !pathsClean {
        return None;
      }
      var keys := Ordering.SortStrings(artifacts.Keys);
      out := ReadArtifacts(keys);
      if out.Some? {
        TouchArtifacts(keys, accessed);
      }
    }
  }
}
