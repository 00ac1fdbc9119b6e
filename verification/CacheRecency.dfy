/** Which rows stay: those used recently.  A row that was used last is still there as long as
    fewer other rows than the limit have been used since, whatever else is called. */
module CacheRecency {
  import opened CacheHistory
  import opened CacheProofs
  import opened CacheSpec
  import opened LruTable
  import Ordering
  import opened Text
  import opened Wrappers

  /** The tables after more calls. */
  function Continue(env: Env, t: Tables, ops: seq<Op>): Tables
    requires env.options.Bounded()
  {
    if ops == [] then t else Step(env, Continue(env, t, ops[..|ops| - 1]), ops[|ops| - 1])
  }

  // ---------------------------------------------------------------- tables

  /** Tables that differ in these rows only. */
  ghost predicate SameBut<V>(t: Table<V>, u: Table<V>, used: set<string>) {
    forall k :: k !in used ==> (k in u <==> k in t) && (k in t ==> u[k] == t[k])
  }

  /** Only these rows can be above the row. */
  ghost predicate Below<V>(t: Table<V>, k: string, row: Row<V>, used: set<string>) {
    k in t && t[k] == row && AboveKeys(t, k) <= used
  }

  lemma StaysBelow<V>(t: Table<V>, u: Table<V>, k: string, row: Row<V>, used: set<string>)
    requires Below(t, k, row, used) && SameBut(t, u, used) && k !in used
    ensures Below(u, k, row, used)
  {
    hide Above;
    forall j <- AboveKeys(u, k) ensures j in used || j in AboveKeys(t, k) {
      if j in t && u[j] == t[j] {
        SameAbove(t, u, j, k);
      }
    }
  }

  lemma SameAbove<V>(t: Table<V>, u: Table<V>, j: string, k: string)
    requires j in t && k in t && j in u && k in u && u[j] == t[j] && u[k] == t[k]
    ensures Above(u, j, k) == Above(t, j, k)
  {
  }

  lemma PrunedBelow<V>(t: Table<V>, k: string, row: Row<V>, used: set<string>, limit: nat)
    requires Below(t, k, row, used) && |used| < limit
    ensures Below(Prune(t, limit), k, row, used)
  {
    hide Prune, Above;
    Ordering.Cardinality(AboveKeys(t, k), used);
    PruneMember(t, limit, k);
    var u := Prune(t, limit);
    PruneSubset(t, limit);
    forall j <- AboveKeys(u, k) ensures j in used {
      SameAbove(t, u, j, k);
      assert j in AboveKeys(t, k);
    }
  }

  lemma {:induction false} InsertsOnly<V>(t: Table<V>, keys: seq<string>, value: V, accessed: int, now: int,
                                          used: set<string>)
    requires forall k <- keys :: k in used
    ensures SameBut(t, InsertAll(t, keys, value, accessed, now), used)
    decreases |keys|
  {
    if keys != [] {
      InsertsOnly(Insert(t, keys[0], value, accessed, now), keys[1..], value, accessed, now, used);
    }
  }

  lemma TouchesOnly<V>(t: Table<V>, k: string, accessed: int, used: set<string>)
    requires k in used
    ensures SameBut(t, Touch(t, k, accessed), used)
  {
  }

  /** The row used last. */
  ghost predicate Newest<V>(t: Table<V>, k: string) {
    k in t && forall j <- t :: j != k ==> t[j].accessed < t[k].accessed
  }

  lemma NewestBelow<V>(t: Table<V>, k: string, used: set<string>)
    requires Newest(t, k)
    ensures Below(t, k, t[k], used)
  {
    NewestFirst(t, k);
  }

  // ---------------------------------------------------------------- spec documents

  /** The call stores or loads the URL. */
  predicate UsesSpec(op: Op, url: string) {
    match op
    case StoreSpecOp(spec, _, _) => NamedBy(spec, url)
    case LoadSpecOp(u, _, _, _) => TrimSpace(u) == url
    case _ => false
  }

  ghost predicate SpecsOnly(ops: seq<Op>, used: set<string>) {
    forall op, u :: op in ops && UsesSpec(op, u) ==> u in used
  }

  lemma SpecStays(env: Env, t: Tables, op: Op, url: string, row: Row<Document>, used: set<string>)
    requires env.options.Bounded() && Below(t.specs, url, row, used)
    requires url !in used && |used| < env.options.maxSpecDocuments && forall u :: UsesSpec(op, u) ==> u in used
    ensures Below(Step(env, t, op).specs, url, row, used)
  {
    hide Prepare, Lookup, LookupSearch, InsertAll, SearchFits, Touch, Prune, Below, SameBut, URLs, Step, TrimSpace,
         NamedBy, PrepareArtifact, Accepts, Keeps, AcceptsArtifact;
    var limit := env.options.maxSpecDocuments;
    SpecsOf(env, t, op);
    PrunedBelow(t.specs, url, row, used, limit);
    match op {
      case StoreSpecOp(spec, now, accessed) =>
        var p := Prepare(env, spec, now);
        StoredExactly(env, spec, now);
        if p.Ready? {
          var d := p.document;
          var stored := InsertAll(t.specs, URLs(d), d, accessed, now / SECOND);
          forall k <- URLs(d) ensures k in used {
            assert UsesSpec(op, k);
          }
          InsertsOnly(t.specs, URLs(d), d, accessed, now / SECOND, used);
          StaysBelow(t.specs, stored, url, row, used);
          PrunedBelow(stored, url, row, used, limit);
        }
      case LoadSpecOp(u, maxAge, now, accessed) =>
        assert UsesSpec(op, TrimSpace(u));
        TouchesOnly(t.specs, TrimSpace(u), accessed, used);
        StaysBelow(t.specs, Touch(t.specs, TrimSpace(u), accessed), url, row, used);
      case _ =>
    }
  }

  lemma {:induction false} SpecRemains(env: Env, t: Tables, ops: seq<Op>, url: string, row: Row<Document>,
                                       used: set<string>)
    requires env.options.Bounded() && Below(t.specs, url, row, used)
    requires url !in used && |used| < env.options.maxSpecDocuments
    requires SpecsOnly(ops, used)
    ensures Below(Continue(env, t, ops).specs, url, row, used)
    decreases |ops|
  {
    hide Step, Below, UsesSpec;
    if ops != [] {
      var before, op := ops[..|ops| - 1], ops[|ops| - 1];
      assert op in ops && forall o <- before :: o in ops;
      SpecRemains(env, t, before, url, row, used);
      SpecStays(env, Continue(env, t, before), op, url, row, used);
    }
  }

  /** A hit with a clock reading later than all accesses makes its row the newest. */
  lemma HitMakesNewest(env: Env, t: Tables, url: string, maxAge: int, now: int, accessed: int)
    requires env.options.Bounded() && Lookup(env, t.specs, url, maxAge, now).Hit?
    requires forall k <- t.specs :: t.specs[k].accessed < accessed
    ensures (var key, after := TrimSpace(url), Step(env, t, LoadSpecOp(url, maxAge, now, accessed)).specs;
             && key in t.specs && Newest(after, key) && after[key].value == t.specs[key].value
             && after.Keys == t.specs.Keys && forall k <- after :: k != key ==> after[k] == t.specs[k])
  {
    hide Lookup, TrimSpace, Step;
    SpecsOf(env, t, LoadSpecOp(url, maxAge, now, accessed));
    if TrimSpace(url) !in t.specs {
      MissingIsMiss(env, t.specs, url, maxAge, now);
    }
  }

  /** The working set: after a hit, the same document is hit again as long as it is fresh and
      fewer other URLs than the limit have been stored or loaded since. */
  lemma HitAgain(env: Env, t: Tables, url: string, maxAge: int, now: int, accessed: int, ops: seq<Op>,
                 used: set<string>, later: int)
    requires env.options.Bounded() && Lookup(env, t.specs, url, maxAge, now).Hit?
    requires forall k <- t.specs :: t.specs[k].accessed < accessed
    requires TrimSpace(url) !in used && |used| < env.options.maxSpecDocuments
    requires SpecsOnly(ops, used)
    ensures (var d := Lookup(env, t.specs, url, maxAge, now).document;
             var after := Continue(env, Step(env, t, LoadSpecOp(url, maxAge, now, accessed)), ops);
             Lookup(env, after.specs, url, maxAge, later)
             == if Expired(d.updatedAt, maxAge, later) then Miss else Hit(d))
  {
    hide TrimSpace, Step, Below, SpecsOnly, Expired, Continue, ValidSHA256, ToLower, TotalLength, Newest;
    var next := Step(env, t, LoadSpecOp(url, maxAge, now, accessed));
    HitMakesNewest(env, t, url, maxAge, now, accessed);
    NewestBelow(next.specs, TrimSpace(url), used);
    var row := next.specs[TrimSpace(url)];
    SpecRemains(env, next, ops, TrimSpace(url), row, used);
    BelowHolds(Continue(env, next, ops).specs, TrimSpace(url), row, used);
  }

  lemma BelowHolds<V>(t: Table<V>, k: string, row: Row<V>, used: set<string>)
    requires Below(t, k, row, used)
    ensures k in t && t[k] == row
  {
  }

  // ---------------------------------------------------------------- searches

  predicate UsesSearch(op: Op, key: SearchKey) {
    match op
    case StoreSearchOp(k, _, _, _) => SameSearch(k, key)
    case LoadSearchOp(k, _, _, _) => SameSearch(k, key)
    case _ => false
  }

  ghost function Hashes(env: Env, keys: set<SearchKey>): set<string> {
    set k | k in keys :: KeyHash(env, k)
  }

  lemma {:induction false} HashesFewer(env: Env, keys: set<SearchKey>)
    ensures |Hashes(env, keys)| <= |keys|
    decreases |keys|
  {
    hide KeyHash;
    if keys != {} {
      var k :| k in keys;
      HashesFewer(env, keys - {k});
      assert Hashes(env, keys) == Hashes(env, keys - {k}) + {KeyHash(env, k)};
    }
  }

  /** Every search that the calls use may share its answer with one of these. */
  ghost predicate UsesOnly(ops: seq<Op>, used: set<SearchKey>) {
    forall op <- ops :: forall k :: UsesSearch(op, k) ==> exists u <- used :: SameSearch(u, k)
  }

  lemma SearchStays(env: Env, t: Tables, op: Op, hash: string, row: Row<Query>, used: set<string>)
    requires env.options.Bounded() && Below(t.queries, hash, row, used)
    requires hash !in used && |used| < env.options.maxSearchQueries
    requires op.StoreSearchOp? || op.LoadSearchOp? ==> KeyHash(env, op.key) in used
    ensures Below(Step(env, t, op).queries, hash, row, used)
  {
    hide Prepare, LookupSearch, InsertAll, TouchAll, SearchFits, KeyHash, Touch, Prune, Below, SameBut, Step,
         PrepareArtifact, Insert;
    var limit := env.options.maxSearchQueries;
    SearchesOf(env, t, op);
    PrunedBelow(t.queries, hash, row, used, limit);
    match op {
      case StoreSearchOp(key, report, now, accessed) =>
        var stored := Insert(t.queries, KeyHash(env, key), Query(report, now / SECOND), accessed, now / SECOND);
        InsertOnly(t.queries, KeyHash(env, key), Query(report, now / SECOND), accessed, now / SECOND, used);
        StaysBelow(t.queries, stored, hash, row, used);
        PrunedBelow(stored, hash, row, used, limit);
      case LoadSearchOp(key, maxAge, now, accessed) =>
        TouchesOnly(t.queries, KeyHash(env, key), accessed, used);
        StaysBelow(t.queries, Touch(t.queries, KeyHash(env, key), accessed), hash, row, used);
      case _ =>
    }
  }

  lemma InsertOnly<V>(t: Table<V>, k: string, value: V, accessed: int, now: int, used: set<string>)
    requires k in used
    ensures SameBut(t, Insert(t, k, value, accessed, now), used)
  {
  }

  lemma {:induction false} SearchRemains(env: Env, t: Tables, ops: seq<Op>, hash: string, row: Row<Query>,
                                         used: set<string>)
    requires env.options.Bounded() && Below(t.queries, hash, row, used)
    requires hash !in used && |used| < env.options.maxSearchQueries
    requires forall op <- ops :: op.StoreSearchOp? || op.LoadSearchOp? ==> KeyHash(env, op.key) in used
    ensures Below(Continue(env, t, ops).queries, hash, row, used)
    decreases |ops|
  {
    hide Step, Below, KeyHash;
    if ops != [] {
      var before, op := ops[..|ops| - 1], ops[|ops| - 1];
      SearchRemains(env, t, before, hash, row, used);
      SearchStays(env, Continue(env, t, before), op, hash, row, used);
    }
  }

  lemma HashesUsed(env: Env, ops: seq<Op>, used: set<SearchKey>)
    requires TellsKeys(env) && UsesOnly(ops, used)
    ensures forall op <- ops :: op.StoreSearchOp? || op.LoadSearchOp? ==> KeyHash(env, op.key) in Hashes(env, used)
  {
    hide KeyHash, SameSearch;
    forall op <- ops | op.StoreSearchOp? || op.LoadSearchOp? ensures KeyHash(env, op.key) in Hashes(env, used) {
      KeysTellSearches(env, op.key, op.key);
      assert UsesSearch(op, op.key);
      var u :| u in used && SameSearch(u, op.key);
      KeysTellSearches(env, u, op.key);
    }
  }

  lemma FindMakesNewest(env: Env, t: Tables, key: SearchKey, maxAge: int, now: int, accessed: int)
    requires env.options.Bounded() && LookupSearch(env, t.queries, key, maxAge, now).Found?
    requires forall k <- t.queries :: t.queries[k].accessed < accessed
    ensures (var hash, after := KeyHash(env, key), Step(env, t, LoadSearchOp(key, maxAge, now, accessed)).queries;
             && hash in t.queries && Newest(after, hash) && after[hash].value == t.queries[hash].value
             && after.Keys == t.queries.Keys && forall k <- after :: k != hash ==> after[k] == t.queries[k])
  {
    hide KeyHash, Step, Expired, TouchAll;
    SearchesOf(env, t, LoadSearchOp(key, maxAge, now, accessed));
  }

  /** The working set of searches. */
  lemma FoundAgain(env: Env, t: Tables, key: SearchKey, maxAge: int, now: int, accessed: int, ops: seq<Op>,
                   used: set<SearchKey>, later: int)
    requires env.options.Bounded() && TellsKeys(env) && LookupSearch(env, t.queries, key, maxAge, now).Found?
    requires forall k <- t.queries :: t.queries[k].accessed < accessed
    requires |used| < env.options.maxSearchQueries && UsesOnly(ops, used) && forall u <- used :: !SameSearch(u, key)
    ensures (var q := t.queries[KeyHash(env, key)].value;
             var after := Continue(env, Step(env, t, LoadSearchOp(key, maxAge, now, accessed)), ops);
             LookupSearch(env, after.queries, key, maxAge, later)
             == if Expired(q.updatedAt, maxAge, later) then Absent else Found(q.report))
  {
    hide KeyHash, Step, Below, UsesOnly, Expired, Continue, Newest, SameSearch, Hashes;
    var next, hash, hashes := Step(env, t, LoadSearchOp(key, maxAge, now, accessed)), KeyHash(env, key),
                              Hashes(env, used);
    FindMakesNewest(env, t, key, maxAge, now, accessed);
    HashesFewer(env, used);
    HashesUsed(env, ops, used);
    OtherHash(env, key, used);
    NewestBelow(next.queries, hash, hashes);
    var row := next.queries[hash];
    SearchRemains(env, next, ops, hash, row, hashes);
    BelowHolds(Continue(env, next, ops).queries, hash, row, hashes);
  }

  lemma OtherHash(env: Env, key: SearchKey, used: set<SearchKey>)
    requires TellsKeys(env) && forall u <- used :: !SameSearch(u, key)
    ensures KeyHash(env, key) !in Hashes(env, used)
  {
    hide KeyHash, SameSearch;
    forall u <- used ensures KeyHash(env, u) != KeyHash(env, key) {
      KeysTellSearches(env, u, key);
    }
  }

  // ---------------------------------------------------------------- result rows

  lemma {:induction false} TouchedRows<V>(t: Table<V>, keys: seq<string>, accessed: int)
    ensures (var u := TouchAll(t, keys, accessed);
             u.Keys == t.Keys && forall k <- t :: u[k] == if k in keys then t[k].(accessed := accessed) else t[k])
    decreases |keys|
  {
    if keys != [] {
      TouchedRows(Touch(t, keys[0], accessed), keys[1..], accessed);
      assert keys == [keys[0]] + keys[1..];
    }
  }

  lemma {:induction false} InsertedRows<V>(t: Table<V>, keys: seq<string>, value: V, accessed: int, now: int)
    ensures (var u := InsertAll(t, keys, value, accessed, now);
             && (forall k :: k in u <==> k in t || k in keys)
             && forall k <- u ::
                  if k in keys
                  then u[k] == Row(value, accessed, if k in t then t[k].firstSeen else now)
                  else k in t && u[k] == t[k])
    decreases |keys|
  {
    if keys != [] {
      InsertedRows(Insert(t, keys[0], value, accessed, now), keys[1..], value, accessed, now);
      assert keys == [keys[0]] + keys[1..];
    }
  }

  /** A search that is found uses the rows of its results, and no other ones. */
  lemma FindUsesResults(env: Env, t: Tables, key: SearchKey, maxAge: int, now: int, accessed: int)
    requires env.options.Bounded() && LookupSearch(env, t.queries, key, maxAge, now).Found?
    ensures (var ids := LookupSearch(env, t.queries, key, maxAge, now).report.resultIds;
             var after := Step(env, t, LoadSearchOp(key, maxAge, now, accessed)).results;
             after.Keys == t.results.Keys
             && forall k <- after :: after[k] == if k in ids then t.results[k].(accessed := accessed) else t.results[k])
  {
    hide KeyHash, Step, TouchAll, LookupSearch;
    SearchesOf(env, t, LoadSearchOp(key, maxAge, now, accessed));
    TouchedRows(t.results, LookupSearch(env, t.queries, key, maxAge, now).report.resultIds, accessed);
  }

  lemma NewestRows<V>(t: Table<V>, keys: seq<string>, k: string, accessed: int)
    requires k in t && k in keys && t[k].accessed == accessed
    requires forall j <- t :: j !in keys ==> t[j].accessed < accessed
    ensures AboveKeys(t, k) <= set j | j in keys
  {
  }

  /** A search that is stored leaves a row for each of its results, if they fit and its clock
      reading is later than every access so far. */
  lemma StoreKeepsResults(env: Env, t: Tables, key: SearchKey, report: Report, now: int, accessed: int, id: string)
    requires env.options.Bounded() && SearchFits(env, key, report) && id in report.resultIds
    requires |set j | j in report.resultIds| <= env.options.maxSearchResults
    requires forall k <- t.results :: t.results[k].accessed < accessed
    ensures (var after := Step(env, t, StoreSearchOp(key, report, now, accessed)).results;
             id in after && after[id].accessed == accessed)
  {
    hide KeyHash, Step, InsertAll, SearchFits, Prune, Above;
    var ids, limit := report.resultIds, env.options.maxSearchResults;
    SearchesOf(env, t, StoreSearchOp(key, report, now, accessed));
    InsertedRows(t.results, ids, (), accessed, now / SECOND);
    var stored := InsertAll(t.results, ids, (), accessed, now / SECOND);
    NewestRows(stored, ids, id, accessed);
    var among := set j | j in ids;
    AboveTotal(stored, id, id);
    assert AboveKeys(stored, id) <= among - {id};
    Ordering.Cardinality(AboveKeys(stored, id), among - {id});
    PruneMember(stored, limit, id);
  }

  // ---------------------------------------------------------------- first seen

  /** Rows keep when they were first seen, and new ones are seen now. */
  ghost predicate SeenSince<V>(t: Table<V>, u: Table<V>, now: int) {
    forall k <- u :: u[k].firstSeen == if k in t then t[k].firstSeen else now
  }

  /** The whole second of a clock reading, or of none. */
  function SecondOf(op: Op): int {
    match op
    case StoreSpecOp(_, now, _) => now / SECOND
    case StoreSearchOp(_, _, now, _) => now / SECOND
    case StoreArtifactOp(_, _, now, _) => now / SECOND
    case _ => 0
  }

  lemma PrunedSeen<V>(t: Table<V>, u: Table<V>, now: int, limit: nat)
    requires SeenSince(t, u, now)
    ensures SeenSince(t, Prune(u, limit), now) && SeenSince(t, Prune(t, limit), now)
  {
    hide Prune;
    PruneSubset(u, limit);
    PruneSubset(t, limit);
  }

  /** A row keeps its first-seen time through every call, as long as it is not pruned. */
  lemma FirstSeenStays(env: Env, t: Tables, op: Op)
    requires env.options.Bounded()
    ensures (var u := Step(env, t, op);
             && SeenSince(t.specs, u.specs, SecondOf(op)) && SeenSince(t.queries, u.queries, SecondOf(op))
             && SeenSince(t.results, u.results, SecondOf(op)) && SeenSince(t.artifacts, u.artifacts, SecondOf(op)))
  {
    hide Prepare, Lookup, LookupSearch, InsertAll, TouchAll, SearchFits, KeyHash, Prune, URLs, Step, TrimSpace,
         PrepareArtifact, AllListable, ArtifactKey;
    var o := env.options;
    SpecsOf(env, t, op);
    SearchesOf(env, t, op);
    ArtifactsStep(env, t, op);
    PrunedSeen(t.specs, t.specs, SecondOf(op), o.maxSpecDocuments);
    PrunedSeen(t.queries, t.queries, SecondOf(op), o.maxSearchQueries);
    PrunedSeen(t.results, t.results, SecondOf(op), o.maxSearchResults);
    PrunedSeen(t.artifacts, t.artifacts, SecondOf(op), o.maxCatalogArtifacts);
    match op {
      case StoreSpecOp(spec, now, accessed) =>
        var p := Prepare(env, spec, now);
        if p.Ready? {
          var d := p.document;
          InsertedRows(t.specs, URLs(d), d, accessed, now / SECOND);
          PrunedSeen(t.specs, InsertAll(t.specs, URLs(d), d, accessed, now / SECOND), now / SECOND, o.maxSpecDocuments);
        }
      case StoreSearchOp(key, report, now, accessed) =>
        var hash, q := KeyHash(env, key), Query(report, now / SECOND);
        InsertedRows(t.results, report.resultIds, (), accessed, now / SECOND);
        PrunedSeen(t.results, InsertAll(t.results, report.resultIds, (), accessed, now / SECOND), now / SECOND,
                   o.maxSearchResults);
        PrunedSeen(t.queries, Insert(t.queries, hash, q, accessed, now / SECOND), now / SECOND, o.maxSearchQueries);
      case LoadSearchOp(key, maxAge, now, accessed) =>
        var r := LookupSearch(env, t.queries, key, maxAge, now);
        if r.Found? {
          TouchedRows(t.results, r.report.resultIds, accessed);
        }
      case StoreArtifactOp(artifact, file, now, accessed) =>
        var p := PrepareArtifact(env, artifact, file);
        if p.Some? {
          var a := p.value;
          PrunedSeen(t.artifacts, Insert(t.artifacts, ArtifactKey(a.providerId, a.artifactId),
                                         ArtifactRow(a, now / SECOND), accessed, now / SECOND), now / SECOND,
                     o.maxCatalogArtifacts);
        }
      case _ =>
    }
  }

  // ---------------------------------------------------------------- artifact rows

  /** What a step does to the artifact rows, their access times included. */
  lemma ArtifactsStep(env: Env, t: Tables, op: Op)
    requires env.options.Bounded()
    ensures (var u, n := Step(env, t, op).artifacts, env.options.maxCatalogArtifacts;
             match op
             case StoreArtifactOp(artifact, file, now, accessed) => (
               match PrepareArtifact(env, artifact, file)
               case None => u == t.artifacts
               case Some(a) => u == Prune(Insert(t.artifacts, ArtifactKey(a.providerId, a.artifactId),
                                                 ArtifactRow(a, now / SECOND), accessed, now / SECOND), n))
             case ListArtifactsOp(pathsClean, accessed) =>
               u == if pathsClean && AllListable(env, t.artifacts) then TouchEvery(t.artifacts, accessed)
                    else t.artifacts
             case StoreSpecOp(spec, now, _) => u == t.artifacts || u == Prune(t.artifacts, n)
             case StoreSearchOp(_, _, _, _) => u == t.artifacts || u == Prune(t.artifacts, n)
             case PruneOp => u == Prune(t.artifacts, n)
             case _ => u == t.artifacts)
  {
    hide Prepare, Lookup, LookupSearch, InsertAll, TouchAll, SearchFits, KeyHash, Touch, Prune, URLs, TrimSpace,
         PrepareArtifact, Insert, TouchEvery, AllListable, ArtifactKey;
  }

  /** A row that the list accepts. */
  predicate Sound(env: Env, a: Artifact) {
    && |a.metadata| <= env.options.maxMetadataBytes && ValidSHA256(a.sha256) && a.bytes > 0
    && |a.providerId| + |a.artifactId| + |a.kind| + |a.path| + |a.sourceURL| + |a.overlayPath| + |a.builderPath|
       + |a.sha256| <= env.options.maxMetadataBytes
  }

  /** Listing uses every row when all are sound, and otherwise none. */
  lemma ListingUses(env: Env, t: Tables, pathsClean: bool, accessed: int)
    requires env.options.Bounded()
    ensures (var u := Step(env, t, ListArtifactsOp(pathsClean, accessed)).artifacts;
             if pathsClean && forall k <- t.artifacts :: Sound(env, t.artifacts[k].value.artifact)
             then u.Keys == t.artifacts.Keys && forall k <- u :: u[k] == t.artifacts[k].(accessed := accessed)
             else u == t.artifacts)
  {
    hide Step, TotalLength, ValidSHA256;
    ArtifactsStep(env, t, ListArtifactsOp(pathsClean, accessed));
    forall k <- t.artifacts
      ensures Sound(env, t.artifacts[k].value.artifact) <==> Listable(env, t.artifacts[k].value.artifact)
    {
      var a := t.artifacts[k].value.artifact;
      EightTexts(a.providerId, a.artifactId, a.kind, a.path, a.sourceURL, a.overlayPath, a.builderPath, a.sha256);
    }
  }
}
