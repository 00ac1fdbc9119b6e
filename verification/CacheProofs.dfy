/** What the cache guarantees over every run. */
module CacheProofs {
  import opened LruTable
  import Ordering
  import opened CacheSpec
  import opened Text
  import opened Wrappers

  // ---------------------------------------------------------------- what a hit returns

  /** A call of a cache opened with the limits of `env`. */
  datatype Call = Call(env: Env, op: Op)

  /** The calls of one cache on a database: opening it prunes it. */
  function Session(env: Env, ops: seq<Op>): seq<Call>
    decreases |ops|
  {
    if ops == [] then [Call(env, PruneOp)] else Session(env, ops[..|ops| - 1]) + [Call(env, ops[|ops| - 1])]
  }

  /** All calls are made by the same program: digests and key hashes do not change, but a
      cache may have been opened with other limits. */
  ghost predicate Kin(env: Env, calls: seq<Call>) {
    forall c <- calls :: c.env.options.Bounded() && c.env.digest == env.digest && c.env.hash == env.hash
  }

  /** What the database holds after the calls. */
  ghost function Lived(env: Env, calls: seq<Call>): Tables
    requires Kin(env, calls)
  {
    if calls == [] then Empty
    else
      var c := calls[|calls| - 1];
      assert c in calls;
      Step(c.env, Lived(env, calls[..|calls| - 1]), c.op)
  }

  /** The document of the last store that succeeded for this URL. */
  ghost function Latest(calls: seq<Call>, url: string): seq<Document> {
    if calls == [] then []
    else
      var c := calls[|calls| - 1];
      var before := Latest(calls[..|calls| - 1], url);
      if !c.op.StoreSpecOp? then before
      else
        var p := Prepare(c.env, c.op.spec, c.op.now);
        if p.Ready? && url in URLs(p.document) then [p.document] else before
  }

  /** The report of the last store that succeeded under this key hash. */
  ghost function LatestReport(calls: seq<Call>, hash: string): seq<Query> {
    if calls == [] then []
    else
      var c := calls[|calls| - 1];
      var before := LatestReport(calls[..|calls| - 1], hash);
      if c.op.StoreSearchOp? && SearchFits(c.env, c.op.key, c.op.report) && KeyHash(c.env, c.op.key) == hash
      then [Query(c.op.report, c.op.now / SECOND)] else before
  }

  /** A document whose content, digest and byte count belong together. */
  ghost predicate Intact(env: Env, d: Document) {
    d.content != "" && d.bytes == |d.content| && d.sha256 == env.digest(d.content)
  }

  /** A document within the limits of this cache. */
  predicate Admits(env: Env, d: Document) {
    && |d.content| <= env.options.maxArtifactBytes && |d.metadata| <= env.options.maxMetadataBytes
    && TotalLength([d.originalURL, d.finalURL, d.sha256, ""]) <= env.options.maxMetadataBytes
  }

  /** Every row holds what was last stored under its key, within the limits of some cache
      that stored it. */
  ghost predicate Faithful(env: Env, t: Tables, calls: seq<Call>) {
    && (forall url <- t.specs ::
          Latest(calls, url) == [t.specs[url].value] && Intact(env, t.specs[url].value)
          && exists c <- calls :: Admits(c.env, t.specs[url].value))
    && (forall hash <- t.queries ::
          LatestReport(calls, hash) == [t.queries[hash].value]
          && exists c <- calls :: |t.queries[hash].value.report.json| <= c.env.options.maxSearchReportBytes)
  }

  lemma PruneFaithful(env: Env, here: Env, t: Tables, calls: seq<Call>)
    requires here.options.Bounded() && Faithful(env, t, calls)
    ensures Faithful(env, PruneTables(here, t), calls)
  {
    hide Prune, Latest, LatestReport, Intact, Admits;
    PruneSubset(t.specs, here.options.maxSpecDocuments);
    PruneSubset(t.queries, here.options.maxSearchQueries);
  }

  lemma InsertedURLs(specs: Table<Document>, d: Document, accessed: int, now: int)
    ensures (var after := InsertAll(specs, URLs(d), d, accessed, now);
             && after.Keys == specs.Keys + (set url <- URLs(d))
             && forall url <- after :: after[url].value == if url in URLs(d) then d else specs[url].value)
  {
    assert [d.originalURL, d.finalURL][1..] == [d.finalURL];
    var once := Insert(specs, d.originalURL, d, accessed, now);
    assert InsertAll(once, [d.finalURL], d, accessed, now) == Insert(once, d.finalURL, d, accessed, now);
  }

  lemma PreparedIntact(env: Env, spec: Spec, now: int)
    ensures (var p := Prepare(env, spec, now); p.Ready? ==> Intact(env, p.document) && Admits(env, p.document))
  {
    hide TrimSpace, ValidSHA256, ToLower, TotalLength;
  }

  /** A call that stores nothing leaves what was last stored as it was. */
  lemma SameHistory(env: Env, t: Tables, calls: seq<Call>)
    requires calls != [] && Faithful(env, t, calls[..|calls| - 1])
    requires (var c := calls[|calls| - 1];
              && (c.op.StoreSpecOp? ==> Prepare(c.env, c.op.spec, c.op.now).Refused?)
              && (c.op.StoreSearchOp? ==> !SearchFits(c.env, c.op.key, c.op.report)))
    ensures Faithful(env, t, calls)
  {
    hide Prepare, Intact, Admits, SearchFits, KeyHash;
    forall c <- calls[..|calls| - 1] ensures c in calls {
    }
  }

  /** The rows after a store, before pruning. */
  lemma StoredFaithful(env: Env, t: Tables, calls: seq<Call>)
    requires Kin(env, calls) && calls != [] && Faithful(env, t, calls[..|calls| - 1])
    requires calls[|calls| - 1].op.StoreSpecOp?
    requires (var c := calls[|calls| - 1]; Prepare(c.env, c.op.spec, c.op.now).Ready?)
    ensures (var c := calls[|calls| - 1];
             var d := Prepare(c.env, c.op.spec, c.op.now).document;
             Faithful(env, t.(specs := InsertAll(t.specs, URLs(d), d, c.op.accessed, c.op.now / SECOND)), calls))
  {
    hide Prepare, Intact, Admits, InsertAll, URLs;
    var c := calls[|calls| - 1];
    var d := Prepare(c.env, c.op.spec, c.op.now).document;
    assert c in calls;
    PreparedIntact(c.env, c.op.spec, c.op.now);
    SameDigest(env, c.env, d);
    InsertedURLs(t.specs, d, c.op.accessed, c.op.now / SECOND);
    forall b <- calls[..|calls| - 1] ensures b in calls {
    }
  }

  lemma StoreSpecFaithful(env: Env, t: Tables, calls: seq<Call>)
    requires Kin(env, calls) && calls != [] && Faithful(env, t, calls[..|calls| - 1])
    requires calls[|calls| - 1].op.StoreSpecOp?
    ensures calls[|calls| - 1] in calls
    ensures Faithful(env, Step(calls[|calls| - 1].env, t, calls[|calls| - 1].op), calls)
  {
    hide Prepare, PruneTables, Lookup, LookupSearch, Intact, Admits, InsertAll, URLs;
    var c := calls[|calls| - 1];
    var op := c.op;
    var p := Prepare(c.env, op.spec, op.now);
    if p.Ready? {
      var next := t.(specs := InsertAll(t.specs, URLs(p.document), p.document, op.accessed, op.now / SECOND));
      StoredFaithful(env, t, calls);
      PruneFaithful(env, c.env, next, calls);
    } else {
      SameHistory(env, t, calls);
    }
  }

  lemma SameDigest(env: Env, other: Env, d: Document)
    requires other.digest == env.digest
    ensures Intact(other, d) == Intact(env, d)
  {
  }

  lemma StoreSearchFaithful(env: Env, t: Tables, calls: seq<Call>)
    requires Kin(env, calls) && calls != [] && Faithful(env, t, calls[..|calls| - 1])
    requires calls[|calls| - 1].op.StoreSearchOp?
    ensures calls[|calls| - 1] in calls
    ensures Faithful(env, Step(calls[|calls| - 1].env, t, calls[|calls| - 1].op), calls)
  {
    hide PruneTables, Lookup, LookupSearch, Intact, Admits, InsertAll, SearchFits, KeyHash;
    var c := calls[|calls| - 1];
    var op := c.op;
    if SearchFits(c.env, op.key, op.report) {
      FitsReport(c.env, op.key, op.report);
      var next := t.(results := InsertAll(t.results, op.report.resultIds, (), op.accessed, op.now / SECOND),
                     queries := Insert(t.queries, KeyHash(c.env, op.key), Query(op.report, op.now / SECOND),
                                       op.accessed, op.now / SECOND));
      forall b <- calls[..|calls| - 1] ensures b in calls {
      }
      assert Faithful(env, next, calls);
      PruneFaithful(env, c.env, next, calls);
    } else {
      SameHistory(env, t, calls);
    }
  }

  /** Touching a row keeps what it holds. */
  lemma TouchedValues<V>(t: Table<V>, k: string, accessed: int)
    ensures Touch(t, k, accessed).Keys == t.Keys
    ensures forall j <- t :: Touch(t, k, accessed)[j].value == t[j].value
  {
  }

  lemma LoadFaithful(env: Env, here: Env, t: Tables, calls: seq<Call>, op: Op)
    requires here.options.Bounded() && Faithful(env, t, calls)
    requires op.LoadSpecOp? || op.LoadSearchOp?
    ensures Faithful(env, Step(here, t, op), calls)
  {
    hide Touch, Lookup, LookupSearch, Intact, Admits, KeyHash, TouchAll, Latest, LatestReport, TrimSpace;
    if op.LoadSpecOp? {
      TouchedValues(t.specs, TrimSpace(op.url), op.accessed);
    } else {
      TouchedValues(t.queries, KeyHash(here, op.key), op.accessed);
    }
  }

  lemma FitsReport(env: Env, key: SearchKey, report: Report)
    requires SearchFits(env, key, report)
    ensures |report.json| <= env.options.maxSearchReportBytes
  {
  }

  lemma {:induction false} LivedFaithful(env: Env, calls: seq<Call>)
    requires Kin(env, calls)
    ensures Faithful(env, Lived(env, calls), calls)
    decreases |calls|
  {
    hide PruneTables, Lookup, LookupSearch, TouchAll, Prepare, InsertAll, SearchFits, Faithful;
    if calls == [] {
      NothingHeld(env);
    } else {
      var before, c := calls[..|calls| - 1], calls[|calls| - 1];
      LivedFaithful(env, before);
      var t := Lived(env, before);
      if c.op.StoreSpecOp? {
        StoreSpecFaithful(env, t, calls);
      } else if c.op.StoreSearchOp? {
        StoreSearchFaithful(env, t, calls);
      } else {
        SameHistory(env, t, calls);
        if c.op.PruneOp? {
          PruneFaithful(env, c.env, t, calls);
        } else if c.op.LoadSpecOp? || c.op.LoadSearchOp? {
          LoadFaithful(env, c.env, t, calls, c.op);
        } else {
          ArtifactsApart(env, c.env, t, calls, c.op);
        }
      }
    }
  }

  /** Calls about artifacts touch neither specs nor searches, apart from pruning them. */
  lemma ArtifactsApart(env: Env, here: Env, t: Tables, calls: seq<Call>, op: Op)
    requires here.options.Bounded() && Faithful(env, t, calls)
    requires op.StoreArtifactOp? || op.ListArtifactsOp?
    ensures Faithful(env, Step(here, t, op), calls)
  {
    hide PrepareArtifact, PruneTables, Insert, TouchEvery, AllListable, Latest, LatestReport, Intact, Admits,
         ArtifactKey;
    if op.StoreArtifactOp? {
      var p := PrepareArtifact(here, op.artifact, op.file);
      if p.Some? {
        var next := t.(artifacts := Insert(t.artifacts, ArtifactKey(p.value.providerId, p.value.artifactId),
                                           ArtifactRow(p.value, op.now / SECOND), op.accessed, op.now / SECOND));
        PruneFaithful(env, here, next, calls);
      }
    }
  }

  lemma NothingHeld(env: Env)
    ensures Faithful(env, Empty, [])
  {
  }

  /** Opening the database that earlier calls left, and a run of this cache on it. */
  lemma {:induction false} SessionLived(env: Env, earlier: seq<Call>, ops: seq<Op>)
    requires env.options.Bounded() && Kin(env, earlier)
    ensures Kin(env, earlier + Session(env, ops))
    ensures Lived(env, earlier + Session(env, ops)) == Run(env, Lived(env, earlier), ops)
    ensures forall c <- Session(env, ops) :: c.env == env
    decreases |ops|
  {
    hide Step;
    var calls := earlier + Session(env, ops);
    if ops == [] {
      assert calls[..|calls| - 1] == earlier && calls[|calls| - 1] == Call(env, PruneOp);
      Opened(env, Lived(env, earlier));
    } else {
      SessionLived(env, earlier, ops[..|ops| - 1]);
      assert calls[..|calls| - 1] == earlier + Session(env, ops[..|ops| - 1]);
      assert calls[|calls| - 1] == Call(env, ops[|ops| - 1]);
    }
  }

  lemma Opened(env: Env, t: Tables)
    requires env.options.Bounded()
    ensures Step(env, t, PruneOp) == PruneTables(env, t)
  {
  }

  /** Over any life of the database -- earlier caches with other limits, then any run of this
      one -- a row that is present and not expired is the document of the latest successful
      store for that URL, with the digest and the byte count of its content.  It is a hit
      exactly when it is within the limits of this cache, and otherwise refused; when all
      caches had the same limits, it always is. */
  lemma HitIsLatest(env: Env, earlier: seq<Call>, ops: seq<Op>, url: string, maxAge: int, now: int)
    requires ValidEnv(env) && Kin(env, earlier)
    ensures (var specs, key := Run(env, Lived(env, earlier), ops).specs, TrimSpace(url);
             var r := Lookup(env, specs, url, maxAge, now);
             if key in specs && !Expired(specs[key].value.updatedAt, maxAge, now)
             then
               var d := specs[key].value;
               && Latest(earlier + Session(env, ops), key) == [d]
               && d.sha256 == env.digest(d.content) && d.bytes == |d.content|
               && r == (if Admits(env, d) then Hit(d) else Corrupt)
               && ((forall c <- earlier :: c.env == env) ==> Admits(env, d))
             else r == Miss)
  {
    hide Run, Lived, Latest, LatestReport, ValidSHA256, ToLower, TrimSpace, TotalLength, Expired, Session;
    SessionLived(env, earlier, ops);
    LivedFaithful(env, earlier + Session(env, ops));
  }

  /** The same for searches, by the hash of the normalized key. */
  lemma SearchIsLatest(env: Env, earlier: seq<Call>, ops: seq<Op>, key: SearchKey, maxAge: int, now: int)
    requires env.options.Bounded() && Kin(env, earlier)
    ensures (var queries, hash := Run(env, Lived(env, earlier), ops).queries, KeyHash(env, key);
             var r := LookupSearch(env, queries, key, maxAge, now);
             if hash in queries && !Expired(queries[hash].value.updatedAt, maxAge, now)
             then
               var q := queries[hash].value;
               && LatestReport(earlier + Session(env, ops), hash) == [q]
               && r == (if |q.report.json| <= env.options.maxSearchReportBytes then Found(q.report) else Oversized)
               && ((forall c <- earlier :: c.env == env) ==> r.Found?)
             else r == Absent)
  {
    hide Run, Lived, Latest, LatestReport, KeyHash, Expired, Intact, Admits, Session;
    SessionLived(env, earlier, ops);
    LivedFaithful(env, earlier + Session(env, ops));
  }

  // ---------------------------------------------------------------- catalog artifacts

  /** The row of the last store that succeeded under this key. */
  ghost function LatestArtifact(calls: seq<Call>, key: string): Option<ArtifactRow> {
    if calls == [] then None
    else
      var c := calls[|calls| - 1];
      var before := LatestArtifact(calls[..|calls| - 1], key);
      if !c.op.StoreArtifactOp? then before
      else
        var p := PrepareArtifact(c.env, c.op.artifact, c.op.file);
        if p.Some? && ArtifactKey(p.value.providerId, p.value.artifactId) == key
        then Some(ArtifactRow(p.value, c.op.now / SECOND)) else before
  }

  ghost predicate ArtifactsFaithful(artifacts: Table<ArtifactRow>, calls: seq<Call>) {
    forall key <- artifacts :: LatestArtifact(calls, key) == Some(artifacts[key].value)
  }

  /** What a step does to the artifact rows. */
  lemma ArtifactsOf(env: Env, t: Tables, op: Op)
    requires env.options.Bounded()
    ensures (var after := Step(env, t, op).artifacts;
             if op.StoreArtifactOp? && PrepareArtifact(env, op.artifact, op.file).Some?
             then
               var a := PrepareArtifact(env, op.artifact, op.file).value;
               after == Prune(Insert(t.artifacts, ArtifactKey(a.providerId, a.artifactId),
                                     ArtifactRow(a, op.now / SECOND), op.accessed, op.now / SECOND),
                              env.options.maxCatalogArtifacts)
             else after.Keys <= t.artifacts.Keys && forall k <- after :: after[k].value == t.artifacts[k].value)
  {
    hide Prepare, Lookup, LookupSearch, InsertAll, TouchAll, SearchFits, KeyHash, Touch, Prune, URLs, TrimSpace,
         PrepareArtifact, Insert, AllListable, ArtifactKey;
    PruneSubset(t.artifacts, env.options.maxCatalogArtifacts);
  }

  /** Over any life of the database, every artifact row holds what the last successful store
      under its key wrote. */
  lemma {:induction false} ArtifactsAreLatest(env: Env, calls: seq<Call>)
    requires Kin(env, calls)
    ensures ArtifactsFaithful(Lived(env, calls).artifacts, calls)
    decreases |calls|
  {
    hide Step, Prune, PrepareArtifact, ArtifactKey;
    if calls != [] {
      var c := calls[|calls| - 1];
      var t := Lived(env, calls[..|calls| - 1]);
      ArtifactsAreLatest(env, calls[..|calls| - 1]);
      assert c in calls;
      ArtifactsOf(c.env, t, c.op);
      if c.op.StoreArtifactOp? && PrepareArtifact(c.env, c.op.artifact, c.op.file).Some? {
        var a := PrepareArtifact(c.env, c.op.artifact, c.op.file).value;
        PruneSubset(Insert(t.artifacts, ArtifactKey(a.providerId, a.artifactId), ArtifactRow(a, c.op.now / SECOND),
                           c.op.accessed, c.op.now / SECOND), c.env.options.maxCatalogArtifacts);
      }
    }
  }

  /** The joined keys of artifacts order and tell apart pairs of IDs as the columns do. */
  lemma {:induction false} KeyOrder(p: string, a: string, q: string, b: string)
    requires '\0' !in p && '\0' !in q
    ensures Ordering.Less(ArtifactKey(p, a), ArtifactKey(q, b))
         <==> Ordering.Less(p, q) || (p == q && Ordering.Less(a, b))
    ensures ArtifactKey(p, a) == ArtifactKey(q, b) <==> p == q && a == b
    decreases |p|
  {
    var x, y := ArtifactKey(p, a), ArtifactKey(q, b);
    assert p == [] ==> x == ['\0'] + a && x[1..] == a;
    assert q == [] ==> y == ['\0'] + b && y[1..] == b;
    if p != [] && q != [] {
      KeyOrder(p[1..], a, q[1..], b);
      assert x[1..] == ArtifactKey(p[1..], a) && y[1..] == ArtifactKey(q[1..], b);
      assert x == [p[0]] + x[1..] && y == [q[0]] + y[1..];
      assert p == [p[0]] + p[1..] && q == [q[0]] + q[1..];
    } else if p != [] {
      assert x[0] == p[0] && p[0] in p;
    } else if q != [] {
      assert y[0] == q[0] && q[0] in q;
    }
  }

  lemma {:induction false} LatestKey(calls: seq<Call>, key: string)
    requires forall c <- calls :: c.op.StoreArtifactOp? ==> '\0' !in c.op.artifact.providerId
    ensures (var row := LatestArtifact(calls, key);
             row.Some? ==> key == ArtifactKey(row.value.artifact.providerId, row.value.artifact.artifactId)
                           && '\0' !in row.value.artifact.providerId)
    decreases |calls|
  {
    hide ArtifactKey, ValidSHA256, ToLower, TrimSpace, ArtifactFits;
    if calls != [] {
      var c := calls[|calls| - 1];
      LatestKey(calls[..|calls| - 1], key);
      if c.op.StoreArtifactOp? {
        TrimmedOf(c.op.artifact.providerId);
      }
    }
  }

  /** Over any life of the database the list of artifacts is in the order of the two ID
      columns, and has each row once. */
  lemma ListingOrdered(env: Env, calls: seq<Call>)
    requires Kin(env, calls)
    requires forall c <- calls :: c.op.StoreArtifactOp? ==> '\0' !in c.op.artifact.providerId
    ensures (var artifacts := Lived(env, calls).artifacts;
             var rows := Listing(artifacts);
             && |rows| == |artifacts| && (forall k <- artifacts :: artifacts[k].value in rows)
             && forall i, j :: 0 <= i < j < |rows| ==>
                  var a, b := rows[i].artifact, rows[j].artifact;
                  Ordering.Less(a.providerId, b.providerId)
                  || (a.providerId == b.providerId && Ordering.Less(a.artifactId, b.artifactId)))
  {
    hide Lived, LatestArtifact, ArtifactKey, Ordering.SortedSet, Ordering.Less;
    ArtifactsAreLatest(env, calls);
    var artifacts := Lived(env, calls).artifacts;
    var keys, rows := Ordering.SortedSet(artifacts.Keys), Listing(artifacts);
    Ordering.SortedSetAscends(artifacts.Keys);
    forall k <- artifacts ensures artifacts[k].value in rows {
      assert k in keys;
      var i :| 0 <= i < |keys| && keys[i] == k;
      assert rows[i] == artifacts[k].value;
    }
    forall i, j | 0 <= i < j < |rows|
      ensures Ordering.Less(rows[i].artifact.providerId, rows[j].artifact.providerId)
              || (rows[i].artifact.providerId == rows[j].artifact.providerId
                  && Ordering.Less(rows[i].artifact.artifactId, rows[j].artifact.artifactId))
    {
      var a, b := rows[i].artifact, rows[j].artifact;
      assert keys[i] in artifacts && keys[j] in artifacts;
      LatestKey(calls, keys[i]);
      LatestKey(calls, keys[j]);
      KeyOrder(a.providerId, a.artifactId, b.providerId, b.artifactId);
    }
  }

  // ---------------------------------------------------------------- storing and loading

  /** A document that is stored and then loaded through a cache with a smaller byte limit is
      refused, though the row is there and intact. */
  lemma SmallerLimitRefuses(env: Env, small: Env, spec: Spec, now: int, accessed: int, url: string, maxAge: int,
                            later: int)
    requires ValidEnv(env) && Prepare(env, spec, now).Ready?
    requires small == env.(options := env.options.(maxArtifactBytes := |spec.content| - 1)) && |spec.content| > 1
    requires |URLs(Prepare(env, spec, now).document)| <= env.options.maxSpecDocuments
    requires TrimSpace(url) in URLs(Prepare(env, spec, now).document) && !Expired(now / SECOND, maxAge, later)
    ensures (var held := Run(env, Empty, [StoreSpecOp(spec, now, accessed)]);
             && Lookup(env, held.specs, url, maxAge, later).Hit?
             && Lookup(small, Run(small, held, []).specs, url, maxAge, later) == Corrupt)
  {
    hide Prepare, URLs, Prune, InsertAll, Expired, Step, PruneTables, Lookup;
    var ops := [StoreSpecOp(spec, now, accessed)];
    var start, held := Run(env, Empty, []), Run(env, Empty, ops);
    assert ops[..0] == [] && held == Step(env, start, ops[0]);
    NothingPruned(env);
    StoreThenLoad(env, start, spec, now, accessed, url, maxAge, later);
    RunWithinLimits(env, Empty, ops);
    KeptWhole(small, held);
    PreparedContent(env, spec, now);
    TighterLookup(env, small, held.specs, url, maxAge, later);
  }

  lemma NothingPruned(env: Env)
    requires env.options.Bounded()
    ensures Run(env, Empty, []).specs == map[]
  {
    hide Prune;
    PruneSubset(Empty.specs, env.options.maxSpecDocuments);
  }

  /** Pruning keeps what is within the limits. */
  lemma KeptWhole(env: Env, t: Tables)
    requires env.options.Bounded() && |t.specs| <= env.options.maxSpecDocuments
    ensures PruneTables(env, t).specs == t.specs
  {
    hide Prune;
    PruneKeepsAll(t.specs, env.options.maxSpecDocuments);
  }

  lemma PreparedContent(env: Env, spec: Spec, now: int)
    ensures Prepare(env, spec, now).Ready? ==> Prepare(env, spec, now).document.content == spec.content
  {
    hide TrimSpace, ValidSHA256, ToLower, TotalLength;
  }

  lemma TighterLookup(env: Env, small: Env, specs: Table<Document>, url: string, maxAge: int, now: int)
    requires Lookup(env, specs, url, maxAge, now).Hit? && small.options.maxMetadataBytes == env.options.maxMetadataBytes
    requires |Lookup(env, specs, url, maxAge, now).document.content| > small.options.maxArtifactBytes
    ensures Lookup(small, specs, url, maxAge, now) == Corrupt
  {
    hide TrimSpace, ValidSHA256, ToLower, TotalLength, Expired;
  }

  /** A store whose clock reading is later than every access so far is read back by a load
      of either of its URLs, if the table has room for both. */
  lemma StoreThenLoad(env: Env, t: Tables, spec: Spec, now: int, accessed: int, url: string, maxAge: int, later: int)
    requires ValidEnv(env) && Prepare(env, spec, now).Ready?
    requires forall k <- t.specs :: t.specs[k].accessed < accessed
    requires |URLs(Prepare(env, spec, now).document)| <= env.options.maxSpecDocuments
    requires TrimSpace(url) in URLs(Prepare(env, spec, now).document) && !Expired(now / SECOND, maxAge, later)
    ensures (var after := Step(env, t, StoreSpecOp(spec, now, accessed));
             Lookup(env, after.specs, url, maxAge, later) == Hit(Prepare(env, spec, now).document))
  {
    hide ValidSHA256, ToLower, TrimSpace, TotalLength, Expired, Prune, InsertAll, Prepare, URLs;
    var d, key := Prepare(env, spec, now).document, TrimSpace(url);
    var stored := InsertAll(t.specs, URLs(d), d, accessed, now / SECOND);
    PreparedIntact(env, spec, now);
    PreparedTime(env, spec, now);
    InsertedLast(t.specs, d, accessed, now / SECOND, key);
    PruneMember(stored, env.options.maxSpecDocuments, key);
  }

  lemma PreparedTime(env: Env, spec: Spec, now: int)
    requires Prepare(env, spec, now).Ready?
    ensures Prepare(env, spec, now).document.updatedAt == now / SECOND
  {
    hide TrimSpace, ValidSHA256, ToLower, TotalLength;
  }

  /** Only its other URL can be above a row stored last. */
  lemma InsertedLast(specs: Table<Document>, d: Document, accessed: int, now: int, url: string)
    requires forall k <- specs :: specs[k].accessed < accessed
    requires url in URLs(d)
    ensures (var after := InsertAll(specs, URLs(d), d, accessed, now);
             url in after && after[url].value == d && |AboveKeys(after, url)| < |URLs(d)|)
  {
    hide InsertAll, Above;
    InsertedURLs(specs, d, accessed, now);
    var after := InsertAll(specs, URLs(d), d, accessed, now);
    InsertedAccess(specs, d, accessed, now);
    OnlyLastAbove(after, url, d, accessed);
    AboveTotal(after, url, url);
    if |URLs(d)| == 1 {
      assert AboveKeys(after, url) == {};
    } else {
      var other := if url == d.originalURL then d.finalURL else d.originalURL;
      assert AboveKeys(after, url) <= {other};
      Ordering.Cardinality(AboveKeys(after, url), {other});
    }
  }

  lemma OnlyLastAbove(t: Table<Document>, url: string, d: Document, accessed: int)
    requires url in t && t[url].accessed == accessed
    requires forall k <- t :: k in URLs(d) || t[k].accessed < accessed
    ensures forall k <- AboveKeys(t, url) :: k in URLs(d)
  {
    hide URLs;
  }

  lemma InsertedAccess(specs: Table<Document>, d: Document, accessed: int, now: int)
    ensures (var after := InsertAll(specs, URLs(d), d, accessed, now);
             after.Keys == specs.Keys + (set url <- URLs(d))
             && forall k <- after :: after[k].accessed == if k in URLs(d) then accessed else specs[k].accessed)
  {
    assert [d.originalURL, d.finalURL][1..] == [d.finalURL];
    var once := Insert(specs, d.originalURL, d, accessed, now);
    assert InsertAll(once, [d.finalURL], d, accessed, now) == Insert(once, d.finalURL, d, accessed, now);
  }

  // ---------------------------------------------------------------- limits

  ghost predicate WithinLimits(env: Env, t: Tables) {
    && |t.specs| <= env.options.maxSpecDocuments
    && |t.queries| <= env.options.maxSearchQueries
    && |t.results| <= env.options.maxSearchResults
    && |t.artifacts| <= env.options.maxCatalogArtifacts
  }

  lemma PruneWithinLimits(env: Env, t: Tables)
    requires env.options.Bounded()
    ensures WithinLimits(env, PruneTables(env, t))
  {
    hide Prune;
    PruneSize(t.specs, env.options.maxSpecDocuments);
    PruneSize(t.queries, env.options.maxSearchQueries);
    PruneSize(t.results, env.options.maxSearchResults);
    PruneSize(t.artifacts, env.options.maxCatalogArtifacts);
  }

  lemma TouchKeepsSize<V>(t: Table<V>, k: string, accessed: int)
    ensures |Touch(t, k, accessed)| == |t|
  {
    assert Touch(t, k, accessed).Keys == t.Keys;
    assert |Touch(t, k, accessed).Keys| == |Touch(t, k, accessed)|;
    assert |t.Keys| == |t|;
  }

  lemma {:induction false} TouchAllKeepsSize<V>(t: Table<V>, keys: seq<string>, accessed: int)
    ensures |TouchAll(t, keys, accessed)| == |t|
    decreases |keys|
  {
    if keys != [] {
      TouchKeepsSize(t, keys[0], accessed);
      TouchAllKeepsSize(Touch(t, keys[0], accessed), keys[1..], accessed);
    }
  }

  lemma TouchEveryKeepsSize<V>(t: Table<V>, accessed: int)
    ensures |TouchEvery(t, accessed)| == |t|
  {
    assert TouchEvery(t, accessed).Keys == t.Keys;
    assert |TouchEvery(t, accessed).Keys| == |TouchEvery(t, accessed)|;
    assert |t.Keys| == |t|;
  }

  /** Whatever the cache held when it was opened, no table exceeds its limit at any point
      of any run. */
  lemma {:induction false} RunWithinLimits(env: Env, initial: Tables, ops: seq<Op>)
    requires env.options.Bounded()
    ensures WithinLimits(env, Run(env, initial, ops))
    decreases |ops|
  {
    hide PruneTables, Lookup, LookupSearch, Prepare, InsertAll, TouchAll, SearchFits, KeyHash, Touch, PrepareArtifact,
         Insert, TouchEvery, AllListable, ArtifactKey;
    if ops == [] {
      PruneWithinLimits(env, initial);
    } else {
      var t, op := Run(env, initial, ops[..|ops| - 1]), ops[|ops| - 1];
      RunWithinLimits(env, initial, ops[..|ops| - 1]);
      match op {
        case StoreSpecOp(spec, now, accessed) =>
          var p := Prepare(env, spec, now);
          if p.Ready? {
            PruneWithinLimits(env, t.(specs := InsertAll(t.specs, URLs(p.document), p.document, accessed,
                                                         now / SECOND)));
          }
        case LoadSpecOp(url, maxAge, now, accessed) =>
          TouchKeepsSize(t.specs, TrimSpace(url), accessed);
        case StoreSearchOp(key, report, now, accessed) =>
          PruneWithinLimits(env, t.(results := InsertAll(t.results, report.resultIds, (), accessed, now / SECOND),
                                    queries := Insert(t.queries, KeyHash(env, key), Query(report, now / SECOND),
                                                      accessed, now / SECOND)));
        case LoadSearchOp(key, maxAge, now, accessed) =>
          var r := LookupSearch(env, t.queries, key, maxAge, now);
          if r.Found? {
            TouchKeepsSize(t.queries, KeyHash(env, key), accessed);
            TouchAllKeepsSize(t.results, r.report.resultIds, accessed);
          }
        case StoreArtifactOp(artifact, file, now, accessed) =>
          var p := PrepareArtifact(env, artifact, file);
          if p.Some? {
            PruneWithinLimits(env, t.(artifacts := Insert(t.artifacts,
                                                          ArtifactKey(p.value.providerId, p.value.artifactId),
                                                          ArtifactRow(p.value, now / SECOND), accessed, now / SECOND)));
          }
        case ListArtifactsOp(_, accessed) =>
          TouchEveryKeepsSize(t.artifacts, accessed);
        case PruneOp =>
          PruneWithinLimits(env, t);
      }
    }
  }

  // ---------------------------------------------------------------- LRU inclusion

  /** Two caches that differ only in how many rows they keep, the first keeping no more. */
  ghost predicate Smaller(small: Env, large: Env) {
    var s, l := small.options, large.options;
    && s.Bounded() && l.Bounded()
    && small == large.(options := l.(maxSpecDocuments := s.maxSpecDocuments, maxSearchQueries := s.maxSearchQueries,
                                     maxSearchResults := s.maxSearchResults,
                                     maxCatalogArtifacts := s.maxCatalogArtifacts))
    && s.maxSpecDocuments <= l.maxSpecDocuments && s.maxSearchQueries <= l.maxSearchQueries
    && s.maxSearchResults <= l.maxSearchResults && s.maxCatalogArtifacts <= l.maxCatalogArtifacts
  }

  ghost function Slack(small: Env, large: Env): nat
    requires Smaller(small, large)
  {
    large.options.maxSpecDocuments - small.options.maxSpecDocuments
  }

  ghost function QuerySlack(small: Env, large: Env): nat
    requires Smaller(small, large)
  {
    large.options.maxSearchQueries - small.options.maxSearchQueries
  }

  ghost function ResultSlack(small: Env, large: Env): nat
    requires Smaller(small, large)
  {
    large.options.maxSearchResults - small.options.maxSearchResults
  }

  lemma {:induction false} InsertAllIncluded<V>(s: Table<V>, l: Table<V>, slack: nat, keys: seq<string>,
                                                value: V, accessed: int, now: int)
    requires Included(s, l, slack)
    ensures Included(InsertAll(s, keys, value, accessed, now), InsertAll(l, keys, value, accessed, now), slack)
    decreases |keys|
  {
    hide Included, Insert;
    if keys != [] {
      InsertIncluded(s, l, slack, keys[0], value, accessed, now);
      InsertAllIncluded(Insert(s, keys[0], value, accessed, now), Insert(l, keys[0], value, accessed, now),
                        slack, keys[1..], value, accessed, now);
    }
  }

  /** A hit in the smaller table is the same hit in the larger one. */
  lemma HitStaysHit(small: Env, large: Env, s: Table<Document>, l: Table<Document>, slack: nat,
                    url: string, maxAge: int, now: int)
    requires Smaller(small, large) && Included(s, l, slack)
    ensures Lookup(small, s, url, maxAge, now).Hit? ==>
              Lookup(large, l, url, maxAge, now) == Lookup(small, s, url, maxAge, now)
    ensures TrimSpace(url) in s ==> Lookup(large, l, url, maxAge, now) == Lookup(small, s, url, maxAge, now)
  {
    hide TrimSpace, ValidSHA256, ToLower, TotalLength, Expired;
  }

  /** What a step does to the spec rows. */
  lemma SpecsOf(env: Env, t: Tables, op: Op)
    requires env.options.Bounded()
    ensures Step(env, t, op).specs == (
              match op
              case StoreSpecOp(spec, now, accessed) => (
                var p := Prepare(env, spec, now);
                if p.Ready?
                then Prune(InsertAll(t.specs, URLs(p.document), p.document, accessed, now / SECOND),
                           env.options.maxSpecDocuments)
                else t.specs)
              case LoadSpecOp(url, maxAge, now, accessed) =>
                if Lookup(env, t.specs, url, maxAge, now).Hit? then Touch(t.specs, TrimSpace(url), accessed)
                  else t.specs
              case StoreSearchOp(key, report, now, accessed) =>
                if SearchFits(env, key, report) then Prune(t.specs, env.options.maxSpecDocuments) else t.specs
              case LoadSearchOp(_, _, _, _) => t.specs
              case StoreArtifactOp(artifact, file, _, _) =>
                if PrepareArtifact(env, artifact, file).Some? then Prune(t.specs, env.options.maxSpecDocuments)
                  else t.specs
              case ListArtifactsOp(_, _) => t.specs
              case PruneOp => Prune(t.specs, env.options.maxSpecDocuments))
  {
    hide Prepare, Lookup, LookupSearch, InsertAll, TouchAll, SearchFits, KeyHash, Touch, Prune, URLs, TrimSpace,
         PrepareArtifact, Insert, TouchEvery, AllListable;
  }

  lemma StoreIncluded(s: Table<Document>, l: Table<Document>, small: nat, large: nat, d: Document, accessed: int,
                      now: int)
    requires small <= large && Included(s, l, large - small)
    ensures Included(Prune(InsertAll(s, URLs(d), d, accessed, now), small),
                     Prune(InsertAll(l, URLs(d), d, accessed, now), large), large - small)
  {
    hide *;
    InsertAllIncluded(s, l, large - small, URLs(d), d, accessed, now);
    PruneIncluded(InsertAll(s, URLs(d), d, accessed, now), InsertAll(l, URLs(d), d, accessed, now), small, large);
  }

  lemma LoadIncluded(small: Env, large: Env, s: Table<Document>, l: Table<Document>, url: string, maxAge: int,
                     now: int, accessed: int)
    requires Smaller(small, large) && Included(s, l, Slack(small, large))
    ensures Included(if Lookup(small, s, url, maxAge, now).Hit? then Touch(s, TrimSpace(url), accessed) else s,
                     if Lookup(large, l, url, maxAge, now).Hit? then Touch(l, TrimSpace(url), accessed) else l,
                     Slack(small, large))
  {
    hide *;
    var slack, key := Slack(small, large), TrimSpace(url);
    HitStaysHit(small, large, s, l, slack, url, maxAge, now);
    if key in s {
      TouchIncluded(s, l, slack, key, accessed);
    } else {
      MissingIsMiss(small, s, url, maxAge, now);
      TouchLarger(s, l, slack, key, accessed);
    }
  }

  lemma SpecsStep(small: Env, large: Env, s: Tables, l: Tables, op: Op)
    requires Smaller(small, large) && Included(s.specs, l.specs, Slack(small, large))
    ensures Included(Step(small, s, op).specs, Step(large, l, op).specs, Slack(small, large))
  {
    hide Prepare, Lookup, LookupSearch, InsertAll, TouchAll, SearchFits, KeyHash, Touch, Prune, Included, URLs,
         TrimSpace, Step, PrepareArtifact;
    SpecsOf(small, s, op);
    SpecsOf(large, l, op);
    var ns, nl := small.options.maxSpecDocuments, large.options.maxSpecDocuments;
    PruneIncluded(s.specs, l.specs, ns, nl);
    match op {
      case StoreSpecOp(spec, now, accessed) =>
        SamePreparation(small, large, spec, now);
        var p := Prepare(small, spec, now);
        if p.Ready? {
          StoreIncluded(s.specs, l.specs, ns, nl, p.document, accessed, now / SECOND);
        }
      case LoadSpecOp(url, maxAge, now, accessed) =>
        LoadIncluded(small, large, s.specs, l.specs, url, maxAge, now, accessed);
      case StoreSearchOp(key, report, now, accessed) =>
        SameFit(small, large, key, report);
      case StoreArtifactOp(artifact, file, now, accessed) =>
        SameArtifact(small, large, artifact, file);
      case LoadSearchOp(_, _, _, _) =>
      case ListArtifactsOp(_, _) =>
      case PruneOp =>
    }
  }

  lemma MissingIsMiss(env: Env, specs: Table<Document>, url: string, maxAge: int, now: int)
    requires TrimSpace(url) !in specs
    ensures Lookup(env, specs, url, maxAge, now) == Miss
  {
  }

  lemma SamePreparation(small: Env, large: Env, spec: Spec, now: int)
    requires Smaller(small, large)
    ensures Prepare(small, spec, now) == Prepare(large, spec, now)
  {
    hide TrimSpace, ValidSHA256, ToLower, TotalLength;
  }

  lemma SameArtifact(small: Env, large: Env, a: Artifact, file: Option<LocalFile>)
    requires Smaller(small, large)
    ensures PrepareArtifact(small, a, file) == PrepareArtifact(large, a, file)
  {
    hide TrimSpace, ValidSHA256, ToLower, TotalLength;
  }

  lemma SameFit(small: Env, large: Env, key: SearchKey, report: Report)
    requires Smaller(small, large)
    ensures SearchFits(small, key, report) == SearchFits(large, key, report)
  {
    hide TotalLength;
  }

  /** A search found in the smaller table is found alike in the larger one, and so is every
      search when the tables have the same keys. */
  lemma FoundStaysFound(small: Env, large: Env, s: Table<Query>, l: Table<Query>, slack: nat, key: SearchKey,
                        maxAge: int, now: int)
    requires Smaller(small, large) && Included(s, l, slack)
    ensures KeyHash(small, key) in s || slack == 0 ==>
              LookupSearch(large, l, key, maxAge, now) == LookupSearch(small, s, key, maxAge, now)
    ensures KeyHash(small, key) == KeyHash(large, key)
    ensures KeyHash(small, key) !in s ==> LookupSearch(small, s, key, maxAge, now) == Absent
  {
    hide TrimSpace, Expired;
    if slack == 0 {
      assert l.Keys - s.Keys == {};
      assert KeyHash(small, key) in l.Keys ==> KeyHash(small, key) in s.Keys;
    }
  }

  /** What a step does to the rows of searches and results. */
  lemma SearchesOf(env: Env, t: Tables, op: Op)
    requires env.options.Bounded()
    ensures (var u := Step(env, t, op);
             var n, m := env.options.maxSearchQueries, env.options.maxSearchResults;
             match op
             case StoreSearchOp(key, report, now, accessed) =>
               if SearchFits(env, key, report)
               then
                 && u.queries == Prune(Insert(t.queries, KeyHash(env, key), Query(report, now / SECOND), accessed,
                                              now / SECOND), n)
                 && u.results == Prune(InsertAll(t.results, report.resultIds, (), accessed, now / SECOND), m)
               else u.queries == t.queries && u.results == t.results
             case LoadSearchOp(key, maxAge, now, accessed) => (
               match LookupSearch(env, t.queries, key, maxAge, now)
               case Found(report) => u.queries == Touch(t.queries, KeyHash(env, key), accessed)
                                     && u.results == TouchAll(t.results, report.resultIds, accessed)
               case _ => u.queries == t.queries && u.results == t.results)
             case StoreSpecOp(spec, now, _) =>
               if Prepare(env, spec, now).Ready?
               then u.queries == Prune(t.queries, n) && u.results == Prune(t.results, m)
               else u.queries == t.queries && u.results == t.results
             case StoreArtifactOp(artifact, file, _, _) =>
               if PrepareArtifact(env, artifact, file).Some?
               then u.queries == Prune(t.queries, n) && u.results == Prune(t.results, m)
               else u.queries == t.queries && u.results == t.results
             case PruneOp => u.queries == Prune(t.queries, n) && u.results == Prune(t.results, m)
             case _ => u.queries == t.queries && u.results == t.results)
  {
    hide Prepare, Lookup, LookupSearch, InsertAll, TouchAll, SearchFits, KeyHash, Touch, Prune, URLs, TrimSpace,
         PrepareArtifact, Insert, TouchEvery, AllListable;
  }

  lemma QueriesStep(small: Env, large: Env, s: Tables, l: Tables, op: Op)
    requires Smaller(small, large) && Included(s.queries, l.queries, QuerySlack(small, large))
    ensures Included(Step(small, s, op).queries, Step(large, l, op).queries, QuerySlack(small, large))
  {
    hide Prepare, LookupSearch, InsertAll, TouchAll, SearchFits, KeyHash, Touch, Prune, Included, Insert, Step,
         PrepareArtifact;
    SearchesOf(small, s, op);
    SearchesOf(large, l, op);
    var ns, nl, slack := small.options.maxSearchQueries, large.options.maxSearchQueries, QuerySlack(small, large);
    PruneIncluded(s.queries, l.queries, ns, nl);
    match op {
      case StoreSearchOp(key, report, now, accessed) =>
        SameFit(small, large, key, report);
        FoundStaysFound(small, large, s.queries, l.queries, slack, key, 0, now);
        var hash, q := KeyHash(small, key), Query(report, now / SECOND);
        InsertIncluded(s.queries, l.queries, slack, hash, q, accessed, now / SECOND);
        PruneIncluded(Insert(s.queries, hash, q, accessed, now / SECOND),
                      Insert(l.queries, hash, q, accessed, now / SECOND), ns, nl);
      case LoadSearchOp(key, maxAge, now, accessed) =>
        FoundStaysFound(small, large, s.queries, l.queries, slack, key, maxAge, now);
        if KeyHash(small, key) in s.queries {
          TouchIncluded(s.queries, l.queries, slack, KeyHash(small, key), accessed);
        } else {
          TouchLarger(s.queries, l.queries, slack, KeyHash(small, key), accessed);
        }
      case StoreSpecOp(spec, now, _) => SamePreparation(small, large, spec, now);
      case StoreArtifactOp(artifact, file, _, _) => SameArtifact(small, large, artifact, file);
      case _ =>
    }
  }

  lemma {:induction false} TouchAllIncluded<V>(s: Table<V>, l: Table<V>, slack: nat, keys: seq<string>, accessed: int)
    requires Included(s, l, slack)
    ensures Included(TouchAll(s, keys, accessed), TouchAll(l, keys, accessed), slack)
    decreases |keys|
  {
    hide Included, Touch;
    if keys != [] {
      TouchIncluded(s, l, slack, keys[0], accessed);
      TouchAllIncluded(Touch(s, keys[0], accessed), Touch(l, keys[0], accessed), slack, keys[1..], accessed);
    }
  }

  lemma ResultsStep(small: Env, large: Env, s: Tables, l: Tables, op: Op)
    requires Smaller(small, large) && QuerySlack(small, large) == 0 && Included(s.queries, l.queries, 0)
    requires Included(s.results, l.results, ResultSlack(small, large))
    ensures Included(Step(small, s, op).results, Step(large, l, op).results, ResultSlack(small, large))
  {
    hide Prepare, LookupSearch, InsertAll, TouchAll, SearchFits, KeyHash, Touch, Prune, Included, Insert, Step,
         PrepareArtifact;
    SearchesOf(small, s, op);
    SearchesOf(large, l, op);
    var ms, ml, slack := small.options.maxSearchResults, large.options.maxSearchResults, ResultSlack(small, large);
    PruneIncluded(s.results, l.results, ms, ml);
    match op {
      case StoreSearchOp(key, report, now, accessed) =>
        SameFit(small, large, key, report);
        var ids := report.resultIds;
        InsertAllIncluded(s.results, l.results, slack, ids, (), accessed, now / SECOND);
        PruneIncluded(InsertAll(s.results, ids, (), accessed, now / SECOND),
                      InsertAll(l.results, ids, (), accessed, now / SECOND), ms, ml);
      case LoadSearchOp(key, maxAge, now, accessed) =>
        FoundStaysFound(small, large, s.queries, l.queries, 0, key, maxAge, now);
        var r := LookupSearch(small, s.queries, key, maxAge, now);
        if r.Found? {
          TouchAllIncluded(s.results, l.results, slack, r.report.resultIds, accessed);
        }
      case StoreSpecOp(spec, now, _) => SamePreparation(small, large, spec, now);
      case StoreArtifactOp(artifact, file, _, _) => SameArtifact(small, large, artifact, file);
      case _ =>
    }
  }

  /** LRU inclusion: for the same run and the same clock readings -- which need not even be
      monotone -- the spec and search rows held under smaller limits are always among those
      held under larger ones, with equal values and access times.  Result rows are when the
      limits on searches are equal: a search that only one cache finds touches its results
      there alone. */
  lemma {:induction false} LruInclusion(small: Env, large: Env, initial: Tables, ops: seq<Op>)
    requires Smaller(small, large)
    ensures Included(Run(small, initial, ops).specs, Run(large, initial, ops).specs, Slack(small, large))
    ensures Included(Run(small, initial, ops).queries, Run(large, initial, ops).queries, QuerySlack(small, large))
    ensures QuerySlack(small, large) == 0 ==>
              Included(Run(small, initial, ops).results, Run(large, initial, ops).results, ResultSlack(small, large))
    decreases |ops|
  {
    hide Step, Prune, Included;
    if ops == [] {
      var s, l := small.options, large.options;
      IncludedItself(initial.specs, Slack(small, large));
      IncludedItself(initial.queries, QuerySlack(small, large));
      IncludedItself(initial.results, ResultSlack(small, large));
      PruneIncluded(initial.specs, initial.specs, s.maxSpecDocuments, l.maxSpecDocuments);
      PruneIncluded(initial.queries, initial.queries, s.maxSearchQueries, l.maxSearchQueries);
      PruneIncluded(initial.results, initial.results, s.maxSearchResults, l.maxSearchResults);
    } else {
      var before, op := ops[..|ops| - 1], ops[|ops| - 1];
      LruInclusion(small, large, initial, before);
      var s, l := Run(small, initial, before), Run(large, initial, before);
      SpecsStep(small, large, s, l, op);
      QueriesStep(small, large, s, l, op);
      if QuerySlack(small, large) == 0 {
        ResultsStep(small, large, s, l, op);
      }
    }
  }

  lemma IncludedItself<V>(t: Table<V>, slack: nat)
    ensures Included(t, t, slack)
  {
    assert t.Keys - t.Keys == {};
  }

  /** So raising the limits never turns a hit into a miss. */
  lemma LargerCacheHits(small: Env, large: Env, initial: Tables, ops: seq<Op>, url: string, maxAge: int, now: int)
    requires Smaller(small, large)
    requires Lookup(small, Run(small, initial, ops).specs, url, maxAge, now).Hit?
    ensures Lookup(large, Run(large, initial, ops).specs, url, maxAge, now)
         == Lookup(small, Run(small, initial, ops).specs, url, maxAge, now)
  {
    hide Run, Lookup, Included;
    LruInclusion(small, large, initial, ops);
    HitStaysHit(small, large, Run(small, initial, ops).specs, Run(large, initial, ops).specs, Slack(small, large),
                url, maxAge, now);
  }

  lemma LargerCacheFinds(small: Env, large: Env, initial: Tables, ops: seq<Op>, key: SearchKey, maxAge: int, now: int)
    requires Smaller(small, large)
    requires LookupSearch(small, Run(small, initial, ops).queries, key, maxAge, now).Found?
    ensures LookupSearch(large, Run(large, initial, ops).queries, key, maxAge, now)
         == LookupSearch(small, Run(small, initial, ops).queries, key, maxAge, now)
  {
    hide Run, LookupSearch, Included, KeyHash;
    LruInclusion(small, large, initial, ops);
    FoundStaysFound(small, large, Run(small, initial, ops).queries, Run(large, initial, ops).queries,
                    QuerySlack(small, large), key, maxAge, now);
  }

  // ---------------------------------------------------------------- results under other query limits

  /** A cache of so many searches and two results, whose keys are the queries. */
  function TwoResults(queries: int): Env {
    Env(Options(queries, 2, 1, 1, 1, 10, 10), (s: string) => s, (k: SearchKey) => k.query)
  }

  function Asking(query: string): SearchKey {
    SearchKey(query, "auto", 10, 0, "")
  }

  function Answer(query: string, result: string, accessed: int): Op {
    StoreSearchOp(Asking(query), Report("", [result]), 0, accessed)
  }

  const Asked: Table<Query> := map["a" := Row(Query(Report("", ["x"]), 0), 1, 0)]
  const AskedTwo: Table<Query> := Asked["b" := Row(Query(Report("", ["y"]), 0), 2, 0)]
  const GivenOne: Table<()> := map["x" := Row((), 1, 0)]
  const GivenTwo: Table<()> := GivenOne["y" := Row((), 2, 0)]

  /** The last row in the order of eviction goes when there is one row too many. */
  lemma LastGoes<V>(t: Table<V>, limit: nat, x: string)
    requires |t| == limit + 1 && Lowest(t, x)
    ensures Prune(t, limit) == t - {x}
  {
    hide Prune;
    PruneDropsLowest(t, limit, x);
    PruneKeepsAll(t - {x}, limit);
  }

  lemma Asks(queries: int, query: string)
    requires query in {"a", "b", "c"}
    ensures KeyHash(TwoResults(queries), Asking(query)) == query
    ensures forall result: string {:trigger Report("", [result])} ::
              SearchFits(TwoResults(queries), Asking(query), Report("", [result]))
  {
    assert [query, "auto", ""][1..] == ["auto", ""] && ["auto", ""][1..] == [""];
    assert TotalLength([""]) == 0 && TotalLength(["auto", ""]) == 4;
  }

  lemma RunStep(env: Env, ops: seq<Op>, op: Op)
    requires env.options.Bounded()
    ensures Run(env, Empty, ops + [op]) == Step(env, Run(env, Empty, ops), op)
  {
    hide Step;
    assert (ops + [op])[..|ops|] == ops;
  }

  lemma AfterOne(queries: int)
    requires queries in {1, 2}
    ensures (var t := Run(TwoResults(queries), Empty, [Answer("a", "x", 1)]);
             t.queries == Asked && t.results == GivenOne)
  {
    hide Prune, SearchFits, KeyHash, Step;
    var env, a := TwoResults(queries), Answer("a", "x", 1);
    RunStep(env, [], a);
    assert [] + [a] == [a];
    var t := Run(env, Empty, []);
    PruneKeepsAll(Empty.queries, queries);
    PruneKeepsAll(Empty.results, 2);
    Asks(queries, "a");
    SearchesOf(env, t, a);
    InsertsOne(t.results, "x", 1);
    PruneKeepsAll(Asked, queries);
    PruneKeepsAll(GivenOne, 2);
  }

  lemma AfterTwo(queries: int)
    requires queries in {1, 2}
    ensures (var t := Run(TwoResults(queries), Empty, [Answer("a", "x", 1), Answer("b", "y", 2)]);
             && t.results == GivenTwo
             && t.queries == if queries == 1 then AskedTwo - {"a"} else AskedTwo)
  {
    hide Prune, SearchFits, KeyHash, Step, Run;
    var env, a, b := TwoResults(queries), Answer("a", "x", 1), Answer("b", "y", 2);
    AfterOne(queries);
    RunStep(env, [a], b);
    assert [a] + [b] == [a, b];
    var t := Run(env, Empty, [a]);
    Asks(queries, "b");
    SearchesOf(env, t, b);
    InsertsOne(t.results, "y", 2);
    assert Insert(t.queries, "b", Query(Report("", ["y"]), 0), 2, 0) == AskedTwo;
    assert |AskedTwo| == 2;
    PruneKeepsAll(GivenTwo, 2);
    if queries == 1 {
      LastGoes(AskedTwo, 1, "a");
    } else {
      PruneKeepsAll(AskedTwo, 2);
    }
  }

  /** Loading the first search touches its result where the search is still known. */
  lemma AfterLoad(queries: int)
    requires queries in {1, 2}
    ensures (var ops := [Answer("a", "x", 1), Answer("b", "y", 2), LoadSearchOp(Asking("a"), 0, 0, 3)];
             Run(TwoResults(queries), Empty, ops).results
             == if queries == 1 then GivenTwo else GivenTwo["x" := Row((), 3, 0)])
  {
    hide Prune, KeyHash, Step, Run;
    var env, before, c := TwoResults(queries), [Answer("a", "x", 1), Answer("b", "y", 2)],
                          LoadSearchOp(Asking("a"), 0, 0, 3);
    AfterTwo(queries);
    RunStep(env, before, c);
    assert before + [c] == [before[0], before[1], c];
    Asks(queries, "a");
    var t := Run(env, Empty, before);
    SearchesOf(env, t, c);
    assert TouchAll(t.results, ["x"], 3) == Touch(t.results, "x", 3);
  }

  lemma InsertsOne(t: Table<()>, k: string, accessed: int)
    requires k !in t
    ensures InsertAll(t, [k], (), accessed, 0) == t[k := Row((), accessed, 0)]
  {
  }

  /** Of three results the one used first goes: "x", or "y" when "x" was used again. */
  lemma KeepsTwo(x: int)
    requires x in {1, 3}
    ensures (var t: Table<()> := map["x" := Row((), x, 0), "y" := Row((), 2, 0), "z" := Row((), 4, 0)];
             "y" in Prune(t, 2) <==> x == 1)
  {
    hide Prune;
    var t: Table<()> := map["x" := Row((), x, 0), "y" := Row((), 2, 0), "z" := Row((), 4, 0)];
    assert |t| == 3;
    LastGoes(t, 2, if x == 1 then "x" else "y");
  }

  lemma AfterFour(queries: int)
    requires queries in {1, 2}
    ensures (var ops := [Answer("a", "x", 1), Answer("b", "y", 2), LoadSearchOp(Asking("a"), 0, 0, 3),
                         Answer("c", "z", 4)];
             "y" in Run(TwoResults(queries), Empty, ops).results <==> queries == 1)
  {
    hide Prune, SearchFits, KeyHash, Step, Run, InsertAll, Insert, Lookup, LookupSearch;
    var env, before := TwoResults(queries), [Answer("a", "x", 1), Answer("b", "y", 2),
                                             LoadSearchOp(Asking("a"), 0, 0, 3)];
    var d := Answer("c", "z", 4);
    AfterLoad(queries);
    RunStep(env, before, d);
    assert before + [d] == [before[0], before[1], before[2], d];
    Asks(queries, "c");
    var t := Run(env, Empty, before);
    SearchesOf(env, t, d);
    InsertsOne(t.results, "z", 4);
    var x := t.results["x"].accessed;
    KeepsTwo(x);
    assert t.results["z" := Row((), 4, 0)]
        == map["x" := Row((), x, 0), "y" := Row((), 2, 0), "z" := Row((), 4, 0)];
  }

  /** The cache that keeps one search has missed the first one when it is loaded, and so keeps a
      result that the cache of two searches drops. */
  lemma ResultsNeedEqualSearches()
    ensures (var ops := [Answer("a", "x", 1), Answer("b", "y", 2), LoadSearchOp(Asking("a"), 0, 0, 3),
                         Answer("c", "z", 4)];
             && Smaller(TwoResults(1), TwoResults(2))
             && "y" in Run(TwoResults(1), Empty, ops).results && "y" !in Run(TwoResults(2), Empty, ops).results)
  {
    hide Run;
    AfterFour(1);
    AfterFour(2);
  }
}
