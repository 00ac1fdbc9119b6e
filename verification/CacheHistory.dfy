/** What the cache gives back, stated about the calls that were made and not about the keys and
    checks of its tables. */
module CacheHistory {
  import Ordering
  import opened CacheProofs
  import opened CacheSpec
  import opened LruTable
  import opened Text
  import opened Wrappers

  /** The age of what was stored at a clock reading, counted from the whole second, is within the
      limit; no limit means a day. */
  predicate Fresh(stored: int, maxAge: int, now: int) {
    now - (stored - stored % 1_000_000_000) <= if maxAge <= 0 then 86_400_000_000_000 else maxAge
  }

  lemma FreshExactly(stored: int, maxAge: int, now: int)
    ensures Expired(stored / SECOND, maxAge, now) <==> !Fresh(stored, maxAge, now)
  {
    assert stored == stored / SECOND * SECOND + stored % SECOND;
  }

  // ---------------------------------------------------------------- searches

  /** Two searches that may share an answer. */
  predicate SameSearch(a: SearchKey, b: SearchKey) {
    && TrimSpace(a.query) == TrimSpace(b.query)
    && (a.source == b.source || (a.source in {"", "auto"} && b.source in {"", "auto"}))
    && (a.limit == b.limit || (Unlimited(a.limit) && Unlimited(b.limit)))
    && a.publicProbe == b.publicProbe && a.providerURL == b.providerURL
  }

  /** No limit means ten. */
  predicate Unlimited(limit: int) {
    limit <= 0 || limit == 10
  }

  /** No two keys have one hash. */
  ghost predicate TellsKeys(env: Env) {
    forall a, b :: env.hash(a) == env.hash(b) ==> a == b
  }

  lemma KeysTellSearches(env: Env, a: SearchKey, b: SearchKey)
    requires TellsKeys(env)
    ensures KeyHash(env, a) == KeyHash(env, b) <==> SameSearch(a, b)
  {
    hide TrimSpace;
  }

  /** A call that stores an answer to the search, within the limits of its cache. */
  ghost predicate StoresSearch(c: Call, key: SearchKey) {
    && c.op.StoreSearchOp? && SameSearch(c.op.key, key)
    && |c.op.report.json| <= c.env.options.maxSearchReportBytes
    && |c.op.key.query| + |c.op.key.source| + |c.op.key.providerURL| <= c.env.options.maxMetadataBytes
  }

  ghost predicate LastSearch(calls: seq<Call>, i: nat, key: SearchKey) {
    && i < |calls| && calls[i].op.StoreSearchOp? && StoresSearch(calls[i], key)
    && forall j :: i < j < |calls| ==> !StoresSearch(calls[j], key)
  }

  lemma FitsExactly(env: Env, key: SearchKey, report: Report)
    ensures SearchFits(env, key, report) <==>
              |report.json| <= env.options.maxSearchReportBytes
              && |key.query| + |key.source| + |key.providerURL| <= env.options.maxMetadataBytes
  {
    var texts := [key.query, key.source, key.providerURL];
    assert texts[1..] == [key.source, key.providerURL] && texts[1..][1..] == [key.providerURL];
    assert TotalLength([key.providerURL]) == |key.providerURL|;
    assert TotalLength(texts[1..]) == |key.source| + |key.providerURL|;
  }

  lemma {:induction false} LatestSearch(env: Env, calls: seq<Call>, key: SearchKey)
    requires Kin(env, calls) && TellsKeys(env)
    ensures (var latest := LatestReport(calls, KeyHash(env, key));
             latest != [] ==> exists i: nat :: LastSearch(calls, i, key)
                                && latest == [Query(calls[i].op.report, calls[i].op.now / SECOND)])
    decreases |calls|
  {
    hide SearchFits, KeyHash, StoresSearch;
    if calls != [] {
      var last, before := |calls| - 1, calls[..|calls| - 1];
      var c := calls[last];
      LatestSearch(env, before, key);
      SearchStored(env, c, key);
      if StoresSearch(c, key) {
        assert LastSearch(calls, last, key);
      } else if LatestReport(before, KeyHash(env, key)) != [] {
        var i: nat :| LastSearch(before, i, key)
          && LatestReport(before, KeyHash(env, key)) == [Query(before[i].op.report, before[i].op.now / SECOND)];
        assert LastSearch(calls, i, key);
      }
    }
  }

  lemma SearchStored(env: Env, c: Call, key: SearchKey)
    requires c.env.hash == env.hash && TellsKeys(env)
    ensures StoresSearch(c, key) <==>
              c.op.StoreSearchOp? && SearchFits(c.env, c.op.key, c.op.report)
              && KeyHash(c.env, c.op.key) == KeyHash(env, key)
  {
    hide TrimSpace, SearchFits, SameSearch;
    if c.op.StoreSearchOp? {
      FitsExactly(c.env, c.op.key, c.op.report);
      KeysTellSearches(env, c.op.key, key);
    }
  }

  /** Over any life of the database, a search that is found is answered by the last call that
      stored an answer to it, or to one that may share it, and that answer is fresh. */
  lemma FoundIsStored(env: Env, earlier: seq<Call>, ops: seq<Op>, key: SearchKey, maxAge: int, now: int)
    requires env.options.Bounded() && Kin(env, earlier) && TellsKeys(env)
    ensures (var calls := earlier + Session(env, ops);
             var r := LookupSearch(env, Run(env, Lived(env, earlier), ops).queries, key, maxAge, now);
             r.Found? ==> exists i: nat :: LastSearch(calls, i, key) && calls[i].op.report == r.report
                            && Fresh(calls[i].op.now, maxAge, now))
  {
    hide Run, Lived, LatestReport, KeyHash, Expired, Fresh, Session, StoresSearch;
    var calls, hash := earlier + Session(env, ops), KeyHash(env, key);
    var r := LookupSearch(env, Run(env, Lived(env, earlier), ops).queries, key, maxAge, now);
    SearchIsLatest(env, earlier, ops, key, maxAge, now);
    SessionLived(env, earlier, ops);
    LatestSearch(env, calls, key);
    if r.Found? {
      var i: nat :| LastSearch(calls, i, key)
        && LatestReport(calls, hash) == [Query(calls[i].op.report, calls[i].op.now / SECOND)];
      FreshExactly(calls[i].op.now, maxAge, now);
    }
  }

  /** A stored answer is found by every search that may share it, if its clock reading is later
      than every access so far. */
  lemma StoreThenFind(env: Env, t: Tables, key: SearchKey, report: Report, now: int, accessed: int, other: SearchKey,
                      maxAge: int, later: int)
    requires env.options.Bounded() && TellsKeys(env)
    requires StoresSearch(Call(env, StoreSearchOp(key, report, now, accessed)), other)
    requires (forall k <- t.queries :: t.queries[k].accessed < accessed) && Fresh(now, maxAge, later)
    ensures LookupSearch(env, Step(env, t, StoreSearchOp(key, report, now, accessed)).queries, other, maxAge, later)
         == Found(report)
  {
    hide KeyHash, Expired, Fresh, Prune, SearchFits, InsertAll, Above;
    var op := StoreSearchOp(key, report, now, accessed);
    SearchStored(env, Call(env, op), other);
    FitsExactly(env, key, report);
    SearchesOf(env, t, op);
    FreshExactly(now, maxAge, later);
    var hash := KeyHash(env, key);
    var stored := Insert(t.queries, hash, Query(report, now / SECOND), accessed, now / SECOND);
    NewestFirst(stored, hash);
    PruneMember(stored, env.options.maxSearchQueries, hash);
  }

  lemma NewestFirst<V>(t: Table<V>, k: string)
    requires k in t && forall j <- t :: j != k ==> t[j].accessed < t[k].accessed
    ensures AboveKeys(t, k) == {}
  {
    AboveTotal(t, k, k);
  }

  // ---------------------------------------------------------------- spec documents

  /** What a spec must be to be stored. */
  predicate Accepts(env: Env, s: Spec) {
    var original, final := TrimSpace(s.originalURL), TrimSpace(s.finalURL);
    && (original != "" || final != "")
    && 0 < |s.content| <= env.options.maxArtifactBytes
    && (TrimSpace(s.sha256) == "" || (ValidSHA256(s.sha256) && ToLower(s.sha256) == env.digest(s.content)))
    && s.bytes in {0, |s.content|}
    && |s.metadata| <= env.options.maxMetadataBytes
    && |if original != "" then original else final| + |if final != "" then final else original|
       + |env.digest(s.content)| <= env.options.maxMetadataBytes
  }

  /** It is stored under each of its URLs that is not blank. */
  predicate NamedBy(s: Spec, url: string) {
    url != "" && (url == TrimSpace(s.originalURL) || url == TrimSpace(s.finalURL))
  }

  /** The document is the spec, with its digest and size. */
  predicate Keeps(env: Env, d: Document, s: Spec, now: int) {
    && d.content == s.content && d.metadata == s.metadata && d.bytes == |s.content|
    && d.sha256 == env.digest(s.content) && d.updatedAt == now / SECOND
    && d.originalURL == (if TrimSpace(s.originalURL) != "" then TrimSpace(s.originalURL) else TrimSpace(s.finalURL))
    && d.finalURL == (if TrimSpace(s.finalURL) != "" then TrimSpace(s.finalURL) else TrimSpace(s.originalURL))
  }

  lemma FourTexts(a: string, b: string, c: string, d: string)
    ensures TotalLength([a, b, c, d]) == |a| + |b| + |c| + |d|
  {
    assert [a, b, c, d][1..] == [b, c, d] && [b, c, d][1..] == [c, d] && [c, d][1..] == [d];
    assert TotalLength([d]) == |d| && TotalLength([c, d]) == |c| + |d|;
  }

  /** A spec is stored exactly when it is accepted, as it is and under its URLs. */
  lemma StoredExactly(env: Env, s: Spec, now: int)
    ensures Prepare(env, s, now).Ready? <==> Accepts(env, s)
    ensures (var p := Prepare(env, s, now);
             p.Ready? ==> Keeps(env, p.document, s, now)
                          && forall url :: url in URLs(p.document) <==> NamedBy(s, url))
  {
    hide TrimSpace, ValidSHA256, ToLower, TotalLength;
    var original, final := TrimSpace(s.originalURL), TrimSpace(s.finalURL);
    FourTexts(if original != "" then original else final, if final != "" then final else original,
              env.digest(s.content), "");
  }

  ghost predicate StoresSpec(c: Call, url: string) {
    c.op.StoreSpecOp? && Accepts(c.env, c.op.spec) && NamedBy(c.op.spec, url)
  }

  ghost predicate LastSpec(calls: seq<Call>, i: nat, url: string) {
    && i < |calls| && calls[i].op.StoreSpecOp? && StoresSpec(calls[i], url)
    && forall j :: i < j < |calls| ==> !StoresSpec(calls[j], url)
  }

  lemma {:induction false} LatestSpec(env: Env, calls: seq<Call>, url: string)
    requires Kin(env, calls)
    ensures (var latest := Latest(calls, url);
             latest != [] ==> exists i: nat :: LastSpec(calls, i, url) && |latest| == 1
                                && Keeps(env, latest[0], calls[i].op.spec, calls[i].op.now))
    decreases |calls|
  {
    hide Prepare, URLs, Accepts, NamedBy, Keeps;
    if calls != [] {
      var last, before := |calls| - 1, calls[..|calls| - 1];
      var c := calls[last];
      LatestSpec(env, before, url);
      if c.op.StoreSpecOp? {
        StoredExactly(c.env, c.op.spec, c.op.now);
      }
      if StoresSpec(c, url) {
        assert c in calls && c.env.digest == env.digest;
        SameKeeps(c.env, env, Prepare(c.env, c.op.spec, c.op.now).document, c.op.spec, c.op.now);
        assert LastSpec(calls, last, url);
      } else if Latest(before, url) != [] {
        var i: nat :| LastSpec(before, i, url) && |Latest(before, url)| == 1
          && Keeps(env, Latest(before, url)[0], before[i].op.spec, before[i].op.now);
        StillLast(calls, i, url);
      }
    }
  }

  lemma StillLast(calls: seq<Call>, i: nat, url: string)
    requires calls != [] && LastSpec(calls[..|calls| - 1], i, url) && !StoresSpec(calls[|calls| - 1], url)
    ensures LastSpec(calls, i, url)
  {
    hide StoresSpec;
  }

  lemma SameKeeps(a: Env, b: Env, d: Document, s: Spec, now: int)
    requires a.digest == b.digest
    ensures Keeps(a, d, s, now) <==> Keeps(b, d, s, now)
  {
    hide TrimSpace;
  }

  /** Over any life of the database, a URL that is hit gives the spec that the last call stored
      under it, unchanged and fresh. */
  lemma HitIsStored(env: Env, earlier: seq<Call>, ops: seq<Op>, url: string, maxAge: int, now: int)
    requires ValidEnv(env) && Kin(env, earlier)
    ensures (var calls := earlier + Session(env, ops);
             var r := Lookup(env, Run(env, Lived(env, earlier), ops).specs, url, maxAge, now);
             r.Hit? ==> exists i: nat :: LastSpec(calls, i, TrimSpace(url))
                          && Keeps(env, r.document, calls[i].op.spec, calls[i].op.now)
                          && Fresh(calls[i].op.now, maxAge, now))
  {
    hide Run, Lived, Latest, Lookup, Expired, Fresh, Session, StoresSpec, TrimSpace, Admits;
    var calls, key := earlier + Session(env, ops), TrimSpace(url);
    var specs := Run(env, Lived(env, earlier), ops).specs;
    HitIsLatest(env, earlier, ops, url, maxAge, now);
    SessionLived(env, earlier, ops);
    LatestSpec(env, calls, key);
    if Lookup(env, specs, url, maxAge, now).Hit? {
      var i: nat :| LastSpec(calls, i, key) && |Latest(calls, key)| == 1
        && Keeps(env, Latest(calls, key)[0], calls[i].op.spec, calls[i].op.now);
      FreshExactly(calls[i].op.now, maxAge, now);
    }
  }

  // ---------------------------------------------------------------- catalog artifacts

  predicate AcceptsArtifact(env: Env, a: Artifact, f: LocalFile) {
    && TrimSpace(a.providerId) != "" && TrimSpace(a.artifactId) != "" && TrimSpace(a.kind) != "" && f.bytes > 0
    && (TrimSpace(a.sha256) == "" || (ValidSHA256(a.sha256) && ToLower(a.sha256) == f.sha256))
    && a.bytes in {0, f.bytes}
    && |a.metadata| <= env.options.maxMetadataBytes
    && |TrimSpace(a.providerId)| + |TrimSpace(a.artifactId)| + |TrimSpace(a.kind)| + |f.path| + |a.sourceURL|
       + |f.overlayPath| + |f.builderPath| + |f.sha256| <= env.options.maxMetadataBytes
  }

  /** The row describes the file, under the trimmed IDs. */
  predicate Describes(r: ArtifactRow, a: Artifact, f: LocalFile, now: int) {
    && r.artifact.providerId == TrimSpace(a.providerId) && r.artifact.artifactId == TrimSpace(a.artifactId)
    && r.artifact.kind == TrimSpace(a.kind) && r.artifact.sourceURL == TrimSpace(a.sourceURL)
    && r.artifact.path == f.path && r.artifact.overlayPath == f.overlayPath && r.artifact.builderPath == f.builderPath
    && r.artifact.sha256 == f.sha256 && r.artifact.bytes == f.bytes && r.artifact.metadata == a.metadata
    && r.updatedAt == now / SECOND
  }

  lemma EightTexts(a: string, b: string, c: string, d: string, e: string, f: string, g: string, h: string)
    ensures TotalLength([a, b, c, d, e, f, g, h]) == |a| + |b| + |c| + |d| + |e| + |f| + |g| + |h|
  {
    FourTexts(e, f, g, h);
    assert [a, b, c, d, e, f, g, h][1..] == [b, c, d, e, f, g, h];
    assert [b, c, d, e, f, g, h][1..] == [c, d, e, f, g, h];
    assert [c, d, e, f, g, h][1..] == [d, e, f, g, h];
    assert [d, e, f, g, h][1..] == [e, f, g, h];
    assert TotalLength([d, e, f, g, h]) == |d| + TotalLength([e, f, g, h]);
    assert TotalLength([c, d, e, f, g, h]) == |c| + TotalLength([d, e, f, g, h]);
    assert TotalLength([b, c, d, e, f, g, h]) == |b| + TotalLength([c, d, e, f, g, h]);
  }

  lemma ArtifactExactly(env: Env, a: Artifact, file: Option<LocalFile>, now: int)
    ensures PrepareArtifact(env, a, file).Some? <==> file.Some? && AcceptsArtifact(env, a, file.value)
    ensures (var p := PrepareArtifact(env, a, file);
             p.Some? ==> Describes(ArtifactRow(p.value, now / SECOND), a, file.value, now))
  {
    hide TrimSpace, ValidSHA256, ToLower, TotalLength;
    if file.Some? {
      var f := file.value;
      EightTexts(TrimSpace(a.providerId), TrimSpace(a.artifactId), TrimSpace(a.kind), f.path, a.sourceURL,
                 f.overlayPath, f.builderPath, f.sha256);
    }
  }

  ghost predicate StoresArtifact(c: Call, providerId: string, artifactId: string) {
    && c.op.StoreArtifactOp? && c.op.file.Some? && AcceptsArtifact(c.env, c.op.artifact, c.op.file.value)
    && TrimSpace(c.op.artifact.providerId) == providerId && TrimSpace(c.op.artifact.artifactId) == artifactId
  }

  ghost predicate LastArtifact(calls: seq<Call>, i: nat, providerId: string, artifactId: string) {
    && i < |calls| && calls[i].op.StoreArtifactOp? && calls[i].op.file.Some?
    && StoresArtifact(calls[i], providerId, artifactId)
    && forall j :: i < j < |calls| ==> !StoresArtifact(calls[j], providerId, artifactId)
  }

  lemma ArtifactStored(c: Call, providerId: string, artifactId: string)
    requires c.op.StoreArtifactOp? && '\0' !in c.op.artifact.providerId && '\0' !in providerId
    ensures (var p := PrepareArtifact(c.env, c.op.artifact, c.op.file);
             StoresArtifact(c, providerId, artifactId)
             <==> p.Some? && ArtifactKey(p.value.providerId, p.value.artifactId) == ArtifactKey(providerId, artifactId))
  {
    hide PrepareArtifact, ArtifactKey, AcceptsArtifact, TrimSpace;
    ArtifactExactly(c.env, c.op.artifact, c.op.file, c.op.now);
    TrimmedOf(c.op.artifact.providerId);
    KeyOrder(TrimSpace(c.op.artifact.providerId), TrimSpace(c.op.artifact.artifactId), providerId, artifactId);
  }

  lemma {:induction false} LatestStored(calls: seq<Call>, providerId: string, artifactId: string)
    requires '\0' !in providerId
    requires forall c <- calls :: c.op.StoreArtifactOp? ==> '\0' !in c.op.artifact.providerId
    ensures (var latest := LatestArtifact(calls, ArtifactKey(providerId, artifactId));
             latest.Some? ==> exists i: nat :: LastArtifact(calls, i, providerId, artifactId)
                                && Describes(latest.value, calls[i].op.artifact, calls[i].op.file.value,
                                             calls[i].op.now))
    decreases |calls|
  {
    hide PrepareArtifact, ArtifactKey, StoresArtifact, Describes;
    if calls != [] {
      var last, before := |calls| - 1, calls[..|calls| - 1];
      var c, key := calls[last], ArtifactKey(providerId, artifactId);
      LatestStored(before, providerId, artifactId);
      assert c in calls;
      if c.op.StoreArtifactOp? {
        ArtifactStored(c, providerId, artifactId);
        ArtifactExactly(c.env, c.op.artifact, c.op.file, c.op.now);
      } else {
        NoArtifact(c, providerId, artifactId);
      }
      if StoresArtifact(c, providerId, artifactId) {
        assert LastArtifact(calls, last, providerId, artifactId);
      } else if LatestArtifact(before, key).Some? {
        var i: nat :| LastArtifact(before, i, providerId, artifactId)
          && Describes(LatestArtifact(before, key).value, before[i].op.artifact, before[i].op.file.value,
                       before[i].op.now);
        assert LastArtifact(calls, i, providerId, artifactId);
      }
    }
  }

  lemma NoArtifact(c: Call, providerId: string, artifactId: string)
    ensures !c.op.StoreArtifactOp? ==> !StoresArtifact(c, providerId, artifactId)
    ensures StoresArtifact(c, providerId, artifactId) ==> c.op.StoreArtifactOp? && c.op.file.Some?
  {
  }

  /** Over any life of the database, every artifact that is listed is what the last call stored
      under its IDs, with the digest and size of the file. */
  lemma ListedIsStored(env: Env, calls: seq<Call>, row: ArtifactRow)
    requires Kin(env, calls) && row in Listing(Lived(env, calls).artifacts)
    requires forall c <- calls :: c.op.StoreArtifactOp? ==> '\0' !in c.op.artifact.providerId
    ensures exists i: nat :: LastArtifact(calls, i, row.artifact.providerId, row.artifact.artifactId)
              && Describes(row, calls[i].op.artifact, calls[i].op.file.value, calls[i].op.now)
  {
    hide Lived, LatestArtifact, ArtifactKey, Ordering.SortedSet, StoresArtifact, Describes;
    var artifacts := Lived(env, calls).artifacts;
    ArtifactsAreLatest(env, calls);
    var keys := Ordering.SortedSet(artifacts.Keys);
    var i :| 0 <= i < |Listing(artifacts)| && Listing(artifacts)[i] == row;
    assert keys[i] in artifacts;
    LatestKey(calls, keys[i]);
    LatestStored(calls, row.artifact.providerId, row.artifact.artifactId);
  }
}
