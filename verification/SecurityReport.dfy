/** The loops of catalog/report.go and catalog/inspection.go that build the security report
    and the status of the inspection view, over maps keyed by scope. */
module SecurityReport {
  import opened Catalog
  import opened Ordering
  import opened SecuritySpec
  import opened SecurityProofs
  import opened Text
  import opened Wrappers

  /** securityScopeKey */
  function ScopeKey(providerId: string, specRefId: string): string {
    TrimSpace(providerId) + ['\0'] + TrimSpace(specRefId)
  }

  function OverlayKey(o: Overlay): string {
    o.id
  }

  function OverlayProvider(o: Overlay): string {
    o.providerId
  }

  /** sortSecurityOverlays: by provider, then by ID, as two stable passes. */
  function SortOverlays(overlays: seq<Overlay>): seq<Overlay> {
    SortBy(OverlayProvider, SortBy(OverlayKey, overlays))
  }

  lemma SortOverlaysPermutes(overlays: seq<Overlay>)
    ensures multiset(SortOverlays(overlays)) == multiset(overlays)
  {
    SortBySorts(OverlayKey, overlays);
    SortBySorts(OverlayProvider, SortBy(OverlayKey, overlays));
  }

  type ClassMap = map<string, Classification>
  type OverlayMap = map<string, seq<Overlay>>

  /** Every classification is found under its key. */
  ghost predicate HoldsClasses(m: ClassMap, classes: set<Classification>) {
    && (forall key <- m :: m[key] in classes && ScopeKey(m[key].providerId, m[key].specRefId) == key)
    && (forall c <- classes :: ScopeKey(c.providerId, c.specRefId) in m)
  }

  /** Every overlay is in the list under its key, and nothing else is. */
  ghost predicate HoldsOverlays(m: OverlayMap, overlays: set<Overlay>) {
    && (forall key <- m :: m[key] != []
          && forall o <- m[key] :: o in overlays && ScopeKey(o.providerId, o.specRefId) == key)
    && (forall o <- overlays :: ScopeKey(o.providerId, o.specRefId) in m
          && o in m[ScopeKey(o.providerId, o.specRefId)])
  }

  method CollectClasses(classifications: seq<Classification>) returns (m: ClassMap)
    ensures HoldsClasses(m, Elements(classifications))
  {
    hide ScopeKey;
    m := map[];
    for i := 0 to |classifications|
      invariant HoldsClasses(m, Elements(classifications[..i]))
    {
      var c := classifications[i];
      assert Elements(classifications[..i + 1]) == Elements(classifications[..i]) + {c};
      m := m[ScopeKey(c.providerId, c.specRefId) := c];
    }
    assert classifications[..|classifications|] == classifications;
  }

  method CollectOverlays(overlays: seq<Overlay>) returns (m: OverlayMap)
    ensures HoldsOverlays(m, Elements(overlays))
  {
    hide ScopeKey;
    m := map[];
    for i := 0 to |overlays|
      invariant HoldsOverlays(m, Elements(overlays[..i]))
    {
      var o := overlays[i];
      var key := ScopeKey(o.providerId, o.specRefId);
      assert Elements(overlays[..i + 1]) == Elements(overlays[..i]) + {o};
      var before := if key in m then m[key] else [];
      forall x ensures x in before + [o] <==> x in before || x == o {
      }
      m := m[key := before + [o]];
    }
    assert overlays[..|overlays|] == overlays;
  }

  /** sortedUniqueStrings */
  method SortedUnique(values: seq<string>) returns (out: seq<string>)
    ensures out == UniqueTexts(Elements(values))
  {
    hide TrimSpace, SortedSet;
    var seen: set<string> := {};
    for i := 0 to |values|
      invariant seen == set v | v in values[..i] && TrimSpace(v) != "" :: TrimSpace(v)
    {
      assert values[..i + 1] == values[..i] + [values[i]];
      if TrimSpace(values[i]) != "" {
        seen := seen + {TrimSpace(values[i])};
      }
    }
    assert values[..|values|] == values;
    out := SortStrings(seen);
    assert seen == set v | v in Elements(values) && TrimSpace(v) != "" :: TrimSpace(v);
  }

  // ---------------------------------------------------------------- scopes of a provider

  /** The spec references in the keys of one provider. */
  ghost function KeyScopes(providerId: string, keys: set<string>): set<string> {
    set key | key in keys && providerId + ['\0'] <= key :: key[|providerId| + 1..]
  }

  method ScanKeys(providerId: string, keys: set<string>, found: set<string>) returns (seen: set<string>)
    ensures seen == found + KeyScopes(providerId, keys)
  {
    var prefix := providerId + ['\0'];
    var rest := keys;
    seen := found;
    while rest != {}
      invariant rest <= keys && seen == found + KeyScopes(providerId, keys - rest)
      decreases |rest|
    {
      var key: string :| key in rest;
      assert keys - (rest - {key}) == (keys - rest) + {key};
      rest := rest - {key};
      if prefix <= key {
        seen := seen + {key[|prefix|..]};
      }
    }
    assert keys - {} == keys;
  }

  /** securityScopesForProvider */
  method ScopesForProvider(providerId: string, classes: ClassMap, overlays: OverlayMap) returns (out: seq<string>)
    ensures out == SortedSet(KeyScopes(providerId, classes.Keys + overlays.Keys))
  {
    hide SortedSet;
    var seen := ScanKeys(providerId, classes.Keys, {});
    seen := ScanKeys(providerId, overlays.Keys, seen);
    assert seen == KeyScopes(providerId, classes.Keys + overlays.Keys);
    out := SortStrings(seen);
  }

  lemma KeyOf(p: string, q: string, s: string)
    requires ValidName(p) && ValidName(q)
    ensures p + ['\0'] <= ScopeKey(q, s) <==> p == q
    ensures ScopeKey(p, s) == p + ['\0'] + TrimSpace(s)
  {
    hide TrimSpace, ValidID;
    ValidNameTrimmed(p);
    ValidNameTrimmed(q);
    var key := q + ['\0'] + TrimSpace(s);
    if p + ['\0'] <= key {
      assert forall k :: 0 <= k < |p| ==> key[k] == p[k];
      assert forall k :: 0 <= k < |q| ==> key[k] == q[k];
      assert key[|p|] == '\0' && key[|q|] == '\0';
      assert p == key[..|p|] && q == key[..|q|];
    }
    assert p + ['\0'] <= p + ['\0'] + TrimSpace(s);
  }

  lemma AfterPrefix(p: string, s: string)
    ensures (p + ['\0'] + s)[|p| + 1..] == s
  {
  }

  /** All records name valid providers. */
  ghost predicate Named(classes: set<Classification>, overlays: set<Overlay>) {
    (forall c <- classes :: ValidName(c.providerId)) && (forall o <- overlays :: ValidName(o.providerId))
  }

  /** The keys of the maps give exactly the scopes of the provider. */
  lemma ScopesOfKeys(p: string, cm: ClassMap, om: OverlayMap, classes: set<Classification>, overlays: set<Overlay>)
    requires ValidName(p) && Named(classes, overlays) && HoldsClasses(cm, classes) && HoldsOverlays(om, overlays)
    ensures KeyScopes(p, cm.Keys + om.Keys) == Scopes(p, classes, overlays)
  {
    hide ScopeKey, TrimSpace, ValidName;
    forall c <- classes
      ensures p + ['\0'] <= ScopeKey(c.providerId, c.specRefId) <==> p == c.providerId
      ensures p == c.providerId ==> ScopeKey(c.providerId, c.specRefId) == p + ['\0'] + TrimSpace(c.specRefId)
    {
      KeyOf(p, c.providerId, c.specRefId);
    }
    forall o <- overlays
      ensures p + ['\0'] <= ScopeKey(o.providerId, o.specRefId) <==> p == o.providerId
      ensures p == o.providerId ==> ScopeKey(o.providerId, o.specRefId) == p + ['\0'] + TrimSpace(o.specRefId)
    {
      KeyOf(p, o.providerId, o.specRefId);
    }
    forall s <- KeyScopes(p, cm.Keys + om.Keys) ensures s in Scopes(p, classes, overlays) {
      var key :| key in cm.Keys + om.Keys && p + ['\0'] <= key && s == key[|p| + 1..];
      if key in cm {
        assert cm[key] in classes;
        AfterPrefix(p, TrimSpace(cm[key].specRefId));
      } else {
        AfterPrefix(p, TrimSpace(om[key][0].specRefId));
        assert om[key][0] in om[key];
      }
    }
    forall s <- Scopes(p, classes, overlays) ensures s in KeyScopes(p, cm.Keys + om.Keys) {
      AfterPrefix(p, s);
      if c :| c in classes && c.providerId == p && TrimSpace(c.specRefId) == s {
        assert ScopeKey(c.providerId, c.specRefId) in cm.Keys + om.Keys;
      } else {
        var o :| o in overlays && o.providerId == p && TrimSpace(o.specRefId) == s;
        assert ScopeKey(o.providerId, o.specRefId) in cm.Keys + om.Keys;
      }
    }
  }

  lemma SameKey(p: string, q: string, s: string, t: string)
    requires ValidName(p) && ValidName(q)
    ensures ScopeKey(p, s) == ScopeKey(q, t) <==> p == q && TrimSpace(s) == TrimSpace(t)
  {
    hide TrimSpace, ValidID;
    ValidNameTrimmed(p);
    ValidNameTrimmed(q);
    if ScopeKey(p, s) == ScopeKey(q, t) {
      KeyOf(p, p, s);
      KeyOf(p, q, t);
      AfterPrefix(p, TrimSpace(s));
      AfterPrefix(p, TrimSpace(t));
    }
  }

  /** One record at most for each scope. */
  ghost predicate OnePerScope(classes: set<Classification>) {
    forall c, d :: c in classes && d in classes && c != d ==> OtherScope(c, d)
  }

  lemma ClassFound(p: string, scope: string, cm: ClassMap, classes: set<Classification>)
    requires ValidName(p) && (forall c <- classes :: ValidName(c.providerId)) && OnePerScope(classes)
    requires HoldsClasses(cm, classes) && TrimSpace(scope) == scope
    ensures ClassesAt(p, scope, classes) == if ScopeKey(p, scope) in cm then {cm[ScopeKey(p, scope)]} else {}
  {
    hide ScopeKey, TrimSpace, ValidName;
    forall c <- classes ensures ScopeKey(c.providerId, c.specRefId) == ScopeKey(p, scope) <==>
                                c.providerId == p && TrimSpace(c.specRefId) == scope
    {
      SameKey(c.providerId, p, c.specRefId, scope);
    }
    if ScopeKey(p, scope) in cm {
      var found := cm[ScopeKey(p, scope)];
      forall c <- ClassesAt(p, scope, classes) ensures c == found {
        assert !OtherScope(c, found);
      }
    }
  }

  lemma OverlaysFound(p: string, scope: string, om: OverlayMap, overlays: set<Overlay>)
    requires ValidName(p) && (forall o <- overlays :: ValidName(o.providerId))
    requires HoldsOverlays(om, overlays) && TrimSpace(scope) == scope
    ensures OverlaysAt(p, scope, overlays) == Elements(if ScopeKey(p, scope) in om then om[ScopeKey(p, scope)] else [])
  {
    hide ScopeKey, TrimSpace, ValidName;
    forall o <- overlays ensures ScopeKey(o.providerId, o.specRefId) == ScopeKey(p, scope) <==>
                                 o.providerId == p && TrimSpace(o.specRefId) == scope
    {
      SameKey(o.providerId, p, o.specRefId, scope);
    }
  }

  // ---------------------------------------------------------------- dispositions

  /** buildSecurityDisposition */
  method BuildDisposition(specRefId: string, classification: Option<Classification>, overlays: seq<Overlay>)
    returns (r: Disposition)
    requires TrimSpace(specRefId) == specRefId
    ensures r == DispositionOf(specRefId, if classification.Some? then {classification.value} else {},
                               Elements(overlays))
  {
    hide TrimSpace, SortedSet, UniqueTexts;
    ghost var classes := if classification.Some? then {classification.value} else {};
    var status, classificationStatus, overlayStatus, conflicts := UNKNOWN, "", "", [];
    var ids: seq<string>, refs: seq<string>, notes: seq<string> := [], [], [];
    if classification.Some? {
      classificationStatus, status := classification.value.status, classification.value.status;
      refs := classification.value.sourceRefs;
      notes := [classification.value.sourceNote];
    }
    var statusSet: set<string> := {};
    for i := 0 to |overlays|
      invariant statusSet == OverlayStatuses(Elements(overlays[..i]))
      invariant Elements(ids) == OverlayIDs(Elements(overlays[..i]))
      invariant Elements(refs) == References(classes, Elements(overlays[..i]))
      invariant Elements(notes) == Notes(classes, Elements(overlays[..i]))
    {
      var o := overlays[i];
      assert Elements(overlays[..i + 1]) == Elements(overlays[..i]) + {o};
      OneMore(classes, Elements(overlays[..i]), o);
      ElementsJoin(ids, [o.id]);
      ElementsJoin(refs, o.sourceRefs);
      ElementsJoin(notes, [o.sourceNote]);
      statusSet := statusSet + {o.status};
      ids := ids + [o.id];
      refs := refs + o.sourceRefs;
      notes := notes + [o.sourceNote];
    }
    assert overlays[..|overlays|] == overlays;
    var statuses := SortStrings(statusSet);
    if |statuses| == 1 {
      overlayStatus, status := statuses[0], statuses[0];
    } else if |statuses| >= 2 {
      status, conflicts := CONFLICT, statuses;
    }
    BaselineOne(classification);
    var overlayIds := SortedUnique(ids);
    var sourceRefs := SortedUnique(refs);
    var sourceNotes := SortedUnique(notes);
    r := Disposition(specRefId == "", specRefId, status, classificationStatus, overlayStatus, conflicts,
                     overlayIds, sourceRefs, sourceNotes);
  }

  lemma BaselineOne(classification: Option<Classification>)
    ensures Baseline(if classification.Some? then {classification.value} else {})
         == if classification.Some? then classification.value.status else ""
  {
  }

  lemma ElementsJoin<T>(a: seq<T>, b: seq<T>)
    ensures Elements(a + b) == Elements(a) + Elements(b)
  {
  }

  lemma OneMore(classes: set<Classification>, overlays: set<Overlay>, o: Overlay)
    ensures OverlayStatuses(overlays + {o}) == OverlayStatuses(overlays) + {o.status}
    ensures OverlayIDs(overlays + {o}) == OverlayIDs(overlays) + Elements([o.id])
    ensures References(classes, overlays + {o}) == References(classes, overlays) + Elements(o.sourceRefs)
    ensures Notes(classes, overlays + {o}) == Notes(classes, overlays) + Elements([o.sourceNote])
  {
  }

  /** aggregateSecurityDispositionStatus */
  method AggregateStatus(ds: seq<Disposition>) returns (status: string)
    ensures status == Aggregate(ds)
  {
    hide SortedSet;
    var statuses: set<string> := {};
    for i := 0 to |ds|
      invariant statuses == set d | d in ds[..i] :: d.status
      invariant CONFLICT !in statuses
    {
      assert ds[..i + 1] == ds[..i] + [ds[i]];
      if ds[i].status == CONFLICT {
        assert ds[i] in ds;
        return CONFLICT;
      }
      statuses := statuses + {ds[i].status};
    }
    assert ds[..|ds|] == ds;
    if |statuses| > 1 {
      return MIXED;
    }
    if |statuses| == 1 {
      var only :| only in statuses;
      OneMember(statuses, only);
      return only;
    }
    return UNKNOWN;
  }

  // ---------------------------------------------------------------- rows

  ghost function Texts(values: set<string>): set<string> {
    set v | v in values && TrimSpace(v) != "" :: TrimSpace(v)
  }

  lemma TextsOf(values: set<string>)
    ensures UniqueTexts(values) == SortedSet(Texts(values))
    ensures Elements(UniqueTexts(values)) == Texts(values) == Texts(Texts(values))
    ensures UniqueTexts(Texts(values)) == UniqueTexts(values)
  {
    hide TrimSpace, SortedSet;
    forall v <- values ensures TrimSpace(TrimSpace(v)) == TrimSpace(v) {
      TrimSpaceIdempotent(v);
    }
    forall v <- Texts(values) ensures v in Texts(Texts(values)) {
      assert TrimSpace(v) == v;
    }
  }

  lemma TextsJoin(a: set<string>, b: set<string>)
    ensures Texts(a + b) == Texts(a) + Texts(b)
  {
    hide TrimSpace;
  }

  ghost function OverlaysIn(p: string, scopes: set<string>, overlays: set<Overlay>): set<Overlay> {
    set o | o in overlays && o.providerId == p && TrimSpace(o.specRefId) in scopes
  }

  ghost function ClassesIn(p: string, scopes: set<string>, classes: set<Classification>): set<Classification> {
    set c | c in classes && c.providerId == p && TrimSpace(c.specRefId) in scopes
  }

  /** What the lists of a row have collected after some scopes. */
  ghost predicate Collected(p: string, scopes: set<string>, classes: set<Classification>, overlays: set<Overlay>,
                            ids: seq<string>, refs: seq<string>, notes: seq<string>, specs: seq<string>) {
    var cs, os := ClassesIn(p, scopes, classes), OverlaysIn(p, scopes, overlays);
    && Elements(ids) == Texts(OverlayIDs(os))
    && Elements(refs) == Texts(References(cs, os))
    && Elements(notes) == Texts(Notes(cs, os))
    && Elements(specs) == Texts(scopes)
  }

  lemma Unions(c: set<Classification>, d: set<Classification>, a: set<Overlay>, b: set<Overlay>)
    ensures OverlayIDs(a + b) == OverlayIDs(a) + OverlayIDs(b)
    ensures References(c + d, a + b) == References(c, a) + References(d, b)
    ensures Notes(c + d, a + b) == Notes(c, a) + Notes(d, b)
  {
  }

  lemma ScopeJoins(p: string, scopes: set<string>, s: string, classes: set<Classification>, overlays: set<Overlay>)
    ensures OverlaysIn(p, scopes + {s}, overlays) == OverlaysIn(p, scopes, overlays) + OverlaysAt(p, s, overlays)
    ensures ClassesIn(p, scopes + {s}, classes) == ClassesIn(p, scopes, classes) + ClassesAt(p, s, classes)
  {
    hide TrimSpace;
  }

  lemma CollectScope(p: string, scopes: set<string>, s: string, classes: set<Classification>, overlays: set<Overlay>,
                     ids: seq<string>, refs: seq<string>, notes: seq<string>, specs: seq<string>, d: Disposition)
    requires Collected(p, scopes, classes, overlays, ids, refs, notes, specs) && TrimSpace(s) == s
    requires d == DispositionOf(s, ClassesAt(p, s, classes), OverlaysAt(p, s, overlays))
    ensures Collected(p, scopes + {s}, classes, overlays, ids + d.overlayIds, refs + d.sourceRefs,
                      notes + d.sourceNotes,
                      if s == "" then specs else specs + [s])
  {
    hide TrimSpace, UniqueTexts, OverlayIDs, References, Notes, OverlaysAt, OverlaysIn, ClassesAt, ClassesIn,
         SortedSet, Effective, Baseline, OverlayStatuses, Texts;
    var cs, os := ClassesAt(p, s, classes), OverlaysAt(p, s, overlays);
    var before, seen := ClassesIn(p, scopes, classes), OverlaysIn(p, scopes, overlays);
    ScopeJoins(p, scopes, s, classes, overlays);
    Unions(before, cs, seen, os);
    TextsOf(OverlayIDs(os));
    TextsOf(References(cs, os));
    TextsOf(Notes(cs, os));
    TextsJoin(OverlayIDs(seen), OverlayIDs(os));
    TextsJoin(References(before, seen), References(cs, os));
    TextsJoin(Notes(before, seen), Notes(cs, os));
    TextsJoin(scopes, {s});
    ElementsJoin(ids, d.overlayIds);
    ElementsJoin(refs, d.sourceRefs);
    ElementsJoin(notes, d.sourceNotes);
    ElementsJoin(specs, [s]);
    TextOfOne(s);
  }

  lemma TextOfOne(s: string)
    requires TrimSpace(s) == s
    ensures Texts({s}) == if s == "" then {} else {s}
  {
    hide TrimSpace;
  }

  /** After all scopes, the lists of a row hold the evidence of the provider. */
  lemma CollectedAll(p: string, classes: set<Classification>, overlays: set<Overlay>)
    ensures ClassesIn(p, Scopes(p, classes, overlays), classes) == ClassesOf(p, classes)
    ensures OverlaysIn(p, Scopes(p, classes, overlays), overlays) == OverlaysOf(p, overlays)
  {
    hide TrimSpace;
  }

  lemma ScopesTrimmed(p: string, classes: set<Classification>, overlays: set<Overlay>)
    ensures forall s <- Scopes(p, classes, overlays) :: TrimSpace(s) == s
  {
    hide TrimSpace;
    forall s <- Scopes(p, classes, overlays) ensures TrimSpace(s) == s {
      if c :| c in classes && TrimSpace(c.specRefId) == s {
        TrimSpaceIdempotent(c.specRefId);
      } else {
        var o :| o in overlays && TrimSpace(o.specRefId) == s;
        TrimSpaceIdempotent(o.specRefId);
      }
    }
  }

  lemma CollectedNone(p: string, classes: set<Classification>, overlays: set<Overlay>)
    ensures Collected(p, {}, classes, overlays, [], [], [], [])
  {
    hide TrimSpace;
  }

  /** The disposition of each scope, in order, and what they hold together. */
  method BuildDispositions(p: string, scopes: seq<string>, cm: ClassMap, om: OverlayMap,
                           ghost classes: set<Classification>, ghost overlays: set<Overlay>)
    returns (ds: seq<Disposition>, ids: seq<string>, refs: seq<string>, notes: seq<string>, specs: seq<string>)
    requires ValidName(p) && Named(classes, overlays) && OnePerScope(classes)
    requires HoldsClasses(cm, classes) && HoldsOverlays(om, overlays)
    requires forall s <- scopes :: TrimSpace(s) == s
    ensures ds == Dispositions(p, scopes, classes, overlays)
    ensures Collected(p, Elements(scopes), classes, overlays, ids, refs, notes, specs)
  {
    hide TrimSpace, Collected, HoldsClasses, HoldsOverlays, OnePerScope, ScopeKey, DispositionOf, ClassesAt,
         OverlaysAt, ValidName;
    ds, ids, refs, notes, specs := [], [], [], [], [];
    CollectedNone(p, classes, overlays);
    assert Elements(scopes[..0]) == {};
    for i := 0 to |scopes|
      invariant ds == Dispositions(p, scopes[..i], classes, overlays)
      invariant Collected(p, Elements(scopes[..i]), classes, overlays, ids, refs, notes, specs)
    {
      var s := scopes[i];
      assert s in scopes;
      var key := ScopeKey(p, s);
      ClassFound(p, s, cm, classes);
      OverlaysFound(p, s, om, overlays);
      var d := BuildDisposition(s, if key in cm then Some(cm[key]) else None, if key in om then om[key] else []);
      CollectScope(p, Elements(scopes[..i]), s, classes, overlays, ids, refs, notes, specs, d);
      assert Elements(scopes[..i + 1]) == Elements(scopes[..i]) + {s};
      DispositionsSnoc(p, scopes[..i], s, classes, overlays);
      assert scopes[..i + 1] == scopes[..i] + [s];
      ds := ds + [d];
      ids := ids + d.overlayIds;
      refs := refs + d.sourceRefs;
      notes := notes + d.sourceNotes;
      if s != "" {
        specs := specs + [s];
      }
    }
    assert scopes[..|scopes|] == scopes;
  }

  lemma DispositionsSnoc(p: string, scopes: seq<string>, s: string, classes: set<Classification>,
                         overlays: set<Overlay>)
    ensures Dispositions(p, scopes + [s], classes, overlays)
         == Dispositions(p, scopes, classes, overlays)
           + [DispositionOf(s, ClassesAt(p, s, classes), OverlaysAt(p, s, overlays))]
  {
    hide DispositionOf, ClassesAt, OverlaysAt;
  }

  method BuildRow(p: string, cm: ClassMap, om: OverlayMap, ghost classes: set<Classification>,
                  ghost overlays: set<Overlay>)
    returns (row: Row)
    requires ValidName(p) && Named(classes, overlays) && OnePerScope(classes)
    requires HoldsClasses(cm, classes) && HoldsOverlays(om, overlays)
    ensures row == RowOf(p, classes, overlays)
  {
    hide TrimSpace, HoldsClasses, HoldsOverlays, OnePerScope, Dispositions, Aggregate, UniqueTexts, Scopes, SortedSet,
         ValidName, Named, OverlayIDs, References, Notes, ClassesIn, OverlaysIn, ClassesOf, OverlaysOf, Texts;
    var scopes := ScopesForProvider(p, cm, om);
    ScopesOfKeys(p, cm, om, classes, overlays);
    ScopesTrimmed(p, classes, overlays);
    var ds, ids, refs, notes, specs := BuildDispositions(p, scopes, cm, om, classes, overlays);
    assert Elements(scopes) == Scopes(p, classes, overlays);
    CollectedAll(p, classes, overlays);
    TextsOf(OverlayIDs(OverlaysOf(p, overlays)));
    TextsOf(References(ClassesOf(p, classes), OverlaysOf(p, overlays)));
    TextsOf(Notes(ClassesOf(p, classes), OverlaysOf(p, overlays)));
    TextsOf(Scopes(p, classes, overlays));
    var status := AggregateStatus(ds);
    var overlayIds := SortedUnique(ids);
    var specRefIds := SortedUnique(specs);
    var sourceRefs := SortedUnique(refs);
    var sourceNotes := SortedUnique(notes);
    row := Row(p, status, ds, overlayIds, specRefIds, sourceRefs, sourceNotes);
  }

  // ---------------------------------------------------------------- the report

  lemma ValidMeans(providers: seq<Provider>, overlays: seq<Overlay>, classes: seq<Classification>)
    requires ValidProviders(providers) && ValidOverlays(overlays, providers) && ValidClassifications(classes, providers)
    ensures Named(Elements(classes), Elements(overlays)) && OnePerScope(Elements(classes))
    ensures forall p <- providers :: ValidName(p.id)
  {
    hide TrimSpace, ValidName, IsEvidence, Sourced, LookupKeys, ValidSpec;
    forall c, d | c in classes && d in classes && c != d ensures OtherScope(c, d) {
      var i :| 0 <= i < |classes| && classes[i] == c;
      var j :| 0 <= j < |classes| && classes[j] == d;
      assert i < j ==> OtherScope(classes[i], classes[j]);
      assert j < i ==> OtherScope(classes[j], classes[i]);
    }
  }

  /** BuildSecurityReport */
  method BuildSecurityReport(providers: seq<Provider>, overlays: seq<Overlay>, classifications: seq<Classification>)
    returns (r: Result)
    ensures r == BuildReport(providers, overlays, classifications)
  {
    hide ValidProviders, ValidOverlays, ValidClassifications, RowOf, SortOverlays, SortBy, Named, OnePerScope,
         ValidName, HoldsClasses, HoldsOverlays;
    var valid := ValidateProviders(providers);
    if !valid {
      return Invalid;
    }
    valid := Catalog.ValidateOverlays(overlays, providers);
    if !valid {
      return Invalid;
    }
    valid := ValidateClassifications(classifications, providers);
    if !valid {
      return Invalid;
    }
    var sorted := SortOverlays(overlays);
    SortOverlaysPermutes(overlays);
    SameElements(sorted, overlays);
    ghost var classes, evidence := Elements(classifications), Elements(overlays);
    ValidMeans(providers, overlays, classifications);
    var cm := CollectClasses(classifications);
    var om := CollectOverlays(sorted);
    var rows: seq<Row> := [];
    for i := 0 to |providers|
      invariant rows == Rows(providers[..i], classes, evidence)
    {
      assert providers[i] in providers;
      var row := BuildRow(providers[i].id, cm, om, classes, evidence);
      RowsSplit(providers[..i], [providers[i]], classes, evidence);
      assert providers[..i + 1] == providers[..i] + [providers[i]];
      assert Rows([providers[i]], classes, evidence) == [row];
      rows := rows + [row];
    }
    assert providers[..|providers|] == providers;
    return Report(SortBy(RowKey, rows));
  }

  /** The evidence of one provider, as the inspection view selects it. */
  ghost predicate Selected(p: string, classes: set<Classification>, overlays: set<Overlay>) {
    (forall c <- classes :: c.providerId == p) && (forall o <- overlays :: o.providerId == p)
  }

  /** inspectionSecurityStatus */
  method InspectionStatus(providerId: string, classifications: seq<Classification>, overlays: seq<Overlay>)
    returns (status: string)
    requires ValidName(providerId) && OnePerScope(Elements(classifications))
    requires Selected(providerId, Elements(classifications), Elements(overlays))
    ensures status == StatusOf(providerId, Elements(classifications), Elements(overlays))
  {
    hide ValidName, SortBy, OnePerScope, HoldsClasses, HoldsOverlays, Dispositions, Aggregate, Scopes, SortedSet;
    var cm := CollectClasses(classifications);
    var om := CollectOverlays(overlays);
    var scopes := ScopesForProvider(providerId, cm, om);
    ghost var classes, evidence := Elements(classifications), Elements(overlays);
    assert Named(classes, evidence);
    ScopesOfKeys(providerId, cm, om, classes, evidence);
    ScopesTrimmed(providerId, classes, evidence);
    var ds, _, _, _, _ := BuildDispositions(providerId, scopes, cm, om, classes, evidence);
    status := AggregateStatus(ds);
  }

  /** The inspection view of a provider and its row in the report have the same status. */
  method InspectProvider(providers: seq<Provider>, overlays: seq<Overlay>, classifications: seq<Classification>,
                         provider: Provider)
    returns (status: string)
    requires BuildReport(providers, overlays, classifications).Report? && provider in providers
    ensures exists row <- BuildReport(providers, overlays, classifications).rows ::
              row.providerId == provider.id && row.status == status
  {
    hide ValidName, StatusOf, BuildReport, Selected, OnePerScope;
    ghost var classes, evidence := Elements(classifications), Elements(overlays);
    InputOf(providers, overlays, classifications);
    var ownClasses: seq<Classification> := [];
    for i := 0 to |classifications|
      invariant Elements(ownClasses) == ClassesOf(provider.id, Elements(classifications[..i]))
    {
      assert Elements(classifications[..i + 1]) == Elements(classifications[..i]) + {classifications[i]};
      ElementsJoin(ownClasses, [classifications[i]]);
      if classifications[i].providerId == provider.id {
        ownClasses := ownClasses + [classifications[i]];
      }
    }
    assert classifications[..|classifications|] == classifications;
    var ownOverlays: seq<Overlay> := [];
    for i := 0 to |overlays|
      invariant Elements(ownOverlays) == OverlaysOf(provider.id, Elements(overlays[..i]))
    {
      assert Elements(overlays[..i + 1]) == Elements(overlays[..i]) + {overlays[i]};
      ElementsJoin(ownOverlays, [overlays[i]]);
      if overlays[i].providerId == provider.id {
        ownOverlays := ownOverlays + [overlays[i]];
      }
    }
    assert overlays[..|overlays|] == overlays;
    OwnSelected(provider.id, classes, evidence);
    status := InspectionStatus(provider.id, ownClasses, ownOverlays);
    OwnEvidence(provider.id, classes, evidence);
    OneRowEach(providers, overlays, classifications);
    RowFields(provider.id, classes, evidence);
    assert RowOf(provider.id, classes, evidence) in BuildReport(providers, overlays, classifications).rows;
  }

  lemma RowFields(p: string, classes: set<Classification>, overlays: set<Overlay>)
    ensures RowOf(p, classes, overlays).providerId == p
    ensures RowOf(p, classes, overlays).status == StatusOf(p, classes, overlays)
  {
    hide StatusOf, Dispositions, UniqueTexts;
  }

  lemma OwnSelected(p: string, classes: set<Classification>, overlays: set<Overlay>)
    ensures Selected(p, ClassesOf(p, classes), OverlaysOf(p, overlays))
    ensures OnePerScope(classes) ==> OnePerScope(ClassesOf(p, classes))
  {
    hide OtherScope;
  }

  lemma InputOf(providers: seq<Provider>, overlays: seq<Overlay>, classes: seq<Classification>)
    requires BuildReport(providers, overlays, classes).Report?
    ensures OnePerScope(Elements(classes)) && forall p <- providers :: ValidName(p.id)
  {
    hide ValidProviders, ValidOverlays, ValidClassifications, OnePerScope, ValidName, ReportOf;
    ValidMeans(providers, overlays, classes);
  }
}
