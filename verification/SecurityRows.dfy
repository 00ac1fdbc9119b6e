/** What a row of the security report says, stated about the overlays and classifications of its
    provider themselves. */
module SecurityRows {
  import opened Catalog
  import opened Ordering
  import opened SecurityProofs
  import opened SecuritySpec
  import opened Text

  // ---------------------------------------------------------------- what a row says

  /** The overlay, or classification, is evidence about this scope of the provider; "" is the
      provider itself. */
  predicate Concerns(o: Overlay, p: string, scope: string) {
    o.providerId == p && TrimSpace(o.specRefId) == scope
  }

  predicate Classifies(c: Classification, p: string, scope: string) {
    c.providerId == p && TrimSpace(c.specRefId) == scope
  }

  /** The list has these texts, trimmed, without blank ones, in ascending order, each once. */
  ghost predicate Lists(list: seq<string>, texts: set<string>) {
    && (forall i, j :: 0 <= i < j < |list| ==> Less(list[i], list[j]))
    && (forall x <- list :: x != "" && exists t <- texts :: TrimSpace(t) == x)
    && (forall t <- texts :: TrimSpace(t) != "" ==> TrimSpace(t) in list)
  }

  ghost predicate Differ(own: set<Overlay>) {
    exists a, b :: a in own && b in own && a.status != b.status
  }

  /** All of them have the status of `a`. */
  ghost predicate AllLike(own: set<Overlay>, a: Overlay) {
    a in own && forall b <- own :: b.status == a.status
  }

  /** The statuses of the overlays, in ascending order. */
  ghost predicate ListsStatuses(list: seq<string>, own: set<Overlay>) {
    && (forall i, j :: 0 <= i < j < |list| ==> Less(list[i], list[j]))
    && (forall o <- own :: o.status in list)
    && (forall s <- list :: exists o <- own :: o.status == s)
  }

  /** Reviewed overlays own the status of their scope and conflict when they differ; without one
      the classification is the status. */
  ghost predicate SaysStatus(d: Disposition, p: string, classes: set<Classification>, overlays: set<Overlay>) {
    var own := set o | o in overlays && Concerns(o, p, d.specRefId);
    && (forall c <- classes :: Classifies(c, p, d.specRefId) ==> d.classificationStatus == c.status)
    && ((forall c <- classes :: !Classifies(c, p, d.specRefId)) ==> d.classificationStatus == "")
    && (own == {} ==> d.overlayStatus == "" && d.conflictStatuses == []
                      && forall c <- classes :: Classifies(c, p, d.specRefId) ==> d.status == c.status)
    && (Differ(own) ==> d.status == CONFLICT && d.overlayStatus == "" && ListsStatuses(d.conflictStatuses, own))
    && (forall a <- own :: AllLike(own, a) ==>
          d.status == a.status && d.overlayStatus == a.status && d.conflictStatuses == [])
  }

  /** The sources of a disposition are those of the evidence in its scope. */
  ghost predicate SaysSources(d: Disposition, p: string, classes: set<Classification>, overlays: set<Overlay>) {
    && (d.providerWide <==> d.specRefId == "")
    && Lists(d.overlayIds, set o | o in overlays && Concerns(o, p, d.specRefId) :: o.id)
    && Lists(d.sourceRefs, (set c, r | c in classes && Classifies(c, p, d.specRefId) && r in c.sourceRefs :: r)
                           + (set o, r | o in overlays && Concerns(o, p, d.specRefId) && r in o.sourceRefs :: r))
    && Lists(d.sourceNotes, (set c | c in classes && Classifies(c, p, d.specRefId) :: c.sourceNote)
                            + (set o | o in overlays && Concerns(o, p, d.specRefId) :: o.sourceNote))
  }

  /** There is one disposition for each scope with evidence, in ascending order. */
  ghost predicate CoversScopes(row: Row, classes: set<Classification>, overlays: set<Overlay>) {
    var ds := row.dispositions;
    && (forall i, j :: 0 <= i < j < |ds| ==> Less(ds[i].specRefId, ds[j].specRefId))
    && (forall o <- overlays :: o.providerId == row.providerId ==>
          exists d <- ds :: Concerns(o, row.providerId, d.specRefId))
    && (forall c <- classes :: c.providerId == row.providerId ==>
          exists d <- ds :: Classifies(c, row.providerId, d.specRefId))
    && (forall d <- ds :: (exists o <- overlays :: Concerns(o, row.providerId, d.specRefId))
                          || exists c <- classes :: Classifies(c, row.providerId, d.specRefId))
  }

  /** A conflict in one scope is one of the provider; scopes that differ make it mixed; a
      provider without scopes is unknown. */
  ghost predicate SaysTotal(row: Row) {
    var ds := row.dispositions;
    && ((exists d <- ds :: d.status == CONFLICT) ==> row.status == CONFLICT)
    && ((forall d <- ds :: d.status != CONFLICT) ==>
          && ((exists d, e :: d in ds && e in ds && d.status != e.status) ==> row.status == MIXED)
          && (forall d <- ds :: (forall e <- ds :: e.status == d.status) ==> row.status == d.status))
    && (ds == [] ==> row.status == UNKNOWN)
  }

  ghost predicate SaysTotalSources(row: Row, classes: set<Classification>, overlays: set<Overlay>) {
    var p := row.providerId;
    && Lists(row.overlayIds, set o | o in overlays && o.providerId == p :: o.id)
    && Lists(row.specRefIds, (set o | o in overlays && o.providerId == p :: o.specRefId)
                             + (set c | c in classes && c.providerId == p :: c.specRefId))
    && Lists(row.sourceRefs, (set c, r | c in classes && c.providerId == p && r in c.sourceRefs :: r)
                             + (set o, r | o in overlays && o.providerId == p && r in o.sourceRefs :: r))
    && Lists(row.sourceNotes, (set c | c in classes && c.providerId == p :: c.sourceNote)
                              + (set o | o in overlays && o.providerId == p :: o.sourceNote))
  }

  // ---------------------------------------------------------------- lists

  lemma ListsTexts(texts: set<string>)
    ensures Lists(UniqueTexts(texts), texts)
  {
    hide TrimSpace, SortedSet, Less;
    var trimmed := set v | v in texts && TrimSpace(v) != "" :: TrimSpace(v);
    SortedSetAscends(trimmed);
    forall t <- texts ensures TrimSpace(t) != "" ==> TrimSpace(t) in trimmed {
    }
  }

  lemma ListsSame(list: seq<string>, a: set<string>, b: set<string>)
    requires Lists(list, a) && (forall t <- b :: exists u <- a :: TrimSpace(u) == TrimSpace(t))
    requires forall t <- a :: exists u <- b :: TrimSpace(u) == TrimSpace(t)
    ensures Lists(list, b)
  {
    hide TrimSpace, Less;
  }

  // ---------------------------------------------------------------- statuses

  /** One classification at most speaks about each scope. */
  ghost predicate OneEach(classes: set<Classification>) {
    forall c, d :: c in classes && d in classes && c != d ==> OtherScope(c, d)
  }

  lemma OwnOverlays(p: string, scope: string, overlays: set<Overlay>)
    ensures OverlaysAt(p, scope, overlays) == set o | o in overlays && Concerns(o, p, scope)
  {
    hide TrimSpace;
  }

  lemma OwnClasses(p: string, scope: string, classes: set<Classification>)
    requires OneEach(classes)
    ensures ClassesAt(p, scope, classes) == set c | c in classes && Classifies(c, p, scope)
    ensures forall c <- classes :: Classifies(c, p, scope) ==> ClassesAt(p, scope, classes) == {c}
    ensures forall c <- classes :: Classifies(c, p, scope) ==> Baseline(ClassesAt(p, scope, classes)) == c.status
    ensures (forall c <- classes :: !Classifies(c, p, scope)) ==> Baseline(ClassesAt(p, scope, classes)) == ""
  {
    hide TrimSpace;
    forall c <- classes | Classifies(c, p, scope) ensures ClassesAt(p, scope, classes) == {c} {
      forall d <- ClassesAt(p, scope, classes) ensures d == c {
        assert !OtherScope(c, d);
      }
    }
  }

  lemma StatusesDiffer(own: set<Overlay>)
    ensures |OverlayStatuses(own)| > 1 <==> Differ(own)
    ensures |OverlayStatuses(own)| == 0 <==> own == {}
  {
    var statuses := OverlayStatuses(own);
    TwoMembers(statuses);
    if x, y :| x in statuses && y in statuses && x != y {
      var a :| a in own && a.status == x;
      var b :| b in own && b.status == y;
    }
    if a, b :| a in own && b in own && a.status != b.status {
      assert a.status in statuses && b.status in statuses;
    }
    if a :| a in own {
      assert a.status in statuses;
    }
  }

  lemma StatusesAgree(own: set<Overlay>, a: Overlay)
    requires AllLike(own, a)
    ensures |OverlayStatuses(own)| == 1 && SortedSet(OverlayStatuses(own)) == [a.status]
  {
    hide SortedSet;
    var statuses := OverlayStatuses(own);
    assert a.status in statuses;
    assert statuses == {a.status};
    OneMember(statuses, a.status);
  }

  /** How the overlays of a scope, and else its classification, decide. */
  lemma Decided(scope: string, cs: set<Classification>, own: set<Overlay>)
    ensures (var d := DispositionOf(scope, cs, own);
             && d.specRefId == scope && d.classificationStatus == Baseline(cs)
             && (own == {} ==> d.overlayStatus == "" && d.conflictStatuses == []
                               && d.status == if cs != {} then Baseline(cs) else UNKNOWN)
             && (Differ(own) ==> d.status == CONFLICT && d.overlayStatus == ""
                                 && d.conflictStatuses == SortedSet(OverlayStatuses(own)))
             && (forall a <- own :: AllLike(own, a) ==>
                   d.status == a.status && d.overlayStatus == a.status && d.conflictStatuses == []))
  {
    hide SortedSet, UniqueTexts, Baseline, OverlayStatuses, OverlayIDs, References, Notes, Differ, AllLike;
    StatusesDiffer(own);
    forall a <- own | AllLike(own, a)
      ensures |OverlayStatuses(own)| == 1 && SortedSet(OverlayStatuses(own)) == [a.status]
    {
      StatusesAgree(own, a);
    }
  }

  lemma DispositionSays(p: string, scope: string, classes: set<Classification>, overlays: set<Overlay>)
    requires OneEach(classes)
    ensures (var d := DispositionOf(scope, ClassesAt(p, scope, classes), OverlaysAt(p, scope, overlays));
             d.specRefId == scope && SaysStatus(d, p, classes, overlays))
  {
    hide SortedSet, DispositionOf, Baseline, ClassesAt, OverlaysAt, Concerns, Classifies, OverlayStatuses, Less,
         OneEach, Differ, AllLike, ListsStatuses;
    OwnOverlays(p, scope, overlays);
    OwnClasses(p, scope, classes);
    var own := OverlaysAt(p, scope, overlays);
    Decided(scope, ClassesAt(p, scope, classes), own);
    StatusesMembers(own);
  }

  lemma StatusesMembers(own: set<Overlay>)
    ensures ListsStatuses(SortedSet(OverlayStatuses(own)), own)
  {
    hide SortedSet, Less;
    SortedSetAscends(OverlayStatuses(own));
  }

  lemma DispositionLists(p: string, scope: string, classes: set<Classification>, overlays: set<Overlay>)
    requires OneEach(classes)
    ensures SaysSources(DispositionOf(scope, ClassesAt(p, scope, classes), OverlaysAt(p, scope, overlays)), p,
                        classes, overlays)
  {
    hide TrimSpace, SortedSet, UniqueTexts, Baseline, OverlayStatuses, Effective, Lists, Concerns, Classifies;
    OwnOverlays(p, scope, overlays);
    OwnClasses(p, scope, classes);
    var cs, os := ClassesAt(p, scope, classes), OverlaysAt(p, scope, overlays);
    ListsTexts(OverlayIDs(os));
    ListsTexts(References(cs, os));
    ListsTexts(Notes(cs, os));
    assert OverlayIDs(os) == set o | o in overlays && Concerns(o, p, scope) :: o.id;
    assert References(cs, os) == (set c, r | c in classes && Classifies(c, p, scope) && r in c.sourceRefs :: r)
                                 + (set o, r | o in overlays && Concerns(o, p, scope) && r in o.sourceRefs :: r);
    assert Notes(cs, os) == (set c | c in classes && Classifies(c, p, scope) :: c.sourceNote)
                            + (set o | o in overlays && Concerns(o, p, scope) :: o.sourceNote);
  }

  // ---------------------------------------------------------------- rows

  lemma AggregateSays(row: Row)
    requires row.status == Aggregate(row.dispositions)
    requires forall d <- row.dispositions :: d.status != MIXED
    ensures SaysTotal(row)
  {
    hide SortedSet;
    var ds := row.dispositions;
    var statuses := set d | d in ds :: d.status;
    TwoMembers(statuses);
    forall d <- ds ensures d.status in statuses {
    }
    if x, y :| x in statuses && y in statuses && x != y {
      var d :| d in ds && d.status == x;
      var e :| e in ds && e.status == y;
    }
    forall d <- ds | forall e <- ds :: e.status == d.status ensures statuses == {d.status} {
      assert d.status in statuses;
    }
    forall d <- ds | |statuses| == 1 ensures SortedSet(statuses) == [d.status] {
      OneMember(statuses, d.status);
    }
    if ds == [] {
      assert statuses == {};
    }
  }

  lemma ScopesListed(p: string, scopes: seq<string>, classes: set<Classification>, overlays: set<Overlay>)
    ensures (var ds := Dispositions(p, scopes, classes, overlays);
             && (forall i :: 0 <= i < |ds| ==>
                   && ds[i].specRefId == scopes[i]
                   && ds[i] == DispositionOf(scopes[i], ClassesAt(p, scopes[i], classes),
                                             OverlaysAt(p, scopes[i], overlays)))
             && (forall s <- scopes :: exists d <- ds :: d.specRefId == s)
             && (forall d <- ds :: d.specRefId in scopes))
  {
    hide UniqueTexts, Effective, Baseline, ClassesAt, OverlaysAt, OverlayStatuses, OverlayIDs, References, Notes,
         SortedSet;
    var ds := Dispositions(p, scopes, classes, overlays);
    forall s <- scopes ensures exists d <- ds :: d.specRefId == s {
      var i :| 0 <= i < |scopes| && scopes[i] == s;
      assert ds[i] in ds;
    }
  }

  lemma ScopesKnown(p: string, classes: set<Classification>, overlays: set<Overlay>)
    ensures forall o <- overlays :: o.providerId == p ==> TrimSpace(o.specRefId) in Scopes(p, classes, overlays)
    ensures forall c <- classes :: c.providerId == p ==> TrimSpace(c.specRefId) in Scopes(p, classes, overlays)
    ensures forall s <- Scopes(p, classes, overlays) ::
              (exists o <- overlays :: Concerns(o, p, s)) || exists c <- classes :: Classifies(c, p, s)
  {
    hide TrimSpace;
  }

  lemma ScopesCovered(p: string, classes: set<Classification>, overlays: set<Overlay>)
    ensures CoversScopes(RowOf(p, classes, overlays), classes, overlays)
    ensures forall i :: 0 <= i < |RowOf(p, classes, overlays).dispositions| ==>
              (var d := RowOf(p, classes, overlays).dispositions[i];
               d == DispositionOf(d.specRefId, ClassesAt(p, d.specRefId, classes),
                                  OverlaysAt(p, d.specRefId, overlays)))
  {
    hide TrimSpace, SortedSet, UniqueTexts, StatusOf, Dispositions, DispositionOf, ClassesAt, OverlaysAt, Scopes, Less,
         OverlayIDs, References, Notes, ClassesOf, OverlaysOf;
    SortedSetAscends(Scopes(p, classes, overlays));
    ScopesListed(p, SortedSet(Scopes(p, classes, overlays)), classes, overlays);
    ScopesKnown(p, classes, overlays);
  }

  lemma RowLists(p: string, classes: set<Classification>, overlays: set<Overlay>)
    ensures SaysTotalSources(RowOf(p, classes, overlays), classes, overlays)
  {
    hide TrimSpace, SortedSet, UniqueTexts, StatusOf, Dispositions, Lists;
    var cs, os, scopes := ClassesOf(p, classes), OverlaysOf(p, overlays), Scopes(p, classes, overlays);
    ListsTexts(OverlayIDs(os));
    ListsTexts(scopes);
    ListsTexts(References(cs, os));
    ListsTexts(Notes(cs, os));
    assert OverlayIDs(os) == set o | o in overlays && o.providerId == p :: o.id;
    assert References(cs, os) == (set c, r | c in classes && c.providerId == p && r in c.sourceRefs :: r)
                                 + (set o, r | o in overlays && o.providerId == p && r in o.sourceRefs :: r);
    assert Notes(cs, os) == (set c | c in classes && c.providerId == p :: c.sourceNote)
                            + (set o | o in overlays && o.providerId == p :: o.sourceNote);
    var written := (set o | o in overlays && o.providerId == p :: o.specRefId)
                   + (set c | c in classes && c.providerId == p :: c.specRefId);
    ScopesWritten(p, classes, overlays, written);
    ListsSame(UniqueTexts(scopes), scopes, written);
  }

  /** The scopes are the references as they are written, trimmed. */
  lemma ScopesWritten(p: string, classes: set<Classification>, overlays: set<Overlay>, written: set<string>)
    requires written == (set o | o in overlays && o.providerId == p :: o.specRefId)
                        + (set c | c in classes && c.providerId == p :: c.specRefId)
    ensures forall t <- written :: exists u <- Scopes(p, classes, overlays) :: TrimSpace(u) == TrimSpace(t)
    ensures forall t <- Scopes(p, classes, overlays) :: exists u <- written :: TrimSpace(u) == TrimSpace(t)
  {
    hide TrimSpace;
    forall t <- written ensures exists u <- Scopes(p, classes, overlays) :: TrimSpace(u) == TrimSpace(t) {
      TrimSpaceIdempotent(t);
      assert TrimSpace(t) in Scopes(p, classes, overlays);
    }
    forall t <- Scopes(p, classes, overlays) ensures exists u <- written :: TrimSpace(u) == TrimSpace(t) {
      if c :| c in classes && c.providerId == p && TrimSpace(c.specRefId) == t {
        TrimSpaceIdempotent(c.specRefId);
        assert c.specRefId in written;
      } else {
        var o :| o in overlays && o.providerId == p && TrimSpace(o.specRefId) == t;
        TrimSpaceIdempotent(o.specRefId);
        assert o.specRefId in written;
      }
    }
  }

  lemma RowSays(p: string, classes: set<Classification>, overlays: set<Overlay>)
    requires OneEach(classes) && OnlyEvidence(classes, overlays)
    ensures (var row := RowOf(p, classes, overlays);
             && row.providerId == p && CoversScopes(row, classes, overlays) && SaysTotal(row)
             && SaysTotalSources(row, classes, overlays)
             && forall d <- row.dispositions ::
                  SaysStatus(d, p, classes, overlays) && SaysSources(d, p, classes, overlays))
  {
    hide DispositionOf, ClassesAt, OverlaysAt, CoversScopes, SaysTotal, SaysTotalSources, SaysStatus, SaysSources,
         OneEach, OnlyEvidence, Dispositions, Aggregate, UniqueTexts, SortedSet, Scopes;
    ScopesCovered(p, classes, overlays);
    RowLists(p, classes, overlays);
    var row := RowOf(p, classes, overlays);
    forall d <- row.dispositions
      ensures SaysStatus(d, p, classes, overlays) && SaysSources(d, p, classes, overlays) && d.status != MIXED
    {
      var i :| 0 <= i < |row.dispositions| && row.dispositions[i] == d;
      DispositionSays(p, d.specRefId, classes, overlays);
      DispositionLists(p, d.specRefId, classes, overlays);
      NeverMixed(p, d.specRefId, classes, overlays);
    }
    AggregateSays(row);
  }

  lemma NeverMixed(p: string, scope: string, classes: set<Classification>, overlays: set<Overlay>)
    requires OnlyEvidence(classes, overlays)
    ensures DispositionOf(scope, ClassesAt(p, scope, classes), OverlaysAt(p, scope, overlays)).status != MIXED
  {
    hide ClassesAt, OverlaysAt, OnlyEvidence, Effective, UniqueTexts, SortedSet;
    AtStatuses(p, scope, classes, overlays);
    ConflictAt(ClassesAt(p, scope, classes), OverlaysAt(p, scope, overlays));
    NotEvidence();
  }

  lemma ReportClasses(providers: seq<Provider>, overlays: seq<Overlay>, classes: seq<Classification>)
    requires BuildReport(providers, overlays, classes).Report?
    ensures OneEach(Elements(classes))
  {
    hide TrimSpace, ValidProviders, ValidOverlays, ValidClassification, ReportOf;
    forall c, d | c in classes && d in classes && c != d ensures OtherScope(c, d) {
      var i :| 0 <= i < |classes| && classes[i] == c;
      var j :| 0 <= j < |classes| && classes[j] == d;
      assert i < j ==> OtherScope(classes[i], classes[j]);
      assert j < i ==> OtherScope(classes[j], classes[i]);
    }
  }

  /** Each row of an accepted report says what the evidence about its provider says. */
  lemma RowsSayEvidence(providers: seq<Provider>, overlays: seq<Overlay>, classes: seq<Classification>, row: Row)
    requires BuildReport(providers, overlays, classes).Report?
    requires row in BuildReport(providers, overlays, classes).rows
    ensures (var cs, os := Elements(classes), Elements(overlays);
             && (exists p <- providers :: p.id == row.providerId)
             && CoversScopes(row, cs, os) && SaysTotal(row) && SaysTotalSources(row, cs, os)
             && forall d <- row.dispositions ::
                  SaysStatus(d, row.providerId, cs, os) && SaysSources(d, row.providerId, cs, os))
  {
    hide *;
    OneRowEach(providers, overlays, classes);
    var p := RowProvider(providers, overlays, classes, row);
    ValidEvidence(providers, overlays, classes);
    ReportClasses(providers, overlays, classes);
    RowSays(p.id, Elements(classes), Elements(overlays));
  }

  lemma RowProvider(providers: seq<Provider>, overlays: seq<Overlay>, classes: seq<Classification>, row: Row)
    returns (p: Provider)
    requires BuildReport(providers, overlays, classes).Report?
    requires row in BuildReport(providers, overlays, classes).rows
    ensures p in providers && row == RowOf(p.id, Elements(classes), Elements(overlays))
  {
    hide BuildReport, RowOf;
    OneRowEach(providers, overlays, classes);
    p :| p in providers && row == RowOf(p.id, Elements(classes), Elements(overlays));
  }
}
