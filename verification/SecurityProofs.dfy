/** What the security report guarantees. */
module SecurityProofs {
  import opened Catalog
  import opened Ordering
  import opened SecuritySpec
  import opened Text

  // ---------------------------------------------------------------- input order

  lemma SameElements<T>(a: seq<T>, b: seq<T>)
    requires multiset(a) == multiset(b)
    ensures Elements(a) == Elements(b)
    ensures forall x :: x in a <==> x in b
  {
    forall x ensures x in a <==> x in b {
      assert x in multiset(a) <==> x in multiset(b);
    }
  }

  lemma SameKnownScope(p: string, s: string, a: seq<Provider>, b: seq<Provider>)
    requires forall x :: x in a <==> x in b
    ensures KnownScope(p, s, a) <==> KnownScope(p, s, b)
  {
    hide ValidName, ValidID, TrimSpace;
  }

  lemma ProvidersPermute(a: seq<Provider>, b: seq<Provider>)
    requires multiset(a) == multiset(b) && ValidProviders(a)
    ensures ValidProviders(b)
  {
    hide ValidProvider, LookupKeys;
    SameElements(a, b);
    PairwisePermutes(Separate, a, b);
  }

  lemma OverlaysPermute(a: seq<Overlay>, b: seq<Overlay>, p: seq<Provider>, q: seq<Provider>)
    requires multiset(a) == multiset(b) && multiset(p) == multiset(q) && ValidOverlays(a, p)
    ensures ValidOverlays(b, q)
  {
    hide IsEvidence, Sourced, ValidName, KnownScope;
    SameElements(a, b);
    SameElements(p, q);
    PairwisePermutes(OtherID, a, b);
    forall o <- b ensures ValidOverlay(o, q) {
      assert ValidOverlay(o, p);
      SameKnownScope(o.providerId, o.specRefId, p, q);
    }
  }

  lemma ClassificationsPermute(a: seq<Classification>, b: seq<Classification>, p: seq<Provider>, q: seq<Provider>)
    requires multiset(a) == multiset(b) && multiset(p) == multiset(q) && ValidClassifications(a, p)
    ensures ValidClassifications(b, q)
  {
    hide IsEvidence, Sourced, ValidName, KnownScope, TrimSpace;
    SameElements(a, b);
    SameElements(p, q);
    PairwisePermutes(OtherScope, a, b);
    forall c <- b ensures ValidClassification(c, q) {
      assert ValidClassification(c, p);
      SameKnownScope(c.providerId, c.specRefId, p, q);
    }
  }

  lemma {:induction false} RowsSplit(a: seq<Provider>, b: seq<Provider>, classes: set<Classification>,
                                     overlays: set<Overlay>)
    ensures Rows(a + b, classes, overlays) == Rows(a, classes, overlays) + Rows(b, classes, overlays)
  {
    hide RowOf;
    if a == [] {
      assert [] + b == b;
    } else {
      RowsSplit(a[1..], b, classes, overlays);
      assert (a + b)[1..] == a[1..] + b;
    }
  }

  lemma TakeOut<T>(a: seq<T>, b: seq<T>) returns (k: nat)
    requires multiset(a) == multiset(b) && b != []
    ensures k < |a| && a[k] == b[0]
    ensures a == a[..k] + [b[0]] + a[k + 1..] && multiset(a[..k] + a[k + 1..]) == multiset(b[1..])
  {
    assert b == [b[0]] + b[1..];
    assert b[0] in multiset(a);
    k :| 0 <= k < |a| && a[k] == b[0];
    assert a == a[..k] + [b[0]] + a[k + 1..];
    assert multiset(a) == multiset(a[..k]) + multiset{b[0]} + multiset(a[k + 1..]);
    assert multiset(b[1..]) == multiset(b) - multiset{b[0]};
    assert multiset(a[..k]) + multiset(a[k + 1..]) == multiset(a) - multiset{b[0]};
  }

  lemma {:induction false} RowsPermute(a: seq<Provider>, b: seq<Provider>, classes: set<Classification>,
                                       overlays: set<Overlay>)
    requires multiset(a) == multiset(b)
    ensures multiset(Rows(a, classes, overlays)) == multiset(Rows(b, classes, overlays))
    decreases |b|
  {
    hide Rows;
    if b == [] {
      assert |multiset(a)| == 0;
    } else {
      var k := TakeOut(a, b);
      var x, rest := [b[0]], a[k + 1..];
      RowsPermute(a[..k] + rest, b[1..], classes, overlays);
      RowsSplit(a[..k] + x, rest, classes, overlays);
      RowsSplit(a[..k], x, classes, overlays);
      RowsSplit(a[..k], rest, classes, overlays);
      RowsSplit(x, b[1..], classes, overlays);
      assert b == x + b[1..];
    }
  }

  lemma {:induction false} RowsByProvider(providers: seq<Provider>, classes: set<Classification>,
                                          overlays: set<Overlay>)
    ensures |Rows(providers, classes, overlays)| == |providers|
    ensures forall i :: 0 <= i < |providers| ==>
              Rows(providers, classes, overlays)[i] == RowOf(providers[i].id, classes, overlays)
  {
    hide RowOf;
    if providers != [] {
      RowsByProvider(providers[1..], classes, overlays);
    }
  }

  ghost predicate OtherRow(a: Row, b: Row) {
    RowKey(a) != RowKey(b)
  }

  lemma RowsDistinct(providers: seq<Provider>, classes: set<Classification>, overlays: set<Overlay>)
    requires ValidProviders(providers)
    ensures DistinctKeys(RowKey, SortBy(RowKey, Rows(providers, classes, overlays)))
  {
    hide LookupKeys, ValidProvider, SortBy;
    var rows := Rows(providers, classes, overlays);
    RowsByProvider(providers, classes, overlays);
    RowIDs(classes, overlays);
    forall i, j | 0 <= i < j < |rows| ensures OtherRow(rows[i], rows[j]) {
      assert Separate(providers[i], providers[j]);
    }
    SortBySorts(RowKey, rows);
    PairwisePermutes(OtherRow, rows, SortBy(RowKey, rows));
    assert forall i, j :: 0 <= i < j < |rows| ==> OtherRow(SortBy(RowKey, rows)[i], SortBy(RowKey, rows)[j]);
  }

  lemma RowIDs(classes: set<Classification>, overlays: set<Overlay>)
    ensures forall p :: RowOf(p, classes, overlays).providerId == p
  {
  }

  /** Neither success nor the report depends on the order of providers, overlays or
      classifications. */
  lemma OrderIndependent(p: seq<Provider>, q: seq<Provider>, a: seq<Overlay>, b: seq<Overlay>,
                         c: seq<Classification>, d: seq<Classification>)
    requires multiset(p) == multiset(q) && multiset(a) == multiset(b) && multiset(c) == multiset(d)
    ensures BuildReport(p, a, c) == BuildReport(q, b, d)
  {
    hide ValidProviders, ValidOverlays, ValidClassifications, SortBy, Rows, DistinctKeys;
    if BuildReport(p, a, c).Report? {
      ReportPermutes(p, q, a, b, c, d);
    } else if BuildReport(q, b, d).Report? {
      ReportPermutes(q, p, b, a, d, c);
    }
  }

  lemma ReportPermutes(p: seq<Provider>, q: seq<Provider>, a: seq<Overlay>, b: seq<Overlay>,
                       c: seq<Classification>, d: seq<Classification>)
    requires multiset(p) == multiset(q) && multiset(a) == multiset(b) && multiset(c) == multiset(d)
    requires BuildReport(p, a, c).Report?
    ensures BuildReport(q, b, d) == BuildReport(p, a, c)
  {
    hide ValidProviders, ValidOverlays, ValidClassifications, SortBy, Rows, DistinctKeys;
    ProvidersPermute(p, q);
    OverlaysPermute(a, b, p, q);
    ClassificationsPermute(c, d, p, q);
    SameElements(a, b);
    SameElements(c, d);
    RowsPermute(p, q, Elements(c), Elements(a));
    RowsDistinct(p, Elements(c), Elements(a));
    RowsDistinct(q, Elements(c), Elements(a));
    SortOrderIndependent(RowKey, Rows(p, Elements(c), Elements(a)), Rows(q, Elements(c), Elements(a)));
  }

  /** The report has one row per provider, in order of ID. */
  lemma OneRowEach(providers: seq<Provider>, overlays: seq<Overlay>, classes: seq<Classification>)
    requires BuildReport(providers, overlays, classes).Report?
    ensures (var rows := BuildReport(providers, overlays, classes).rows;
             && Sorted(RowKey, rows) && DistinctKeys(RowKey, rows) && |rows| == |providers|
             && (forall p <- providers :: RowOf(p.id, Elements(classes), Elements(overlays)) in rows)
             && (forall r <- rows :: exists p <- providers :: r == RowOf(p.id, Elements(classes), Elements(overlays))))
  {
    hide ValidProviders, ValidOverlays, ValidClassifications, SortBy, Rows, Sorted, DistinctKeys, RowOf;
    var unsorted := Rows(providers, Elements(classes), Elements(overlays));
    RowsByProvider(providers, Elements(classes), Elements(overlays));
    RowsDistinct(providers, Elements(classes), Elements(overlays));
    SortBySorts(RowKey, unsorted);
    SameElements(unsorted, SortBy(RowKey, unsorted));
  }

  // ---------------------------------------------------------------- statuses

  ghost predicate Disagree(p: string, overlays: set<Overlay>) {
    exists a, b :: a in overlays && b in overlays && Clash(p, a, b)
  }

  ghost predicate Clash(p: string, a: Overlay, b: Overlay) {
    a.providerId == p == b.providerId && TrimSpace(a.specRefId) == TrimSpace(b.specRefId) && a.status != b.status
  }

  ghost predicate OnlyEvidence(classes: set<Classification>, overlays: set<Overlay>) {
    (forall c <- classes :: IsEvidence(c.status)) && (forall o <- overlays :: IsEvidence(o.status))
  }

  lemma TwoMembers(s: set<string>)
    ensures |s| > 1 <==> exists x, y :: x in s && y in s && x != y
  {
    if |s| > 1 {
      var x :| x in s;
      assert |s - {x}| > 0;
      var y :| y in s - {x};
    }
    if x, y :| x in s && y in s && x != y {
      assert {x, y} <= s;
      assert s == {x, y} + (s - {x, y});
    }
  }

  lemma OneMember(s: set<string>, x: string)
    requires x in s && |s| <= 1
    ensures s == {x} && SortedSet(s) == [x]
  {
    assert |s - {x}| == 0;
    assert s == {x};
    assert SortedSet(s)[0] in SortedSet(s);
  }

  lemma NotEvidence()
    ensures !IsEvidence(CONFLICT) && !IsEvidence(MIXED) && IsEvidence(UNKNOWN)
  {
  }

  /** A scope conflicts exactly when two of its overlays differ in status. */
  lemma ConflictAt(classes: set<Classification>, overlays: set<Overlay>)
    requires OnlyEvidence(classes, overlays)
    ensures Effective(classes, overlays) == CONFLICT
         <==> exists a, b :: a in overlays && b in overlays && a.status != b.status
    ensures Effective(classes, overlays) == CONFLICT || IsEvidence(Effective(classes, overlays))
  {
    hide SortedSet, IsEvidence;
    NotEvidence();
    var statuses := OverlayStatuses(overlays);
    TwoMembers(statuses);
    if x, y :| x in statuses && y in statuses && x != y {
      var a :| a in overlays && a.status == x;
      var b :| b in overlays && b.status == y;
    }
    forall o <- overlays ensures o.status in statuses {
    }
    if |statuses| == 1 {
      assert SortedSet(statuses)[0] in SortedSet(statuses);
      var o :| o in overlays && o.status == SortedSet(statuses)[0];
      assert IsEvidence(o.status);
    }
    BaselineEvidence(classes);
  }

  lemma BaselineEvidence(classes: set<Classification>)
    requires forall c <- classes :: IsEvidence(c.status)
    ensures classes != {} ==> IsEvidence(Baseline(classes))
  {
    hide IsEvidence;
  }

  lemma AtStatuses(p: string, scope: string, classes: set<Classification>, overlays: set<Overlay>)
    requires OnlyEvidence(classes, overlays)
    ensures OnlyEvidence(ClassesAt(p, scope, classes), OverlaysAt(p, scope, overlays))
  {
    hide TrimSpace, IsEvidence;
  }

  lemma InScopes(p: string, classes: set<Classification>, overlays: set<Overlay>, o: Overlay)
    requires o in overlays && o.providerId == p
    ensures TrimSpace(o.specRefId) in SortedSet(Scopes(p, classes, overlays))
    ensures o in OverlaysAt(p, TrimSpace(o.specRefId), overlays)
  {
    hide TrimSpace;
  }

  /** The effective statuses of a provider's scopes. */
  ghost function ScopeStatus(p: string, scope: string, classes: set<Classification>, overlays: set<Overlay>): string {
    Effective(ClassesAt(p, scope, classes), OverlaysAt(p, scope, overlays))
  }

  lemma DispositionsEach(p: string, scopes: seq<string>, classes: set<Classification>, overlays: set<Overlay>)
    ensures forall i :: 0 <= i < |scopes| ==>
              Dispositions(p, scopes, classes, overlays)[i].status == ScopeStatus(p, scopes[i], classes, overlays)
  {
    hide ClassesAt, OverlaysAt, Effective, OverlayStatuses, UniqueTexts, Baseline, OverlayIDs, References, Notes;
  }

  lemma DispositionStatuses(p: string, classes: set<Classification>, overlays: set<Overlay>)
    ensures (var ds := Dispositions(p, SortedSet(Scopes(p, classes, overlays)), classes, overlays);
             (set d | d in ds :: d.status)
             == set s | s in Scopes(p, classes, overlays) :: ScopeStatus(p, s, classes, overlays))
  {
    hide Scopes, ScopeStatus, Dispositions, SortedSet;
    var scopes := SortedSet(Scopes(p, classes, overlays));
    DispositionsEach(p, scopes, classes, overlays);
    var ds := Dispositions(p, scopes, classes, overlays);
    forall s <- Scopes(p, classes, overlays)
      ensures exists d <- ds :: d.status == ScopeStatus(p, s, classes, overlays)
    {
      assert s in scopes;
      var i :| 0 <= i < |scopes| && scopes[i] == s;
      assert ds[i] in ds && ds[i].status == ScopeStatus(p, s, classes, overlays);
    }
    forall d <- ds
      ensures exists s <- Scopes(p, classes, overlays) :: d.status == ScopeStatus(p, s, classes, overlays)
    {
      var i :| 0 <= i < |ds| && ds[i] == d;
      assert scopes[i] in scopes;
    }
  }

  /** A provider is in conflict exactly when two overlays of one of its scopes differ in
      status. */
  lemma ConflictExactly(p: string, classes: set<Classification>, overlays: set<Overlay>)
    requires OnlyEvidence(classes, overlays)
    ensures StatusOf(p, classes, overlays) == CONFLICT <==> Disagree(p, overlays)
  {
    hide TrimSpace, Scopes, Effective, SortedSet, OnlyEvidence, Dispositions;
    DispositionStatuses(p, classes, overlays);
    var scopes := Scopes(p, classes, overlays);
    var statuses := set s | s in scopes :: ScopeStatus(p, s, classes, overlays);
    forall s ensures ScopeStatus(p, s, classes, overlays) == CONFLICT <==>
                     exists a, b :: a in OverlaysAt(p, s, overlays) && b in OverlaysAt(p, s, overlays)
                       && a.status != b.status
             ensures ScopeStatus(p, s, classes, overlays) == CONFLICT
                     || IsEvidence(ScopeStatus(p, s, classes, overlays))
    {
      AtStatuses(p, s, classes, overlays);
      ConflictAt(ClassesAt(p, s, classes), OverlaysAt(p, s, overlays));
    }
    if Disagree(p, overlays) {
      var a, b :| a in overlays && b in overlays && Clash(p, a, b);
      InScopes(p, classes, overlays, a);
      InScopes(p, classes, overlays, b);
      assert ScopeStatus(p, TrimSpace(a.specRefId), classes, overlays) in statuses;
    }
    if CONFLICT in statuses {
      var s :| s in scopes && ScopeStatus(p, s, classes, overlays) == CONFLICT;
      var a, b :| a in OverlaysAt(p, s, overlays) && b in OverlaysAt(p, s, overlays) && a.status != b.status;
      assert Clash(p, a, b);
    } else if |statuses| == 1 {
      assert SortedSet(statuses)[0] in SortedSet(statuses);
    }
  }

  /** Without a conflict a provider is mixed exactly when two of its scopes differ. */
  lemma MixedExactly(p: string, classes: set<Classification>, overlays: set<Overlay>)
    requires OnlyEvidence(classes, overlays) && !Disagree(p, overlays)
    ensures StatusOf(p, classes, overlays) == MIXED <==>
            exists s, t :: s in Scopes(p, classes, overlays) && t in Scopes(p, classes, overlays)
              && ScopeStatus(p, s, classes, overlays) != ScopeStatus(p, t, classes, overlays)
    ensures forall s <- Scopes(p, classes, overlays) ::
              StatusOf(p, classes, overlays) == MIXED
                || StatusOf(p, classes, overlays) == ScopeStatus(p, s, classes, overlays)
    ensures Scopes(p, classes, overlays) == {} ==> StatusOf(p, classes, overlays) == UNKNOWN
  {
    hide TrimSpace, Scopes, Effective, SortedSet, OnlyEvidence, Dispositions, Disagree, ScopeStatus;
    ConflictExactly(p, classes, overlays);
    DispositionStatuses(p, classes, overlays);
    var scopes := Scopes(p, classes, overlays);
    var statuses := set s | s in scopes :: ScopeStatus(p, s, classes, overlays);
    TwoMembers(statuses);
    ScopeEvidence(p, classes, overlays);
    if |statuses| == 1 {
      assert SortedSet(statuses)[0] in SortedSet(statuses);
    }
    forall s <- scopes ensures ScopeStatus(p, s, classes, overlays) in statuses {
    }
    if |statuses| <= 1 {
      forall s <- scopes ensures SortedSet(statuses) == [ScopeStatus(p, s, classes, overlays)] {
        OneMember(statuses, ScopeStatus(p, s, classes, overlays));
      }
    }
  }

  lemma ScopeEvidence(p: string, classes: set<Classification>, overlays: set<Overlay>)
    requires OnlyEvidence(classes, overlays)
    ensures forall s :: ScopeStatus(p, s, classes, overlays) != MIXED
  {
    hide Effective, OnlyEvidence;
    forall s ensures ScopeStatus(p, s, classes, overlays) != MIXED {
      AtStatuses(p, s, classes, overlays);
      ConflictAt(ClassesAt(p, s, classes), OverlaysAt(p, s, overlays));
    }
  }

  /** Evidence of other providers does not matter. */
  lemma OwnEvidence(p: string, classes: set<Classification>, overlays: set<Overlay>)
    ensures StatusOf(p, ClassesOf(p, classes), OverlaysOf(p, overlays)) == StatusOf(p, classes, overlays)
  {
    hide TrimSpace, SortedSet, Aggregate;
    var cs, os := ClassesOf(p, classes), OverlaysOf(p, overlays);
    assert Scopes(p, cs, os) == Scopes(p, classes, overlays);
    forall s
      ensures ClassesAt(p, s, cs) == ClassesAt(p, s, classes) && OverlaysAt(p, s, os) == OverlaysAt(p, s, overlays)
    {
    }
    var scopes := SortedSet(Scopes(p, classes, overlays));
    assert Dispositions(p, scopes, cs, os) == Dispositions(p, scopes, classes, overlays);
  }

  /** Only recognised statuses are evidence in valid input. */
  lemma ValidEvidence(providers: seq<Provider>, overlays: seq<Overlay>, classes: seq<Classification>)
    requires BuildReport(providers, overlays, classes).Report?
    ensures OnlyEvidence(Elements(classes), Elements(overlays))
  {
    hide IsEvidence, KnownScope, Sourced, ReportOf, ValidProviders, ValidName;
  }

  /** In a report, a provider's row shows conflict exactly when two overlays in one of its
      scopes differ in status. */
  lemma ReportConflictExactly(providers: seq<Provider>, overlays: seq<Overlay>, classes: seq<Classification>, row: Row)
    requires BuildReport(providers, overlays, classes).Report?
    requires row in BuildReport(providers, overlays, classes).rows
    ensures row.status == CONFLICT <==> Disagree(row.providerId, Elements(overlays))
    ensures row.status == StatusOf(row.providerId, ClassesOf(row.providerId, Elements(classes)),
                                   OverlaysOf(row.providerId, Elements(overlays)))
  {
    hide BuildReport, StatusOf, Disagree, OnlyEvidence;
    OneRowEach(providers, overlays, classes);
    var p :| p in providers && row == RowOf(p.id, Elements(classes), Elements(overlays));
    ValidEvidence(providers, overlays, classes);
    ConflictExactly(p.id, Elements(classes), Elements(overlays));
    OwnEvidence(p.id, Elements(classes), Elements(overlays));
  }
}
