/** The lookup index of catalog/index.go and the linear scans of catalog/catalog.go that it
    replaces. */
module CatalogIndex {
  import opened Catalog
  import opened Ordering
  import opened SecurityProofs
  import opened SecurityReport
  import opened SecuritySpec
  import opened Text
  import opened Wrappers

  function ProviderKey(p: Provider): string {
    p.id
  }

  /** sortProviders */
  function SortProviders(providers: seq<Provider>): seq<Provider> {
    SortBy(ProviderKey, providers)
  }

  /** The loop of Catalog.FindProvider over the sorted providers. */
  function FirstMatch(providers: seq<Provider>, normalized: string): Option<Provider> {
    if providers == [] then None
    else if Matches(providers[0], normalized) then Some(providers[0])
    else FirstMatch(providers[1..], normalized)
  }

  /** Catalog.FindProvider */
  function LinearFind(providers: seq<Provider>, key: string): Option<Provider> {
    if NormalizeKey(key) == "" then None else FirstMatch(SortProviders(providers), NormalizeKey(key))
  }

  /** The overlays of one provider, in the order of the list. */
  function OverlaysFor(overlays: seq<Overlay>, p: string): seq<Overlay> {
    if overlays == [] then []
    else OverlaysFor(overlays[..|overlays| - 1], p)
         + if overlays[|overlays| - 1].providerId == p then [overlays[|overlays| - 1]] else []
  }

  datatype Index = Index(providers: seq<Provider>, overlays: seq<Overlay>,
                         providerByLookup: map<string, nat>, specByProvider: map<string, map<string, nat>>,
                         overlaysByProvider: map<string, seq<nat>>,
                         report: seq<Row>, securityByProvider: map<string, nat>)
  {
    /** Positions in the maps point into the lists. */
    ghost predicate Valid() {
      && (forall key <- providerByLookup :: providerByLookup[key] < |providers|)
      && (forall p <- specByProvider :: exists i :: 0 <= i < |providers| && providers[i].id == p)
      && (forall p <- overlaysByProvider :: InRange(overlaysByProvider[p], |overlays|))
      && (forall p <- securityByProvider :: securityByProvider[p] < |report|)
    }

    function FindProvider(key: string): Option<Provider>
      requires Valid()
    {
      var k := NormalizeKey(key);
      if k in providerByLookup then Some(providers[providerByLookup[k]]) else None
    }

    /** The last lookup uses the provider ID as it was given. */
    function FindSpecReference(providerId: string, specRefId: string): Option<SpecReference>
      requires Valid()
    {
      var k := NormalizeKey(providerId);
      if k !in providerByLookup || providers[providerByLookup[k]].id != TrimSpace(providerId) then None
      else if providerId !in specByProvider || TrimSpace(specRefId) !in specByProvider[providerId] then None
      else
        var position := specByProvider[providerId][TrimSpace(specRefId)];
        var refs := providers[providerByLookup[k]].specReferences;
        if position < |refs| then Some(refs[position]) else None
    }

    function SecurityOverlaysForProvider(providerId: string): seq<Overlay>
      requires Valid()
    {
      var p := TrimSpace(providerId);
      if p in overlaysByProvider then At(overlays, overlaysByProvider[p]) else []
    }

    function SecurityForProvider(providerId: string): Option<Row>
      requires Valid()
    {
      var p := TrimSpace(providerId);
      if p in securityByProvider then Some(report[securityByProvider[p]]) else None
    }
  }

  predicate InRange(positions: seq<nat>, n: nat) {
    forall i :: 0 <= i < |positions| ==> positions[i] < n
  }

  function At<T>(s: seq<T>, positions: seq<nat>): seq<T>
    requires InRange(positions, |s|)
  {
    seq(|positions|, i requires 0 <= i < |positions| => s[positions[i]])
  }

  // ---------------------------------------------------------------- building the index

  /** What the loops of NewCatalogIndex put into the maps. */
  ghost predicate LooksUp(m: map<string, nat>, providers: seq<Provider>) {
    && (forall key <- m :: m[key] < |providers| && key in LookupKeys(providers[m[key]]))
    && (forall i :: 0 <= i < |providers| ==> LookupKeys(providers[i]) <= m.Keys)
  }

  ghost predicate IndexesSpecs(m: map<string, nat>, refs: seq<SpecReference>) {
    && (forall s <- m :: m[s] < |refs| && refs[m[s]].id == s)
    && (forall i :: 0 <= i < |refs| ==> refs[i].id in m)
  }

  ghost predicate IndexesAllSpecs(m: map<string, map<string, nat>>, providers: seq<Provider>) {
    && (forall p <- m :: exists i :: 0 <= i < |providers| && providers[i].id == p)
    && (forall i :: 0 <= i < |providers| ==>
          providers[i].id in m && IndexesSpecs(m[providers[i].id], providers[i].specReferences))
  }

  ghost predicate GroupsOverlays(m: map<string, seq<nat>>, overlays: seq<Overlay>) {
    && (forall p <- m :: InRange(m[p], |overlays|))
    && (forall p :: OverlaysFor(overlays, p) == if p in m then At(overlays, m[p]) else [])
  }

  ghost predicate IndexesRows(m: map<string, nat>, rows: seq<Row>) {
    && (forall p <- m :: m[p] < |rows| && rows[m[p]].providerId == p)
    && (forall i :: 0 <= i < |rows| ==> rows[i].providerId in m)
  }

  /** The index of a catalog. */
  ghost predicate Indexes(index: Index, providers: seq<Provider>, overlays: seq<Overlay>,
                          classes: seq<Classification>) {
    && BuildReport(providers, overlays, classes) == Report(index.report)
    && index.providers == SortProviders(providers) && index.overlays == SortOverlays(overlays)
    && LooksUp(index.providerByLookup, index.providers)
    && IndexesAllSpecs(index.specByProvider, index.providers)
    && GroupsOverlays(index.overlaysByProvider, index.overlays)
    && IndexesRows(index.securityByProvider, index.report)
  }

  method IndexLookups(providers: seq<Provider>) returns (m: map<string, nat>)
    ensures LooksUp(m, providers)
  {
    hide LookupKeys;
    m := map[];
    for i := 0 to |providers|
      invariant LooksUp(m, providers[..i])
    {
      m := m + map key | key in LookupKeys(providers[i]) :: i;
    }
    assert providers[..|providers|] == providers;
  }

  method IndexSpecs(refs: seq<SpecReference>) returns (m: map<string, nat>)
    ensures IndexesSpecs(m, refs)
  {
    m := map[];
    for i := 0 to |refs|
      invariant IndexesSpecs(m, refs[..i])
    {
      m := m[refs[i].id := i];
    }
    assert refs[..|refs|] == refs;
  }

  method IndexAllSpecs(providers: seq<Provider>) returns (m: map<string, map<string, nat>>)
    requires forall i, j :: 0 <= i < j < |providers| ==> providers[i].id != providers[j].id
    ensures IndexesAllSpecs(m, providers)
  {
    hide IndexesSpecs;
    m := map[];
    for i := 0 to |providers|
      invariant IndexesAllSpecs(m, providers[..i])
    {
      var specs := IndexSpecs(providers[i].specReferences);
      m := m[providers[i].id := specs];
      assert providers[..i + 1][i] == providers[i];
      assert forall j :: 0 <= j < i ==> providers[..i + 1][j] == providers[..i][j];
    }
    assert providers[..|providers|] == providers;
  }

  lemma GroupOne(m: map<string, seq<nat>>, overlays: seq<Overlay>, o: Overlay)
    requires GroupsOverlays(m, overlays)
    ensures GroupsOverlays(m[o.providerId := (if o.providerId in m then m[o.providerId] else []) + [|overlays|]],
                           overlays + [o])
  {
    hide OverlaysFor;
    var before := if o.providerId in m then m[o.providerId] else [];
    var after := m[o.providerId := before + [|overlays|]];
    var all := overlays + [o];
    forall p <- after ensures InRange(after[p], |all|) {
      assert p != o.providerId ==> InRange(m[p], |overlays|);
      assert InRange(before, |overlays|);
    }
    forall p ensures OverlaysFor(all, p) == if p in after then At(all, after[p]) else [] {
      OverlaysSnoc(overlays, o, p);
      if p == o.providerId {
        assert At(all, after[p]) == At(overlays, before) + [o];
      } else if p in m {
        assert At(all, m[p]) == At(overlays, m[p]);
      }
    }
  }

  lemma OverlaysSnoc(overlays: seq<Overlay>, o: Overlay, p: string)
    ensures OverlaysFor(overlays + [o], p) == OverlaysFor(overlays, p) + if o.providerId == p then [o] else []
  {
    assert (overlays + [o])[..|overlays|] == overlays;
  }

  method GroupOverlays(overlays: seq<Overlay>) returns (m: map<string, seq<nat>>)
    ensures GroupsOverlays(m, overlays)
  {
    hide GroupsOverlays;
    m := map[];
    NoGroups();
    assert overlays[..0] == [];
    for i := 0 to |overlays|
      invariant GroupsOverlays(m, overlays[..i])
    {
      var owner := overlays[i].providerId;
      GroupOne(m, overlays[..i], overlays[i]);
      assert overlays[..i + 1] == overlays[..i] + [overlays[i]];
      m := m[owner := (if owner in m then m[owner] else []) + [i]];
    }
    assert overlays[..|overlays|] == overlays;
  }

  lemma NoGroups()
    ensures GroupsOverlays(map[], [])
  {
  }

  method IndexRows(rows: seq<Row>) returns (m: map<string, nat>)
    ensures IndexesRows(m, rows)
  {
    m := map[];
    for i := 0 to |rows|
      invariant IndexesRows(m, rows[..i])
    {
      m := m[rows[i].providerId := i];
    }
    assert rows[..|rows|] == rows;
  }

  lemma SortedProvidersValid(providers: seq<Provider>)
    requires ValidProviders(providers)
    ensures ValidProviders(SortProviders(providers))
    ensures (var s := SortProviders(providers); forall i, j :: 0 <= i < j < |s| ==> s[i].id != s[j].id)
  {
    hide ValidProvider, LookupKeys, SortBy;
    SortBySorts(ProviderKey, providers);
    ProvidersPermute(providers, SortProviders(providers));
    var s := SortProviders(providers);
    assert forall i, j :: 0 <= i < j < |s| ==> Separate(s[i], s[j]);
  }

  lemma IndexesMeansValid(index: Index, providers: seq<Provider>, overlays: seq<Overlay>, classes: seq<Classification>)
    requires Indexes(index, providers, overlays, classes)
    ensures index.Valid()
  {
    hide BuildReport, SortProviders, SortOverlays, LookupKeys;
  }

  /** NewCatalogIndex: refuses what validation refuses, and otherwise indexes the catalog. */
  method NewCatalogIndex(providers: seq<Provider>, overlays: seq<Overlay>, classes: seq<Classification>)
    returns (r: Option<Index>)
    ensures r.None? <==> BuildReport(providers, overlays, classes).Invalid?
    ensures r.Some? ==> r.value.Valid() && Indexes(r.value, providers, overlays, classes)
  {
    hide ReportOf, SortProviders, SortOverlays, LooksUp, IndexesAllSpecs, GroupsOverlays, IndexesRows, ValidProviders,
         ValidOverlays, ValidClassifications;
    var report := BuildSecurityReport(providers, overlays, classes);
    if report.Invalid? {
      return None;
    }
    SortedProvidersValid(providers);
    var sorted, listed := SortProviders(providers), SortOverlays(overlays);
    var lookups := IndexLookups(sorted);
    var specs := IndexAllSpecs(sorted);
    var groups := GroupOverlays(listed);
    var rows := IndexRows(report.rows);
    var index := Index(sorted, listed, lookups, specs, groups, report.rows, rows);
    IndexesMeansValid(index, providers, overlays, classes);
    return Some(index);
  }

  // ---------------------------------------------------------------- agreement

  lemma {:induction false} FirstMatchIs(providers: seq<Provider>, normalized: string)
    ensures FirstMatch(providers, normalized).None? <==> forall p <- providers :: !Matches(p, normalized)
    ensures FirstMatch(providers, normalized).Some? ==>
              FirstMatch(providers, normalized).value in providers
                && Matches(FirstMatch(providers, normalized).value, normalized)
  {
    hide Matches;
    if providers != [] {
      FirstMatchIs(providers[1..], normalized);
    }
  }

  lemma KeysNotEmpty(p: Provider)
    ensures "" !in LookupKeys(p)
  {
    hide NormalizeKey;
  }

  /** For every key, the index finds the provider that the linear scan finds. */
  lemma FindProviderAgrees(index: Index, providers: seq<Provider>, overlays: seq<Overlay>,
                           classes: seq<Classification>, key: string)
    requires Indexes(index, providers, overlays, classes)
    ensures index.Valid() && index.FindProvider(key) == LinearFind(providers, key)
  {
    hide BuildReport, SortProviders, SortOverlays, LookupKeys, IndexesAllSpecs, GroupsOverlays, IndexesRows,
         NormalizeKey, ValidProviders;
    IndexesMeansValid(index, providers, overlays, classes);
    ReportedValid(providers, overlays, classes);
    SortedProvidersValid(providers);
    var k := NormalizeKey(key);
    FirstMatchIs(index.providers, k);
    if k in index.providerByLookup {
      var i := index.providerByLookup[k];
      KeysNotEmpty(index.providers[i]);
      assert Matches(index.providers[i], k) && index.providers[i] in index.providers;
      var found := FirstMatch(index.providers, k).value;
      var j :| 0 <= j < |index.providers| && index.providers[j] == found;
      MatchUnique(index.providers, i, j, k);
    } else {
      forall p <- index.providers ensures !Matches(p, k) {
        var j :| 0 <= j < |index.providers| && index.providers[j] == p;
      }
    }
  }

  lemma ReportedValid(providers: seq<Provider>, overlays: seq<Overlay>, classes: seq<Classification>)
    requires BuildReport(providers, overlays, classes).Report?
    ensures ValidProviders(providers) && ValidOverlays(overlays, providers) && ValidClassifications(classes, providers)
  {
    hide ReportOf, ValidProviders, ValidOverlays, ValidClassifications;
  }

  /** The overlay lookup is the sorted list filtered by provider. */
  lemma OverlayLookupAgrees(index: Index, providers: seq<Provider>, overlays: seq<Overlay>,
                            classes: seq<Classification>, p: string)
    requires Indexes(index, providers, overlays, classes)
    ensures index.Valid() && index.SecurityOverlaysForProvider(p) == OverlaysFor(SortOverlays(overlays), TrimSpace(p))
  {
    hide BuildReport, SortProviders, SortOverlays, LooksUp, IndexesAllSpecs, IndexesRows, TrimSpace, OverlaysFor;
    IndexesMeansValid(index, providers, overlays, classes);
  }

  /** The security lookup gives the row of exactly that provider. */
  lemma SecurityLookupAgrees(index: Index, providers: seq<Provider>, overlays: seq<Overlay>,
                             classes: seq<Classification>, p: string)
    requires Indexes(index, providers, overlays, classes)
    ensures index.Valid()
    ensures index.SecurityForProvider(p)
         == if exists q <- providers :: q.id == TrimSpace(p)
            then Some(RowOf(TrimSpace(p), Elements(classes), Elements(overlays))) else None
  {
    hide BuildReport, SortProviders, SortOverlays, LooksUp, IndexesAllSpecs, GroupsOverlays, TrimSpace, RowOf,
         DistinctKeys, Sorted;
    IndexesMeansValid(index, providers, overlays, classes);
    OneRowEach(providers, overlays, classes);
    var id := TrimSpace(p);
    RowNames(Elements(classes), Elements(overlays));
    if id in index.securityByProvider {
      var row := index.report[index.securityByProvider[id]];
      assert row in index.report;
    } else {
      forall q <- providers ensures q.id != id {
        var row := RowOf(q.id, Elements(classes), Elements(overlays));
        assert row in index.report;
        var i :| 0 <= i < |index.report| && index.report[i] == row;
      }
    }
  }

  lemma RowNames(classes: set<Classification>, overlays: set<Overlay>)
    ensures forall p :: RowOf(p, classes, overlays).providerId == p
  {
    hide StatusOf, Dispositions, UniqueTexts;
  }

  /** A spec reference is found exactly when the provider ID is given without surrounding
      white space and that provider has the reference. */
  lemma SpecLookupExactly(index: Index, providers: seq<Provider>, overlays: seq<Overlay>, classes: seq<Classification>,
                          p: string, s: string)
    requires Indexes(index, providers, overlays, classes)
    ensures index.Valid()
    ensures index.FindSpecReference(p, s).Some? <==>
            exists q <- providers :: q.id == p && HasSpec(q, TrimSpace(s))
    ensures index.FindSpecReference(p, s).Some? ==> index.FindSpecReference(p, s).value.id == TrimSpace(s)
  {
    hide BuildReport, SortOverlays, LookupKeys, GroupsOverlays, IndexesRows, TrimSpace, NormalizeKey, ValidProviders,
         SortBy, HasSpec, IndexesSpecs, SortProviders, Index.FindSpecReference, Index.Valid, LooksUp;
    IndexesMeansValid(index, providers, overlays, classes);
    ReportedValid(providers, overlays, classes);
    SortedProvidersValid(providers);
    SortedMembers(providers);
    if p in index.specByProvider {
      var i :| 0 <= i < |index.providers| && index.providers[i].id == p;
      SpecFound(index, i, s);
      SpecHeld(index.providers[i], index.specByProvider[p], TrimSpace(s));
      assert index.providers[i] in providers;
      forall other <- providers | other.id == p ensures other == index.providers[i] {
        var k :| 0 <= k < |index.providers| && index.providers[k] == other;
        assert k == i;
      }
    } else {
      NoSpecs(index, p, s);
      forall q <- providers ensures q.id != p {
        var i :| 0 <= i < |index.providers| && index.providers[i] == q;
      }
    }
  }

  lemma NoSpecs(index: Index, p: string, s: string)
    requires index.Valid() && p !in index.specByProvider
    ensures index.FindSpecReference(p, s).None?
  {
    hide TrimSpace, NormalizeKey;
  }

  lemma SortedMembers(providers: seq<Provider>)
    ensures forall p :: p in SortProviders(providers) <==> p in providers
  {
    hide SortBy;
    SortBySorts(ProviderKey, providers);
    SameElements(providers, SortProviders(providers));
  }

  /** The lookup under the ID of provider `i`. */
  lemma SpecFound(index: Index, i: nat, s: string)
    requires index.Valid() && ValidProviders(index.providers) && LooksUp(index.providerByLookup, index.providers)
    requires IndexesAllSpecs(index.specByProvider, index.providers) && i < |index.providers|
    ensures (var p := index.providers[i].id;
             p in index.specByProvider
             && IndexesSpecs(index.specByProvider[p], index.providers[i].specReferences)
             && index.FindSpecReference(p, s)
                == if TrimSpace(s) in index.specByProvider[p]
                   then Some(index.providers[i].specReferences[index.specByProvider[p][TrimSpace(s)]]) else None)
  {
    hide LookupKeys, TrimSpace, NormalizeKey, ValidProviders;
    var p := index.providers[i].id;
    ProviderNamed(index.providers, i);
    OwnKeyOf(index.providers, index.providerByLookup[p], i, p);
  }

  lemma SpecHeld(q: Provider, m: map<string, nat>, s: string)
    requires IndexesSpecs(m, q.specReferences)
    ensures s in m <==> HasSpec(q, s)
    ensures s in m ==> m[s] < |q.specReferences| && q.specReferences[m[s]].id == s
  {
    SpecIn(m, q.specReferences, s);
  }

  lemma ProviderNamed(providers: seq<Provider>, i: nat)
    requires ValidProviders(providers) && i < |providers|
    ensures (var id := providers[i].id; NormalizeKey(id) == id && TrimSpace(id) == id && id in LookupKeys(providers[i]))
  {
    hide LookupKeys, NormalizeKey, TrimSpace, ValidID;
    assert providers[i] in providers;
    assert ValidProvider(providers[i]);
    OwnKey(providers[i]);
    ValidNameNormalized(providers[i].id);
    ValidNameTrimmed(providers[i].id);
  }

  lemma OwnKeyOf(providers: seq<Provider>, i: nat, j: nat, key: string)
    requires ValidProviders(providers) && i < |providers| && j < |providers|
    requires key in LookupKeys(providers[i]) && key in LookupKeys(providers[j])
    ensures i == j
  {
    hide LookupKeys, ValidProviders;
    MatchUnique(providers, i, j, key);
  }

  lemma SpecIn(m: map<string, nat>, refs: seq<SpecReference>, s: string)
    requires IndexesSpecs(m, refs)
    ensures s in m <==> exists ref <- refs :: ref.id == s
    ensures s in m ==> m[s] < |refs| && refs[m[s]].id == s
  {
    if s in m {
      assert refs[m[s]] in refs;
    }
  }

  /** White space around a provider ID hides its spec references, though the overlay and
      security lookups ignore it. */
  lemma SpacedProviderHidesSpecs(index: Index, providers: seq<Provider>, overlays: seq<Overlay>,
                                 classes: seq<Classification>, s: string)
    requires Indexes(index, providers, overlays, classes)
    requires exists q <- providers :: q.id == "slack" && HasSpec(q, TrimSpace(s))
    ensures index.Valid() && index.FindSpecReference("slack", s).Some? && index.FindSpecReference(" slack", s).None?
    ensures index.SecurityForProvider(" slack") == index.SecurityForProvider("slack")
  {
    hide BuildReport, TrimSpace, HasSpec, LooksUp, IndexesAllSpecs, GroupsOverlays, IndexesRows, SortProviders,
         SortOverlays;
    SpecLookupExactly(index, providers, overlays, classes, "slack", s);
    SpecLookupExactly(index, providers, overlays, classes, " slack", s);
    NoSpacedName(providers, overlays, classes);
    SpacedSlack();
    SameSecurity(index, "slack", " slack");
  }

  lemma SameSecurity(index: Index, p: string, q: string)
    requires index.Valid() && TrimSpace(p) == TrimSpace(q)
    ensures index.SecurityForProvider(p) == index.SecurityForProvider(q)
  {
    hide TrimSpace;
  }

  lemma SpacedSlack()
    ensures TrimSpace(" slack") == TrimSpace("slack")
  {
    assert " slack"[1..] == "slack";
    assert TrimLeft(" slack") == TrimLeft("slack");
  }

  lemma NoSpacedName(providers: seq<Provider>, overlays: seq<Overlay>, classes: seq<Classification>)
    requires BuildReport(providers, overlays, classes).Report?
    ensures forall q <- providers :: q.id != " slack"
  {
    hide ReportOf, ValidOverlays, ValidClassifications, LookupKeys, TrimSpace;
    forall q <- providers ensures q.id != " slack" {
      assert ValidProvider(q);
      assert !IsNameChar(" slack"[0]);
    }
  }

  const SLACK := Provider("slack", "Slack", [], [SpecReference("web-api", "https://api.slack.com/specs/openapi")], true)

  lemma SlackNames()
    ensures ValidName("slack") && ValidName("web-api") && TrimSpace("Slack") != "" && TrimSpace("web-api") == "web-api"
    ensures "https://" <= TrimSpace("https://api.slack.com/specs/openapi")
  {
    hide TrimSpace;
    TrimSpaceFixes("slack");
    TrimSpaceFixes("Slack");
    TrimSpaceFixes("web-api");
    TrimSpaceFixes("https://api.slack.com/specs/openapi");
  }

  lemma SlackValid()
    ensures ValidProviders([SLACK]) && HasSpec(SLACK, "web-api")
  {
    hide TrimSpace, LookupKeys, ValidName;
    SlackNames();
    assert SLACK.specReferences[0] in SLACK.specReferences;
  }

  lemma NoEvidence(providers: seq<Provider>)
    ensures ValidOverlays([], providers) && ValidClassifications([], providers)
  {
  }

  /** A catalog of one provider that is accepted and shows it. */
  lemma SpacedSlackMissed(index: Index)
    ensures BuildReport([SLACK], [], []).Report?
    ensures Indexes(index, [SLACK], [], []) ==>
              && index.Valid() && index.FindSpecReference("slack", "web-api").Some?
              && index.FindSpecReference(" slack", "web-api").None?
              && index.SecurityForProvider(" slack") == index.SecurityForProvider("slack")
  {
    hide Indexes, ValidProviders, ValidOverlays, ValidClassifications, TrimSpace, ReportOf, HasSpec;
    SlackValid();
    SlackNames();
    NoEvidence([SLACK]);
    assert SLACK in [SLACK];
    if Indexes(index, [SLACK], [], []) {
      SpacedProviderHidesSpecs(index, [SLACK], [], [], "web-api");
    }
  }
}
