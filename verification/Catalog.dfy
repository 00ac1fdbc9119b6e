/** The records of the provider catalog and what its validators accept (catalog/provider.go,
    catalog/overlay.go, catalog/bundle.go, catalog/candidate.go). */
module Catalog {
  import opened Ordering
  import opened Text

  datatype SpecReference = SpecReference(id: string, url: string)

  /** `complete` stands for the checks of the record's enumerated fields. */
  datatype Provider = Provider(id: string, displayName: string, aliases: seq<string>,
                               specReferences: seq<SpecReference>, complete: bool)

  /** `complete` stands for the checks of the overlay's schemes and requirements. */
  datatype Overlay = Overlay(id: string, providerId: string, specRefId: string, status: string,
                             sourceRefs: seq<string>, sourceNote: string, complete: bool)

  datatype Classification = Classification(providerId: string, specRefId: string, status: string,
                                           sourceRefs: seq<string>, sourceNote: string)

  const UNKNOWN := "unknown"
  const MIXED := "mixed"
  const CONFLICT := "conflict"

  /** validAuthEvidenceStatus: the derived statuses are not evidence. */
  predicate IsEvidence(status: string) {
    status in {"complete", "present-incomplete", "absent", "overlay-required", "intentionally-anonymous", UNKNOWN}
  }

  predicate IsNameChar(c: char) {
    'a' <= c <= 'z' || '0' <= c <= '9' || c == '-'
  }

  /** validID */
  predicate ValidID(id: string) {
    && (forall k :: 0 <= k < |id| ==> IsNameChar(id[k]))
    && (id != "" ==> id[0] != '-' && id[|id| - 1] != '-')
    && forall k :: 0 <= k < |id| - 1 ==> !(id[k] == '-' && id[k + 1] == '-')
  }

  predicate ValidName(id: string) {
    TrimSpace(id) != "" && ValidID(id)
  }

  lemma ValidNameTrimmed(id: string)
    requires ValidID(id)
    ensures TrimSpace(id) == id && '\0' !in id
  {
    hide TrimSpace;
    if id != "" {
      assert IsNameChar(id[0]) && IsNameChar(id[|id| - 1]);
    }
    TrimSpaceFixes(id);
  }

  /** normalizeKey */
  function NormalizeKey(value: string): string {
    Join(Fields(ToLower(TrimSpace(value))), "-")
  }

  lemma LowerName(id: string)
    requires ValidID(id)
    ensures ToLower(id) == id && WordLength(id) == |id|
  {
    hide WordLength;
    var n := WordLength(id);
    forall k | 0 <= k < |id| ensures !IsSpace(id[k]) {
      assert IsNameChar(id[k]);
    }
    forall k | 0 <= k < |id| ensures ToLower(id)[k] == id[k] {
      assert IsNameChar(id[k]);
    }
  }

  lemma ValidNameNormalized(id: string)
    requires ValidName(id)
    ensures NormalizeKey(id) == id && id != ""
  {
    ValidNameTrimmed(id);
    LowerName(id);
    OneField(id);
  }

  lemma OneField(id: string)
    requires id != "" && WordLength(id) == |id|
    ensures Join(Fields(id), "-") == id
  {
    hide WordLength;
    assert id[..|id|] == id && Fields(id[|id|..]) == [];
    assert Fields(id) == [id] + [];
  }

  // ---------------------------------------------------------------- providers

  /** Provider.lookupKeys, whose order no caller uses. */
  function LookupKeys(p: Provider): set<string> {
    set v | v in [p.id, p.displayName] + p.aliases && NormalizeKey(v) != "" :: NormalizeKey(v)
  }

  predicate ValidSpec(ref: SpecReference) {
    ValidName(ref.id) && "https://" <= TrimSpace(ref.url)
  }

  predicate ValidProvider(p: Provider) {
    && ValidName(p.id) && TrimSpace(p.displayName) != "" && p.complete
    && (forall ref <- p.specReferences :: ValidSpec(ref))
    && (forall i, j :: 0 <= i < j < |p.specReferences| ==> p.specReferences[i].id != p.specReferences[j].id)
  }

  /** No two providers share an ID or a lookup key. */
  predicate Separate(p: Provider, q: Provider) {
    p.id != q.id && LookupKeys(p) * LookupKeys(q) == {}
  }

  /** What ValidateProviders accepts. */
  ghost predicate ValidProviders(providers: seq<Provider>) {
    (forall p <- providers :: ValidProvider(p)) && Pairwise(Separate, providers)
  }

  /** Provider.matches */
  predicate Matches(p: Provider, normalized: string) {
    normalized in LookupKeys(p)
  }

  lemma SharedKey(p: Provider, q: Provider, key: string)
    requires Matches(p, key) && Matches(q, key)
    ensures !Separate(p, q)
  {
    hide LookupKeys;
    assert key in LookupKeys(p) * LookupKeys(q);
  }

  /** At most one valid provider answers to a key. */
  lemma MatchUnique(providers: seq<Provider>, i: nat, j: nat, key: string)
    requires ValidProviders(providers) && i < |providers| && j < |providers|
    requires Matches(providers[i], key) && Matches(providers[j], key)
    ensures i == j
  {
    hide LookupKeys, ValidProvider;
    SharedKey(providers[i], providers[j], key);
    SharedKey(providers[j], providers[i], key);
    if i < j {
      PairwiseAt(Separate, providers, i, j);
    } else if j < i {
      PairwiseAt(Separate, providers, j, i);
    }
  }

  lemma OwnKey(p: Provider)
    requires ValidProvider(p)
    ensures Matches(p, p.id)
  {
    hide NormalizeKey;
    ValidNameNormalized(p.id);
    assert p.id in [p.id, p.displayName] + p.aliases;
  }

  // ---------------------------------------------------------------- evidence

  /** providerHasSpecRef */
  predicate HasSpec(p: Provider, id: string) {
    exists ref <- p.specReferences :: ref.id == id
  }

  predicate KnownScope(providerId: string, specRefId: string, providers: seq<Provider>) {
    && ValidName(providerId)
    && exists p <- providers ::
         p.id == providerId && (TrimSpace(specRefId) != "" ==> ValidID(specRefId) && HasSpec(p, specRefId))
  }

  predicate Sourced(sourceRefs: seq<string>, sourceNote: string) {
    && TrimSpace(sourceNote) != "" && sourceRefs != []
    && (forall r <- sourceRefs :: "https://" <= TrimSpace(r))
    && (forall i, j :: 0 <= i < j < |sourceRefs| ==> TrimSpace(sourceRefs[i]) != TrimSpace(sourceRefs[j]))
  }

  predicate ValidOverlay(o: Overlay, providers: seq<Provider>) {
    && ValidName(o.id) && KnownScope(o.providerId, o.specRefId, providers)
    && IsEvidence(o.status) && Sourced(o.sourceRefs, o.sourceNote) && o.complete
  }

  predicate ValidClassification(c: Classification, providers: seq<Provider>) {
    && KnownScope(c.providerId, c.specRefId, providers)
    && IsEvidence(c.status) && Sourced(c.sourceRefs, c.sourceNote)
  }

  /** What ValidateSecurityOverlays accepts: valid overlays with distinct IDs. */
  ghost predicate ValidOverlays(overlays: seq<Overlay>, providers: seq<Provider>) {
    (forall o <- overlays :: ValidOverlay(o, providers)) && Pairwise(OtherID, overlays)
  }

  predicate OtherID(a: Overlay, b: Overlay) {
    a.id != b.id
  }

  predicate OtherScope(a: Classification, b: Classification) {
    a.providerId != b.providerId || TrimSpace(a.specRefId) != TrimSpace(b.specRefId)
  }

  /** What ValidateSecurityClassifications accepts: one record for each scope. */
  ghost predicate ValidClassifications(classifications: seq<Classification>, providers: seq<Provider>) {
    (forall c <- classifications :: ValidClassification(c, providers)) && Pairwise(OtherScope, classifications)
  }

  // ---------------------------------------------------------------- the validators

  /** ValidateProviders, with its map of lookup keys. */
  method ValidateProviders(providers: seq<Provider>) returns (ok: bool)
    ensures ok <==> ValidProviders(providers)
  {
    hide LookupKeys, ValidProvider;
    var ids: set<string> := {};
    var keys: map<string, string> := map[];
    for i := 0 to |providers|
      invariant ids == set p | p in providers[..i] :: p.id
      invariant keys.Keys == set p, key | p in providers[..i] && key in LookupKeys(p) :: key
      invariant ValidProviders(providers[..i])
    {
      var p := providers[i];
      assert providers[..i + 1] == providers[..i] + [p];
      if !ValidProvider(p) || p.id in ids || LookupKeys(p) * keys.Keys != {} {
        Clash(providers, i);
        return false;
      }
      forall q <- providers[..i] ensures Separate(q, p) {
        assert q.id in ids;
        assert LookupKeys(q) <= keys.Keys;
        assert LookupKeys(q) * LookupKeys(p) <= LookupKeys(p) * keys.Keys;
      }
      ids := ids + {p.id};
      keys := keys + map key | key in LookupKeys(p) :: p.id;
    }
    assert providers[..|providers|] == providers;
    return true;
  }

  /** A provider that repeats an ID or key of an earlier one is refused. */
  lemma Clash(providers: seq<Provider>, i: nat)
    requires i < |providers|
    requires !ValidProvider(providers[i]) || exists q <- providers[..i] :: !Separate(q, providers[i])
    ensures !ValidProviders(providers)
  {
    hide ValidProvider, Separate;
    assert providers[i] in providers;
    if ValidProvider(providers[i]) {
      var q :| q in providers[..i] && !Separate(q, providers[i]);
      var j :| 0 <= j < i && providers[j] == q;
    }
  }

  method ValidateOverlays(overlays: seq<Overlay>, providers: seq<Provider>) returns (ok: bool)
    ensures ok <==> ValidOverlays(overlays, providers)
  {
    hide ValidOverlay;
    var ids: set<string> := {};
    for i := 0 to |overlays|
      invariant ids == set o | o in overlays[..i] :: o.id
      invariant ValidOverlays(overlays[..i], providers)
    {
      var o := overlays[i];
      assert overlays[..i + 1] == overlays[..i] + [o];
      if !ValidOverlay(o, providers) || o.id in ids {
        return false;
      }
      ids := ids + {o.id};
    }
    assert overlays[..|overlays|] == overlays;
    return true;
  }

  method ValidateClassifications(classifications: seq<Classification>, providers: seq<Provider>) returns (ok: bool)
    ensures ok <==> ValidClassifications(classifications, providers)
  {
    hide ValidClassification, TrimSpace;
    var scopes: set<(string, string)> := {};
    for i := 0 to |classifications|
      invariant scopes == set c | c in classifications[..i] :: (c.providerId, TrimSpace(c.specRefId))
      invariant ValidClassifications(classifications[..i], providers)
    {
      var c := classifications[i];
      assert classifications[..i + 1] == classifications[..i] + [c];
      if !ValidClassification(c, providers) || (c.providerId, TrimSpace(c.specRefId)) in scopes {
        return false;
      }
      scopes := scopes + {(c.providerId, TrimSpace(c.specRefId))};
    }
    assert classifications[..|classifications|] == classifications;
    return true;
  }
}
