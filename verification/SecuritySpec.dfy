/** The security report of catalog/report.go, stated over sets of evidence: nothing in this
    definition depends on the order in which overlays and classifications are given. */
module SecuritySpec {
  import opened Catalog
  import opened Ordering
  import opened Text

  datatype Disposition = Disposition(providerWide: bool, specRefId: string, status: string,
                                     classificationStatus: string,
                                     overlayStatus: string, conflictStatuses: seq<string>, overlayIds: seq<string>,
                                     sourceRefs: seq<string>, sourceNotes: seq<string>)

  datatype Row = Row(providerId: string, status: string, dispositions: seq<Disposition>, overlayIds: seq<string>,
                     specRefIds: seq<string>, sourceRefs: seq<string>, sourceNotes: seq<string>)

  function RowKey(r: Row): string {
    r.providerId
  }

  /** sortedUniqueStrings */
  ghost function UniqueTexts(values: set<string>): seq<string> {
    SortedSet(set v | v in values && TrimSpace(v) != "" :: TrimSpace(v))
  }

  // ---------------------------------------------------------------- one scope

  ghost function OverlayStatuses(overlays: set<Overlay>): set<string> {
    set o | o in overlays :: o.status
  }

  ghost function OverlayIDs(overlays: set<Overlay>): set<string> {
    set o | o in overlays :: o.id
  }

  ghost function References(classes: set<Classification>, overlays: set<Overlay>): set<string> {
    (set c, r | c in classes && r in c.sourceRefs :: r) + (set o, r | o in overlays && r in o.sourceRefs :: r)
  }

  ghost function Notes(classes: set<Classification>, overlays: set<Overlay>): set<string> {
    (set c | c in classes :: c.sourceNote) + (set o | o in overlays :: o.sourceNote)
  }

  /** The classification is the baseline; an overlay owns the status; overlays that disagree
      conflict. */
  ghost function Effective(classes: set<Classification>, overlays: set<Overlay>): string {
    var statuses := OverlayStatuses(overlays);
    if |statuses| > 1 then CONFLICT
    else if |statuses| == 1 then SortedSet(statuses)[0]
    else if classes != {} then Baseline(classes)
    else UNKNOWN
  }

  /** The status of the one classification of a scope. */
  ghost function Baseline(classes: set<Classification>): string {
    if classes == {} then "" else
      var c :| c in classes;
      c.status
  }

  ghost function DispositionOf(scope: string, classes: set<Classification>, overlays: set<Overlay>): Disposition {
    var statuses := OverlayStatuses(overlays);
    Disposition(scope == "", scope, Effective(classes, overlays), Baseline(classes),
                if |statuses| == 1 then SortedSet(statuses)[0] else "",
                if |statuses| > 1 then SortedSet(statuses) else [],
                UniqueTexts(OverlayIDs(overlays)), UniqueTexts(References(classes, overlays)),
                UniqueTexts(Notes(classes, overlays)))
  }

  // ---------------------------------------------------------------- one provider

  ghost function OverlaysOf(p: string, overlays: set<Overlay>): set<Overlay> {
    set o | o in overlays && o.providerId == p
  }

  ghost function OverlaysAt(p: string, scope: string, overlays: set<Overlay>): set<Overlay> {
    set o | o in overlays && o.providerId == p && TrimSpace(o.specRefId) == scope
  }

  ghost function ClassesOf(p: string, classes: set<Classification>): set<Classification> {
    set c | c in classes && c.providerId == p
  }

  ghost function ClassesAt(p: string, scope: string, classes: set<Classification>): set<Classification> {
    set c | c in classes && c.providerId == p && TrimSpace(c.specRefId) == scope
  }

  /** The scopes of a provider that have evidence; "" is the provider itself. */
  ghost function Scopes(p: string, classes: set<Classification>, overlays: set<Overlay>): set<string> {
    (set c | c in classes && c.providerId == p :: TrimSpace(c.specRefId))
    + (set o | o in overlays && o.providerId == p :: TrimSpace(o.specRefId))
  }

  ghost function Dispositions(p: string, scopes: seq<string>, classes: set<Classification>,
                              overlays: set<Overlay>): (r: seq<Disposition>)
    ensures |r| == |scopes|
  {
    seq(|scopes|, i requires 0 <= i < |scopes| =>
          DispositionOf(scopes[i], ClassesAt(p, scopes[i], classes), OverlaysAt(p, scopes[i], overlays)))
  }

  /** aggregateSecurityDispositionStatus */
  ghost function Aggregate(ds: seq<Disposition>): string {
    var statuses := set d | d in ds :: d.status;
    if CONFLICT in statuses then CONFLICT
    else if |statuses| > 1 then MIXED
    else if |statuses| == 1 then SortedSet(statuses)[0]
    else UNKNOWN
  }

  ghost function StatusOf(p: string, classes: set<Classification>, overlays: set<Overlay>): string {
    Aggregate(Dispositions(p, SortedSet(Scopes(p, classes, overlays)), classes, overlays))
  }

  ghost function RowOf(p: string, classes: set<Classification>, overlays: set<Overlay>): Row {
    Row(p, StatusOf(p, classes, overlays),
        Dispositions(p, SortedSet(Scopes(p, classes, overlays)), classes, overlays),
        UniqueTexts(OverlayIDs(OverlaysOf(p, overlays))),
        UniqueTexts(Scopes(p, classes, overlays)),
        UniqueTexts(References(ClassesOf(p, classes), OverlaysOf(p, overlays))),
        UniqueTexts(Notes(ClassesOf(p, classes), OverlaysOf(p, overlays))))
  }

  ghost function Rows(providers: seq<Provider>, classes: set<Classification>, overlays: set<Overlay>): seq<Row> {
    if providers == [] then []
    else [RowOf(providers[0].id, classes, overlays)] + Rows(providers[1..], classes, overlays)
  }

  ghost function ReportOf(providers: seq<Provider>, classes: set<Classification>, overlays: set<Overlay>): seq<Row> {
    SortBy(RowKey, Rows(providers, classes, overlays))
  }

  function Elements<T>(s: seq<T>): set<T> {
    set x | x in s
  }

  datatype Result = Report(rows: seq<Row>) | Invalid

  /** BuildSecurityReport */
  ghost function BuildReport(providers: seq<Provider>, overlays: seq<Overlay>,
                             classifications: seq<Classification>): Result {
    if ValidProviders(providers) && ValidOverlays(overlays, providers)
      && ValidClassifications(classifications, providers)
    then Report(ReportOf(providers, Elements(classifications), Elements(overlays)))
    else Invalid
  }
}
