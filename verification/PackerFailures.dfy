/** What a ranking that fails reports: the first of the limits that it breaks. */
module PackerFailures {
  import opened PackerProofs
  import opened PackerSpec
  import opened RankedContext
  import opened Text

  function Problem(code: string, path: string): Diagnostic {
    Diagnostic(Error, code, path)
  }

  /** Sanitizing changes the path or the operation ID of the reference. */
  predicate Unclean(env: Env, ref: Ref) {
    env.sanitize(ref.documentPath, env.budget.maxTextRunes).1
    || env.sanitize(ref.operationId, env.budget.maxIdentifierRunes).1
  }

  ghost predicate FirstUnclean(env: Env, refs: seq<Ref>, i: nat) {
    i < |refs| && Unclean(env, refs[i]) && forall j :: 0 <= j < i ==> !Unclean(env, refs[j])
  }

  /** Document `k` is the one that brings more operations than the budget allows. */
  ghost predicate Overflows(env: Env, docs: seq<Document>, k: nat) {
    k < |docs| && TotalOperations(docs[..k]) <= env.budget.maxOperations < TotalOperations(docs[..k + 1])
  }

  function QueryWarning(env: Env, opts: Options): seq<Diagnostic> {
    if env.sanitize(opts.query, env.budget.maxTextRunes).1
    then [Diagnostic(Warning, "prompt.query_sanitized", "")] else []
  }

  ghost predicate ReportsOnly(r: Report, diagnostics: seq<Diagnostic>) {
    r.diagnostics == diagnostics && r.bytes == 0 && r.selectedOperations == 0
  }

  ghost predicate RefusesReference(env: Env, opts: Options, r: Report) {
    exists i: nat :: FirstUnclean(env, opts.selected, i)
      && ReportsOnly(r, [Problem("prompt.selection_sanitized", opts.selected[i].documentPath)])
  }

  ghost predicate RefusesWork(env: Env, docs: seq<Document>, opts: Options, r: Report) {
    exists k: nat :: Overflows(env, docs, k)
      && ReportsOnly(r, QueryWarning(env, opts) + DocumentWarnings(env, docs[..k])
                        + [Problem("prompt.operation_count", "")])
  }

  /** The operations that references name do not fit together. */
  ghost predicate RefusesSelected(env: Env, docs: seq<Document>, opts: Options, r: Report, order: seq<Place>) {
    && IsRanking(env, opts, docs, order) && (forall p <- order :: In(docs, p))
    && var named := set p | p in order && Named(opts, docs, p);
    && r.bytes == Encoded(env, Context(env, docs, order, named, 0)) > env.budget.maxContextBytes
    && r.diagnostics == InputWarnings(env, docs, opts) + [Problem("prompt.selected_budget", "")]
    && r.selectedOperations == |named|
  }

  ghost predicate Refuses(env: Env, docs: seq<Document>, opts: Options, r: Report, order: seq<Place>) {
    if |docs| > env.budget.maxOperations then ReportsOnly(r, [Problem("prompt.document_count", "")])
    else if |opts.selected| > env.budget.maxOperations then ReportsOnly(r, [Problem("prompt.selection_count", "")])
    else if exists ref <- opts.selected :: Unclean(env, ref) then RefusesReference(env, opts, r)
    else if TotalOperations(docs) > env.budget.maxOperations then RefusesWork(env, docs, opts, r)
    else if exists d <- InputWarnings(env, docs, opts) :: d.severity == Error
      then ReportsOnly(r, InputWarnings(env, docs, opts))
    else RefusesSelected(env, docs, opts, r, order)
  }

  lemma UnsafeIs(env: Env, refs: seq<Ref>)
    ensures forall ref :: UnsafeRef(env, ref) <==> Unclean(env, ref)
    ensures FirstUnsafe(env, refs) < |refs| <==> exists ref <- refs :: Unclean(env, ref)
    ensures FirstUnsafe(env, refs) < |refs| ==> FirstUnclean(env, refs, FirstUnsafe(env, refs))
  {
    if FirstUnsafe(env, refs) < |refs| {
      assert refs[FirstUnsafe(env, refs)] in refs;
    }
  }

  lemma {:induction false} TotalAppends(docs: seq<Document>, k: nat)
    requires 0 < k <= |docs|
    ensures TotalOperations(docs[..k]) == |docs[0].operations| + TotalOperations(docs[1..][..k - 1])
  {
    assert docs[..k][1..] == docs[1..][..k - 1];
  }

  /** Where the scan stops, and what it has warned of by then. */
  lemma {:induction false} ScanStops(env: Env, docs: seq<Document>, count: nat) returns (k: nat)
    requires count <= env.budget.maxOperations && ScanDocuments(env, docs, count).overflow
    ensures k < |docs| && count + TotalOperations(docs[..k]) <= env.budget.maxOperations
    ensures env.budget.maxOperations < count + TotalOperations(docs[..k + 1])
    ensures ScanDocuments(env, docs, count).diagnostics
         == DocumentWarnings(env, docs[..k]) + [Problem("prompt.operation_count", "")]
    decreases |docs|
  {
    hide MetadataDiagnostics, SanitizeMetadata, Clean, Changed;
    if |docs[0].operations| > env.budget.maxOperations - count {
      k := 0;
      assert docs[..0] == [] && docs[..1] == [docs[0]] && docs[..1][1..] == [];
    } else {
      var rest := ScanStops(env, docs[1..], count + |docs[0].operations|);
      k := rest + 1;
      TotalAppends(docs, k);
      TotalAppends(docs, k + 1);
      assert docs[..k][1..] == docs[1..][..rest] && docs[..k][0] == docs[0];
      OneWarning(env, docs[0]);
    }
  }

  lemma OneWarning(env: Env, doc: Document)
    ensures MetadataDiagnostics(env, doc.meta)
         == if Changed(env, doc.meta)
            then [Diagnostic(Warning, "prompt.document_sanitized",
                             FirstNonEmpty(Clean(env, doc.meta).relativePath, Clean(env, doc.meta).path))]
            else []
  {
    hide FirstNonEmpty;
  }

  /** The selected operations that do not fit, as those that references name. */
  lemma SelectedRefused(env: Env, docs: seq<Document>, opts: Options) returns (order: seq<Place>)
    requires FlagsControls(env) && !ScanDocuments(env, docs, 0).overflow
    requires forall ref <- opts.selected :: !UnsafeRef(env, ref)
    ensures IsRanking(env, opts, docs, order) && (forall p <- order :: In(docs, p))
    ensures (var ranked, safe := Shortlist(env, docs, opts), ScanDocuments(env, docs, 0).docs;
             var named := set p | p in order && Named(opts, docs, p);
             && Cost(env, safe, ranked, SelectedOf(ranked)) == Encoded(env, Context(env, docs, order, named, 0))
             && CountSelected(ranked, |ranked|) == |named|)
  {
    hide *;
    var ranked, safe := Shortlist(env, docs, opts), ScanDocuments(env, docs, 0).docs;
    order := RankingOf(env, docs, opts);
    ScanIs(env, docs, 0);
    ShortlistIs(env, docs, opts);
    DistinctOf(ranked, docs);
    RankingMeans(env, opts, docs, order);
    MirrorsMean(env, opts, docs, ranked, order);
    SelectedCounted(env, opts, docs, ranked, order, |order|);
    NoneNamed(opts, docs, order);
    var named := NamedUpTo(opts, docs, order, |order|);
    NamedIncluded(env, opts, docs, ranked, order);
    BuildMirrors(env, opts, docs, safe, ranked, order, SelectedOf(ranked), named, 0);
    CostIs(env, safe, ranked, SelectedOf(ranked));
    SizeIs(env, Context(env, docs, order, named, 0));
  }

  lemma MirrorsMean(env: Env, opts: Options, docs: seq<Document>, ranked: seq<Candidate>, order: seq<Place>)
    requires Mirrors(env, opts, docs, ranked, order)
    ensures |order| == |ranked|
  {
  }

  lemma CostIs(env: Env, safe: seq<Document>, ranked: seq<Candidate>, included: set<string>)
    ensures Cost(env, safe, ranked, included) == Size(env, Build(env, safe, 0, ranked, included))
  {
  }

  lemma NamedIncluded(env: Env, opts: Options, docs: seq<Document>, ranked: seq<Candidate>, order: seq<Place>)
    requires Mirrors(env, opts, docs, ranked, order) && (forall p <- order :: In(docs, p)) && DistinctKeys(ranked)
    ensures Includes(ranked, order, SelectedOf(ranked), NamedUpTo(opts, docs, order, |order|))
  {
    hide Named, Key, Mirror;
    NoneNamed(opts, docs, order);
    forall k | 0 <= k < |order|
      ensures Key(ranked[k]) in SelectedOf(ranked) <==> order[k] in NamedUpTo(opts, docs, order, |order|)
    {
      MirrorSelected(env, opts, docs, ranked[k], order[k]);
      if Key(ranked[k]) in SelectedOf(ranked) {
        var c :| c in ranked && c.selected && Key(c) == Key(ranked[k]);
        var j :| 0 <= j < |ranked| && ranked[j] == c;
        assert j == k;
      }
    }
  }

  /** A ranking that fails has no documents and reports why: too many documents or references,
      the first reference that sanitizing changes, the document that brings too many operations,
      an error of an operation, or the size of the operations that references name. */
  lemma FailureSays(env: Env, docs: seq<Document>, opts: Options) returns (order: seq<Place>)
    requires FlagsControls(env) && env.budget.maxOperations >= 0 && Rank(env, docs, opts).failed
    ensures Rank(env, docs, opts).documents == [] && Rank(env, docs, opts).truncated
    ensures Refuses(env, docs, opts, Rank(env, docs, opts), order)
  {
    hide ScanDocuments, Candidates, Ranked, Cost, Build, Pack, SelectedOf, CountSelected, AllDiagnostics, UnsafeRef,
         TotalOperations, InputWarnings, DocumentWarnings, Unclean, FlagsControls, IsRanking, Encoded, Context,
         FirstUnsafe, FirstUnclean, Overflows, Size, Named;
    order := [];
    UnsafeIs(env, opts.selected);
    if |docs| <= env.budget.maxOperations && |opts.selected| <= env.budget.maxOperations
      && !exists ref <- opts.selected :: Unclean(env, ref)
    {
      ScanOverflows(env, docs, 0);
      if ScanDocuments(env, docs, 0).overflow {
        var k := ScanStops(env, docs, 0);
        assert Overflows(env, docs, k) by { OverflowsAt(env, docs, k); }
        var warnings, last := DocumentWarnings(env, docs[..k]), [Problem("prompt.operation_count", "")];
        assert QueryDiagnostics(env, opts) + (warnings + last) == QueryWarning(env, opts) + warnings + last;
      } else {
        InputDiagnosticsAre(env, docs, opts);
        order := SelectedRefused(env, docs, opts);
      }
    }
  }

  lemma OverflowsAt(env: Env, docs: seq<Document>, k: nat)
    requires k < |docs| && TotalOperations(docs[..k]) <= env.budget.maxOperations < TotalOperations(docs[..k + 1])
    ensures Overflows(env, docs, k)
  {
  }
}
