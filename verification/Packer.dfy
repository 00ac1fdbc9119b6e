/** Ranking and packing as authoring_api.go does it, in loops over the candidates.  Each
    method is proved to compute what PackerSpec defines. */
module Packer {
  import opened PackerProofs
  import opened PackerSpec

  /** The included operations of each of `n` documents, in rank order. */
  method Distribute(n: nat, ranked: seq<Candidate>, included: set<string>) returns (copies: array<seq<Operation>>)
    requires forall c <- ranked :: c.doc < n
    ensures fresh(copies) && copies.Length == n
    ensures forall d | 0 <= d < n :: copies[d] == Picks(ranked, d, included)
  {
    hide Key, Picks;
    copies := new seq<Operation>[n](_ => []);
    forall d: nat ensures Picks([], d, included) == [] {
      PicksEmpty(d, included);
    }
    assert ranked[..0] == [];
    for k := 0 to |ranked|
      invariant forall d | 0 <= d < n :: copies[d] == Picks(ranked[..k], d, included)
    {
      var c := ranked[k];
      assert ranked[..k + 1] == ranked[..k] + [c];
      forall d: nat
        ensures Picks(ranked[..k + 1], d, included)
             == Picks(ranked[..k], d, included) + if c.doc == d && Key(c) in included then [c.op] else []
      {
        PicksSnoc(ranked[..k], c, d, included);
      }
      assert c in ranked;
      if Key(c) in included {
        copies[c.doc] := copies[c.doc] + [c.op];
      }
    }
    assert ranked[..|ranked|] == ranked;
  }

  /** buildRankedAuthoringDocuments */
  method BuildDocuments(env: Env, safe: seq<Document>, ranked: seq<Candidate>, included: set<string>)
    returns (out: seq<Document>)
    requires forall c <- ranked :: c.doc < |safe|
    ensures out == Build(env, safe, 0, ranked, included)
  {
    hide Key, SanitizeMetadata, Build, Picks;
    var copies := Distribute(|safe|, ranked, included);
    out := [];
    for d := 0 to |safe|
      invariant forall e | 0 <= e < |safe| :: copies[e] == Picks(ranked, e, included)
      invariant out + Build(env, safe, d, ranked, included) == Build(env, safe, 0, ranked, included)
    {
      BuildStep(env, safe, d, ranked, included);
      if |copies[d]| > 0 {
        var doc := Document(SanitizeMetadata(env, safe[d].meta), copies[d]);
        assert out + ([doc] + Build(env, safe, d + 1, ranked, included))
            == (out + [doc]) + Build(env, safe, d + 1, ranked, included);
        out := out + [doc];
      }
    }
    BuildEnd(env, safe, ranked, included);
  }

  lemma BuildStep(env: Env, safe: seq<Document>, d: nat, ranked: seq<Candidate>, included: set<string>)
    requires d < |safe|
    ensures (var rest := Build(env, safe, d + 1, ranked, included);
             Build(env, safe, d, ranked, included)
             == if Picks(ranked, d, included) == [] then rest
                else [Document(SanitizeMetadata(env, safe[d].meta), Picks(ranked, d, included))] + rest)
  {
    hide Picks, SanitizeMetadata;
  }

  lemma BuildEnd(env: Env, safe: seq<Document>, ranked: seq<Candidate>, included: set<string>)
    ensures Build(env, safe, |safe|, ranked, included) == []
  {
  }

  /** The documents within the work budget, sanitized one by one. */
  method ScanAll(env: Env, docs: seq<Document>) returns (scan: Scan)
    ensures scan == ScanDocuments(env, docs, 0)
  {
    hide SanitizeMetadata, MetadataDiagnostics;
    var safe: seq<Document> := [];
    var diagnostics: seq<Diagnostic> := [];
    var count: nat := 0;
    for k := 0 to |docs|
      invariant (var rest := ScanDocuments(env, docs[k..], count);
                 ScanDocuments(env, docs, 0) == Scan(safe + rest.docs, diagnostics + rest.diagnostics, rest.overflow))
    {
      assert docs[k..][1..] == docs[k + 1..];
      ghost var rest := ScanDocuments(env, docs[k + 1..], count + |docs[k].operations|);
      if |docs[k].operations| > env.budget.maxOperations - count {
        return Scan(safe, diagnostics + [Diagnostic(Error, "prompt.operation_count", "")], true);
      }
      count := count + |docs[k].operations|;
      var doc, warnings := Document(SanitizeMetadata(env, docs[k].meta), docs[k].operations),
          MetadataDiagnostics(env, docs[k].meta);
      assert safe + ([doc] + rest.docs) == (safe + [doc]) + rest.docs;
      assert diagnostics + (warnings + rest.diagnostics) == (diagnostics + warnings) + rest.diagnostics;
      safe := safe + [doc];
      diagnostics := diagnostics + warnings;
    }
    assert safe + [] == safe && diagnostics + [] == diagnostics;
    return Scan(safe, diagnostics, false);
  }

  method CollectCandidates(env: Env, opts: Options, docs: seq<Document>, safe: seq<Document>)
    returns (candidates: seq<Candidate>, diagnostics: seq<Diagnostic>)
    requires |safe| == |docs|
    ensures candidates == Candidates(env, opts, docs, safe, |docs|, 0)
    ensures diagnostics == AllDiagnostics(env, docs)
  {
    hide CandidateAt;
    candidates, diagnostics := [], [];
    for d := 0 to |docs|
      invariant candidates == Candidates(env, opts, docs, safe, d, 0)
      invariant diagnostics == AllDiagnostics(env, docs[..d])
    {
      var ops := docs[d].operations;
      for i := 0 to |ops|
        invariant candidates == Candidates(env, opts, docs, safe, d, i)
        invariant diagnostics == AllDiagnostics(env, docs[..d]) + OperationDiagnostics(env, ops[..i])
      {
        assert ops[..i + 1][..i] == ops[..i];
        var found := env.sanitizeOperation(ops[i]).1;
        assert AllDiagnostics(env, docs[..d]) + (OperationDiagnostics(env, ops[..i]) + found)
            == (AllDiagnostics(env, docs[..d]) + OperationDiagnostics(env, ops[..i])) + found;
        diagnostics := diagnostics + found;
        candidates := candidates + [CandidateAt(env, opts, docs, safe, d, i)];
      }
      assert ops[..|ops|] == ops;
      assert docs[..d + 1][..d] == docs[..d];
    }
    assert docs[..|docs|] == docs;
  }

  method SelectAll(ranked: seq<Candidate>) returns (included: set<string>, count: nat)
    ensures included == SelectedOf(ranked) && count == CountSelected(ranked, |ranked|)
  {
    hide Key;
    included, count := {}, 0;
    for k := 0 to |ranked|
      invariant included == SelectedOf(ranked[..k]) && count == CountSelected(ranked, k)
    {
      assert ranked[..k + 1] == ranked[..k] + [ranked[k]];
      if ranked[k].selected {
        included := included + {Key(ranked[k])};
        count := count + 1;
      }
    }
    assert ranked[..|ranked|] == ranked;
  }

  method MeasureOperations(env: Env, ops: seq<Operation>) returns (size: nat)
    ensures size == OperationsSize(env, ops)
  {
    size := 0;
    for k := 0 to |ops|
      invariant size + OperationsSize(env, ops[k..]) == OperationsSize(env, ops)
    {
      size := size + env.operationSize(ops[k]) + (if k + 1 < |ops| then 1 else 0);
    }
  }

  /** promptJSONSize */
  method Measure(env: Env, docs: seq<Document>) returns (size: nat)
    ensures size == Size(env, docs)
  {
    hide OperationsSize;
    size := 2;
    for k := 0 to |docs|
      invariant size + ElementsSize(env, docs[k..]) == Size(env, docs)
    {
      var operations := MeasureOperations(env, docs[k].operations);
      size := size + env.headSize(docs[k].meta) + operations + (if k + 1 < |docs| then 1 else 0);
    }
  }

  /** The greedy loop over the unselected candidates. */
  method PackAll(env: Env, safe: seq<Document>, ranked: seq<Candidate>, limit: nat) returns (p: Packing)
    requires forall c <- ranked :: c.doc < |safe|
    ensures p == Pack(env, safe, ranked, limit, |ranked|)
  {
    hide Key, Build, SelectedOf, Size, CountSelected;
    var included, _ := SelectAll(ranked);
    var unselected, skippedForBudget, skippedForLimit := 0, false, false;
    for k := 0 to |ranked|
      invariant Packing(included, unselected, skippedForBudget, skippedForLimit) == Pack(env, safe, ranked, limit, k)
    {
      var c := ranked[k];
      if c.selected {
        continue;
      }
      if unselected >= limit {
        if limit > 0 {
          skippedForLimit := true;
        }
        continue;
      }
      var tentative := BuildDocuments(env, safe, ranked, included + {Key(c)});
      var size := Measure(env, tentative);
      if size > env.budget.maxContextBytes {
        skippedForBudget := true;
        continue;
      }
      included := included + {Key(c)};
      unselected := unselected + 1;
    }
    return Packing(included, unselected, skippedForBudget, skippedForLimit);
  }

  method CheckRefs(env: Env, refs: seq<Ref>) returns (k: nat)
    ensures k == FirstUnsafe(env, refs)
  {
    hide UnsafeRef;
    k := 0;
    while k < |refs| && !UnsafeRef(env, refs[k])
      invariant k <= |refs| && FirstUnsafe(env, refs) == k + FirstUnsafe(env, refs[k..])
    {
      k := k + 1;
    }
  }

  lemma CandidateDocs(env: Env, opts: Options, docs: seq<Document>, safe: seq<Document>)
    requires |safe| == |docs|
    ensures forall c <- Ranked(Candidates(env, opts, docs, safe, |docs|, 0)) :: c.doc < |docs|
  {
    hide *;
    RankedCandidates(env, opts, docs, safe);
    DistinctOf(Ranked(Candidates(env, opts, docs, safe, |docs|, 0)), docs);
  }

  /** RankAuthoringAPIDocuments */
  method RankDocuments(env: Env, docs: seq<Document>, opts: Options) returns (report: Report)
    ensures report == Rank(env, docs, opts)
  {
    hide ScanDocuments, Candidates, Ranked, Build, Pack, SelectedOf, CountSelected, AllDiagnostics, HasError,
         UnsafeRef, FirstUnsafe, ElementsSize, QueryDiagnostics;
    var limit := Limit(opts);
    if |docs| > env.budget.maxOperations {
      return Failure([Diagnostic(Error, "prompt.document_count", "")], 0, 0);
    }
    if |opts.selected| > env.budget.maxOperations {
      return Failure([Diagnostic(Error, "prompt.selection_count", "")], 0, 0);
    }
    var unsafe := CheckRefs(env, opts.selected);
    if unsafe < |opts.selected| {
      return Failure([Diagnostic(Error, "prompt.selection_sanitized", opts.selected[unsafe].documentPath)], 0, 0);
    }
    var diagnostics := QueryDiagnostics(env, opts);
    var scan := ScanAll(env, docs);
    diagnostics := diagnostics + scan.diagnostics;
    if scan.overflow {
      return Failure(diagnostics, 0, 0);
    }
    var safe := scan.docs;
    var candidates, found := CollectCandidates(env, opts, docs, safe);
    var ranked := Ranked(candidates);
    diagnostics := diagnostics + found;
    CandidateDocs(env, opts, docs, safe);
    if HasError(diagnostics) {
      return Failure(diagnostics, 0, 0);
    }
    var selected, count := SelectAll(ranked);
    var selectedDocs := BuildDocuments(env, safe, ranked, selected);
    var selectedBytes := Measure(env, selectedDocs);
    if selectedBytes > env.budget.maxContextBytes {
      return Failure(diagnostics + [Diagnostic(Error, "prompt.selected_budget", "")], selectedBytes, count);
    }
    var p := PackAll(env, safe, ranked, limit);
    var documents := BuildDocuments(env, safe, ranked, p.included);
    var bytes := Measure(env, documents);
    var truncated := |diagnostics| > 0;
    if p.skippedForBudget {
      truncated := true;
      diagnostics := diagnostics + [Diagnostic(Warning, "prompt.context_budget", "")];
    }
    if p.skippedForLimit {
      truncated := true;
      diagnostics := diagnostics + [Diagnostic(Warning, "prompt.operation_limit", "")];
    }
    return Report(documents, diagnostics, truncated, bytes, count, false);
  }
}
