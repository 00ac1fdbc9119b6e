/** The ranked prompt context of authoring_api.go: which operations it holds and what it
    costs.  Sanitizing, text scoring and the encoded size of one operation are inputs. */
module PackerSpec {
  import opened Text

  const DEFAULT_LIMIT := 12
  const SELECTED_BONUS := 1000

  datatype Operation = Operation(operationId: string, detail: string)

  datatype Metadata = Metadata(id: string, path: string, relativePath: string, title: string, description: string)

  datatype Document = Document(meta: Metadata, operations: seq<Operation>)

  datatype Severity = Warning | Error

  datatype Diagnostic = Diagnostic(severity: Severity, code: string, path: string)

  datatype Budget = Budget(maxIdentifierRunes: int, maxTextRunes: int, maxOperations: int, maxContextBytes: int)

  /** `sanitize` says whether it changed or shortened the text; `headSize` is the encoded size
      of a document without its operations. */
  datatype Env = Env(
    budget: Budget,
    sanitize: (string, int) -> (string, bool),
    sanitizeOperation: Operation -> (Operation, seq<Diagnostic>),
    score: (string, Metadata, Operation) -> int,
    headSize: Metadata -> nat,
    operationSize: Operation -> nat)

  datatype Ref = Ref(documentPath: string, operationId: string)

  datatype Options = Options(query: string, selected: seq<Ref>, limit: int)

  function Limit(opts: Options): nat {
    if opts.limit == 0 then DEFAULT_LIMIT else if opts.limit < 0 then 0 else opts.limit
  }

  // ---------------------------------------------------------------- selections

  /** authoringOperationKey */
  function OperationKey(documentPath: string, operationId: string): string {
    TrimSpace(documentPath) + ['\0'] + TrimSpace(operationId)
  }

  /** authoringSelectedOperations */
  function SelectedKeys(refs: seq<Ref>): set<string> {
    set ref | ref in refs && TrimSpace(ref.operationId) != "" ::
      OperationKey(ref.documentPath, TrimSpace(ref.operationId))
  }

  function DocumentPath(m: Metadata): string {
    FirstNonEmpty(m.relativePath, m.path)
  }

  predicate IsSelected(selected: set<string>, m: Metadata, op: Operation) {
    OperationKey(DocumentPath(m), op.operationId) in selected || OperationKey("", op.operationId) in selected
  }

  predicate UnsafeRef(env: Env, ref: Ref) {
    env.sanitize(ref.documentPath, env.budget.maxTextRunes).1
    || env.sanitize(ref.operationId, env.budget.maxIdentifierRunes).1
  }

  // ---------------------------------------------------------------- candidates

  function SanitizeMetadata(env: Env, m: Metadata): Metadata {
    var id, text := env.budget.maxIdentifierRunes, env.budget.maxTextRunes;
    Metadata(env.sanitize(m.id, id).0, env.sanitize(m.path, text).0, env.sanitize(m.relativePath, text).0,
             env.sanitize(m.title, text).0, env.sanitize(m.description, text).0)
  }

  predicate MetadataChanges(env: Env, m: Metadata) {
    var id, text := env.budget.maxIdentifierRunes, env.budget.maxTextRunes;
    env.sanitize(m.id, id).1 || env.sanitize(m.path, text).1 || env.sanitize(m.relativePath, text).1
    || env.sanitize(m.title, text).1 || env.sanitize(m.description, text).1
  }

  function MetadataDiagnostics(env: Env, m: Metadata): seq<Diagnostic> {
    if MetadataChanges(env, m)
    then [Diagnostic(Warning, "prompt.document_sanitized", DocumentPath(SanitizeMetadata(env, m)))] else []
  }

  /** The documents that pass the work budget, sanitized. */
  datatype Scan = Scan(docs: seq<Document>, diagnostics: seq<Diagnostic>, overflow: bool)

  function ScanDocuments(env: Env, docs: seq<Document>, count: nat): (r: Scan)
    ensures !r.overflow ==> |r.docs| == |docs|
  {
    if docs == [] then Scan([], [], false)
    else if |docs[0].operations| > env.budget.maxOperations - count
    then Scan([], [Diagnostic(Error, "prompt.operation_count", "")], true)
    else
      var rest := ScanDocuments(env, docs[1..], count + |docs[0].operations|);
      Scan([Document(SanitizeMetadata(env, docs[0].meta), docs[0].operations)] + rest.docs,
           MetadataDiagnostics(env, docs[0].meta) + rest.diagnostics, rest.overflow)
  }

  datatype Candidate = Candidate(doc: nat, index: nat, op: Operation, score: int, selected: bool)

  /** The candidate for operation `i` of document `d`; selections look at the document as it
      was given, scores at the sanitized one. */
  function CandidateAt(env: Env, opts: Options, docs: seq<Document>, safe: seq<Document>, d: nat, i: nat): Candidate
    requires d < |docs| && d < |safe| && i < |docs[d].operations|
  {
    var original := docs[d].operations[i];
    var op := env.sanitizeOperation(original).0;
    var selected := IsSelected(SelectedKeys(opts.selected), docs[d].meta, original);
    var query := env.sanitize(opts.query, env.budget.maxTextRunes).0;
    Candidate(d, i, op, env.score(query, safe[d].meta, op) + (if selected then SELECTED_BONUS else 0), selected)
  }

  /** All candidates up to operation `i` of document `d`, in document order. */
  function Candidates(env: Env, opts: Options, docs: seq<Document>, safe: seq<Document>, d: nat, i: nat): seq<Candidate>
    requires |safe| == |docs| && d <= |docs| && if d < |docs| then i <= |docs[d].operations| else i == 0
    decreases d, i
  {
    if i > 0 then Candidates(env, opts, docs, safe, d, i - 1) + [CandidateAt(env, opts, docs, safe, d, i - 1)]
    else if d > 0 then Candidates(env, opts, docs, safe, d - 1, |docs[d - 1].operations|)
    else []
  }

  function OperationDiagnostics(env: Env, ops: seq<Operation>): seq<Diagnostic> {
    if ops == [] then []
    else OperationDiagnostics(env, ops[..|ops| - 1]) + env.sanitizeOperation(ops[|ops| - 1]).1
  }

  function AllDiagnostics(env: Env, docs: seq<Document>): seq<Diagnostic> {
    if docs == [] then []
    else AllDiagnostics(env, docs[..|docs| - 1]) + OperationDiagnostics(env, docs[|docs| - 1].operations)
  }

  /** errorDiagnostics finds one. */
  predicate HasError(diagnostics: seq<Diagnostic>) {
    exists d <- diagnostics :: d.severity == Error
  }

  /** The order of the ranking: score, then document, then operation. */
  predicate Before(a: Candidate, b: Candidate) {
    if a.score != b.score then a.score > b.score
    else if a.doc != b.doc then a.doc < b.doc
    else a.index < b.index
  }

  function InsertRanked(c: Candidate, cs: seq<Candidate>): seq<Candidate> {
    if cs == [] || !Before(cs[0], c) then [c] + cs else [cs[0]] + InsertRanked(c, cs[1..])
  }

  /** sort.SliceStable by `Before`. */
  function Ranked(cs: seq<Candidate>): seq<Candidate> {
    if cs == [] then [] else InsertRanked(cs[0], Ranked(cs[1..]))
  }

  // ---------------------------------------------------------------- documents and their size

  /** authoringCandidateKey */
  function Key(c: Candidate): string {
    Decimal(c.doc) + ['/'] + Decimal(c.index)
  }

  function Picks(ranked: seq<Candidate>, d: nat, included: set<string>): seq<Operation> {
    if ranked == [] then []
    else (if ranked[0].doc == d && Key(ranked[0]) in included then [ranked[0].op] else [])
         + Picks(ranked[1..], d, included)
  }

  /** buildRankedAuthoringDocuments, from document `d` on: the included operations of each
      document in rank order, without the documents that have none. */
  function Build(env: Env, safe: seq<Document>, d: nat, ranked: seq<Candidate>, included: set<string>): seq<Document>
    requires d <= |safe|
    decreases |safe| - d
  {
    if d == |safe| then []
    else
      var ops := Picks(ranked, d, included);
      var rest := Build(env, safe, d + 1, ranked, included);
      if ops == [] then rest else [Document(SanitizeMetadata(env, safe[d].meta), ops)] + rest
  }

  function OperationsSize(env: Env, ops: seq<Operation>): nat {
    if ops == [] then 0
    else env.operationSize(ops[0]) + (if |ops| > 1 then 1 else 0) + OperationsSize(env, ops[1..])
  }

  /** Elements and the commas between them. */
  function ElementsSize(env: Env, docs: seq<Document>): nat {
    if docs == [] then 0
    else env.headSize(docs[0].meta) + OperationsSize(env, docs[0].operations) + (if |docs| > 1 then 1 else 0)
         + ElementsSize(env, docs[1..])
  }

  /** promptJSONSize of the documents: brackets, elements, commas. */
  function Size(env: Env, docs: seq<Document>): nat {
    2 + ElementsSize(env, docs)
  }

  function Cost(env: Env, safe: seq<Document>, ranked: seq<Candidate>, included: set<string>): nat {
    Size(env, Build(env, safe, 0, ranked, included))
  }

  // ---------------------------------------------------------------- packing

  function SelectedOf(ranked: seq<Candidate>): set<string> {
    set c | c in ranked && c.selected :: Key(c)
  }

  function CountSelected(ranked: seq<Candidate>, k: nat): nat
    requires k <= |ranked|
  {
    if k == 0 then 0 else (if ranked[k - 1].selected then 1 else 0) + CountSelected(ranked, k - 1)
  }

  datatype Packing = Packing(included: set<string>, unselected: nat, skippedForBudget: bool, skippedForLimit: bool)

  function PackOne(env: Env, safe: seq<Document>, ranked: seq<Candidate>, limit: nat, p: Packing,
                   c: Candidate): Packing {
    if c.selected then p
    else if p.unselected >= limit then p.(skippedForLimit := p.skippedForLimit || limit > 0)
    else if Cost(env, safe, ranked, p.included + {Key(c)}) > env.budget.maxContextBytes
      then p.(skippedForBudget := true)
    else p.(included := p.included + {Key(c)}, unselected := p.unselected + 1)
  }

  /** The packing after the first `k` candidates. */
  function Pack(env: Env, safe: seq<Document>, ranked: seq<Candidate>, limit: nat, k: nat): Packing
    requires k <= |ranked|
  {
    if k == 0 then Packing(SelectedOf(ranked), 0, false, false)
    else PackOne(env, safe, ranked, limit, Pack(env, safe, ranked, limit, k - 1), ranked[k - 1])
  }

  // ---------------------------------------------------------------- the report

  datatype Report = Report(documents: seq<Document>, diagnostics: seq<Diagnostic>, truncated: bool, bytes: nat,
                           selectedOperations: nat, failed: bool)

  function Failure(diagnostics: seq<Diagnostic>, bytes: nat, selectedOperations: nat): Report {
    Report([], diagnostics, true, bytes, selectedOperations, true)
  }

  /** What ranking works on once the work budget is checked. */
  datatype Input = Input(safe: seq<Document>, ranked: seq<Candidate>, diagnostics: seq<Diagnostic>)

  function Prepared(env: Env, docs: seq<Document>, opts: Options, scan: Scan): Input
    requires scan == ScanDocuments(env, docs, 0) && !scan.overflow
  {
    Input(scan.docs, Ranked(Candidates(env, opts, docs, scan.docs, |docs|, 0)),
          QueryDiagnostics(env, opts) + scan.diagnostics + AllDiagnostics(env, docs))
  }

  function QueryDiagnostics(env: Env, opts: Options): seq<Diagnostic> {
    if env.sanitize(opts.query, env.budget.maxTextRunes).1 then [Diagnostic(Warning, "prompt.query_sanitized", "")]
      else []
  }

  function PackReport(env: Env, input: Input, limit: nat): Report {
    var selected := Cost(env, input.safe, input.ranked, SelectedOf(input.ranked));
    var count := CountSelected(input.ranked, |input.ranked|);
    if HasError(input.diagnostics) then Failure(input.diagnostics, 0, 0)
    else if selected > env.budget.maxContextBytes
    then Failure(input.diagnostics + [Diagnostic(Error, "prompt.selected_budget", "")], selected, count)
    else
      var p := Pack(env, input.safe, input.ranked, limit, |input.ranked|);
      var documents := Build(env, input.safe, 0, input.ranked, p.included);
      var diagnostics := input.diagnostics
        + (if p.skippedForBudget then [Diagnostic(Warning, "prompt.context_budget", "")] else [])
        + (if p.skippedForLimit then [Diagnostic(Warning, "prompt.operation_limit", "")] else []);
      Report(documents, diagnostics, diagnostics != [], Size(env, documents), count, false)
  }

  /** RankAuthoringAPIDocuments */
  function Rank(env: Env, docs: seq<Document>, opts: Options): Report {
    if |docs| > env.budget.maxOperations then Failure([Diagnostic(Error, "prompt.document_count", "")], 0, 0)
    else if |opts.selected| > env.budget.maxOperations
    then Failure([Diagnostic(Error, "prompt.selection_count", "")], 0, 0)
    else
      var unsafe := FirstUnsafe(env, opts.selected);
      if unsafe < |opts.selected|
      then Failure([Diagnostic(Error, "prompt.selection_sanitized", opts.selected[unsafe].documentPath)], 0, 0)
      else
        var scan := ScanDocuments(env, docs, 0);
        if scan.overflow then Failure(QueryDiagnostics(env, opts) + scan.diagnostics, 0, 0)
        else PackReport(env, Prepared(env, docs, opts, scan), Limit(opts))
  }

  function FirstUnsafe(env: Env, refs: seq<Ref>): (k: nat)
    ensures k <= |refs| && (k < |refs| ==> UnsafeRef(env, refs[k]))
    ensures forall j :: 0 <= j < k ==> !UnsafeRef(env, refs[j])
  {
    if refs == [] || UnsafeRef(env, refs[0]) then 0 else 1 + FirstUnsafe(env, refs[1..])
  }
}
