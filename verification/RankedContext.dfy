/** What the ranked prompt context holds, stated about the operations of the documents at their
    places, their text scores and the references given. */
module RankedContext {
  import opened PackerProofs
  import opened PackerSpec
  import opened Text

  /** An operation, as its document and its position there. */
  datatype Place = Place(doc: nat, index: nat)

  predicate In(docs: seq<Document>, p: Place) {
    p.doc < |docs| && p.index < |docs[p.doc].operations|
  }

  function OperationAt(docs: seq<Document>, p: Place): Operation
    requires In(docs, p)
  {
    docs[p.doc].operations[p.index]
  }

  /** A reference names the operation. */
  predicate Named(opts: Options, docs: seq<Document>, p: Place)
    requires In(docs, p)
  {
    exists ref <- opts.selected :: Names(ref, docs[p.doc].meta, OperationAt(docs, p))
  }

  function Clean(env: Env, m: Metadata): Metadata {
    Metadata(env.sanitize(m.id, env.budget.maxIdentifierRunes).0, env.sanitize(m.path, env.budget.maxTextRunes).0,
             env.sanitize(m.relativePath, env.budget.maxTextRunes).0, env.sanitize(m.title, env.budget.maxTextRunes).0,
             env.sanitize(m.description, env.budget.maxTextRunes).0)
  }

  /** How well the operation matches the query, both sanitized. */
  function TextScore(env: Env, opts: Options, docs: seq<Document>, p: Place): int
    requires In(docs, p)
  {
    env.score(env.sanitize(opts.query, env.budget.maxTextRunes).0, Clean(env, docs[p.doc].meta),
              env.sanitizeOperation(OperationAt(docs, p)).0)
  }

  // ---------------------------------------------------------------- the ranking

  function Earlier(p: Place, q: Place): bool {
    p.doc < q.doc || (p.doc == q.doc && p.index < q.index)
  }

  /** Of two operations that are both named or both not, the better match stands first, ties in
      document order; a named one stands before one that is not unless it trails by more than
      1000. */
  predicate Outranks(env: Env, opts: Options, docs: seq<Document>, p: Place, q: Place)
    requires In(docs, p) && In(docs, q)
  {
    var lead := TextScore(env, opts, docs, p) - TextScore(env, opts, docs, q);
    if Named(opts, docs, p) == Named(opts, docs, q) then lead > 0 || (lead == 0 && Earlier(p, q))
    else if Named(opts, docs, p) then lead > -1000 || (lead == -1000 && Earlier(p, q))
    else lead > 1000 || (lead == 1000 && Earlier(p, q))
  }

  /** All operations, each once, in that order. */
  ghost predicate IsRanking(env: Env, opts: Options, docs: seq<Document>, order: seq<Place>) {
    && (forall p :: p in order <==> In(docs, p))
    && (forall j, k :: 0 <= j < k < |order| ==> order[j] != order[k] && Outranks(env, opts, docs, order[j], order[k]))
  }

  ghost predicate Mirrors(env: Env, opts: Options, docs: seq<Document>, ranked: seq<Candidate>, order: seq<Place>) {
    && |order| == |ranked|
    && forall k :: 0 <= k < |order| ==> Mirror(env, opts, docs, ranked[k], order[k])
  }

  ghost predicate Mirror(env: Env, opts: Options, docs: seq<Document>, c: Candidate, p: Place) {
    && In(docs, p) && p == Place(c.doc, c.index) && c.op == env.sanitizeOperation(OperationAt(docs, p)).0
    && (c.selected <==> Named(opts, docs, p))
    && c.score == TextScore(env, opts, docs, p) + if c.selected then 1000 else 0
  }

  lemma {:induction false} ScanIs(env: Env, docs: seq<Document>, count: nat)
    requires !ScanDocuments(env, docs, count).overflow
    ensures (var safe := ScanDocuments(env, docs, count).docs;
             |safe| == |docs| && forall d :: 0 <= d < |docs| ==>
               safe[d] == Document(Clean(env, docs[d].meta), docs[d].operations))
    decreases |docs|
  {
    hide MetadataDiagnostics;
    if docs != [] {
      ScanIs(env, docs[1..], count + |docs[0].operations|);
    }
  }

  lemma CandidateMirrors(env: Env, opts: Options, docs: seq<Document>, safe: seq<Document>, d: nat, i: nat)
    requires d < |docs| && |safe| == |docs| && i < |docs[d].operations|
    requires safe[d].meta == Clean(env, docs[d].meta)
    requires FlagsControls(env) && forall ref <- opts.selected :: !UnsafeRef(env, ref)
    ensures Mirror(env, opts, docs, CandidateAt(env, opts, docs, safe, d, i), Place(d, i))
  {
    hide IsSelected, SelectedKeys, Names, Clean, FlagsControls, UnsafeRef;
    SelectedExactly(env, opts.selected, docs[d].meta, docs[d].operations[i]);
  }

  lemma RankingOf(env: Env, docs: seq<Document>, opts: Options) returns (order: seq<Place>)
    requires !ScanDocuments(env, docs, 0).overflow
    requires FlagsControls(env) && forall ref <- opts.selected :: !UnsafeRef(env, ref)
    ensures Mirrors(env, opts, docs, Shortlist(env, docs, opts), order) && IsRanking(env, opts, docs, order)
  {
    hide ScanDocuments, Candidates, Ranked, CandidateAt, Mirror, Key, UnsafeRef, FlagsControls, InOrder,
         OnePerOperation, DistinctKeys, Outranks;
    var safe := ScanDocuments(env, docs, 0).docs;
    var cs, ranked := Candidates(env, opts, docs, safe, |docs|, 0), Shortlist(env, docs, opts);
    ScanIs(env, docs, 0);
    ShortlistIs(env, docs, opts);
    CandidatesUpTo(env, opts, docs, safe, |docs|, 0);
    RankedOrders(cs);
    order := seq(|ranked|, k requires 0 <= k < |ranked| => Place(ranked[k].doc, ranked[k].index));
    forall k | 0 <= k < |ranked| ensures Mirror(env, opts, docs, ranked[k], order[k]) {
      assert ranked[k] in multiset(cs);
      CandidateMirrors(env, opts, docs, safe, ranked[k].doc, ranked[k].index);
    }
    PlacesRanked(env, opts, docs, ranked, order);
  }

  lemma MirrorIn(env: Env, opts: Options, docs: seq<Document>, c: Candidate, p: Place)
    requires Mirror(env, opts, docs, c, p)
    ensures In(docs, p) && p.doc == c.doc && p.index == c.index
  {
  }

  lemma PlacesRanked(env: Env, opts: Options, docs: seq<Document>, ranked: seq<Candidate>, order: seq<Place>)
    requires Mirrors(env, opts, docs, ranked, order) && InOrder(ranked) && OnePerOperation(ranked, docs)
    ensures IsRanking(env, opts, docs, order)
  {
    hide Mirror, Outranks, Key, Before, InOrder;
    forall k | 0 <= k < |order| ensures In(docs, order[k]) && order[k].doc == ranked[k].doc
                                        && order[k].index == ranked[k].index
    {
      MirrorIn(env, opts, docs, ranked[k], order[k]);
    }
    forall p | In(docs, p) ensures p in order {
      assert Has(ranked, p.doc, p.index);
      var c :| c in ranked && c.doc == p.doc && c.index == p.index;
      var k :| 0 <= k < |ranked| && ranked[k] == c;
      assert order[k] == p;
    }
    forall j, k | 0 <= j < k < |order|
      ensures order[j] != order[k] && Outranks(env, opts, docs, order[j], order[k])
    {
      KeyOf(ranked[j], ranked[k]);
      InOrderAt(ranked, j, k);
      MirrorsOutrank(env, opts, docs, ranked[j], order[j], ranked[k], order[k]);
    }
  }

  lemma InOrderAt(ranked: seq<Candidate>, j: nat, k: nat)
    requires InOrder(ranked) && j < k < |ranked|
    ensures !Before(ranked[k], ranked[j])
  {
  }

  lemma KeyOf(a: Candidate, b: Candidate)
    ensures a.doc == b.doc && a.index == b.index ==> Key(a) == Key(b)
  {
  }

  lemma MirrorsOutrank(env: Env, opts: Options, docs: seq<Document>, a: Candidate, p: Place, b: Candidate, q: Place)
    requires Mirror(env, opts, docs, a, p) && Mirror(env, opts, docs, b, q) && p != q && !Before(b, a)
    ensures Outranks(env, opts, docs, p, q)
  {
    hide TextScore, Named;
  }

  // ---------------------------------------------------------------- the documents

  /** The operations of document `d` that are taken, sanitized and in rank order. */
  function Operations(env: Env, docs: seq<Document>, order: seq<Place>, taken: set<Place>, d: nat): seq<Operation>
    requires forall p <- order :: In(docs, p)
  {
    if order == [] then []
    else
      (if order[0].doc == d && order[0] in taken then [env.sanitizeOperation(OperationAt(docs, order[0])).0] else [])
      + Operations(env, docs, order[1..], taken, d)
  }

  /** The documents from `d` on that have some, with their sanitized metadata, sanitized again. */
  function Context(env: Env, docs: seq<Document>, order: seq<Place>, taken: set<Place>, d: nat): seq<Document>
    requires d <= |docs| && forall p <- order :: In(docs, p)
    decreases |docs| - d
  {
    if d == |docs| then []
    else
      var ops := Operations(env, docs, order, taken, d);
      (if ops != [] then [Document(Clean(env, Clean(env, docs[d].meta)), ops)] else [])
      + Context(env, docs, order, taken, d + 1)
  }

  function Sum(sizes: seq<nat>): nat {
    if sizes == [] then 0 else sizes[0] + Sum(sizes[1..])
  }

  /** Elements with a comma between each two. */
  function Listed(sizes: seq<nat>): nat {
    Sum(sizes) + if sizes == [] then 0 else |sizes| - 1
  }

  /** The size of the context as a JSON array. */
  function Encoded(env: Env, docs: seq<Document>): nat {
    2 + Listed(seq(|docs|, i requires 0 <= i < |docs| => EncodedDocument(env, docs[i])))
  }

  function EncodedDocument(env: Env, doc: Document): nat {
    env.headSize(doc.meta)
    + Listed(seq(|doc.operations|, i requires 0 <= i < |doc.operations| => env.operationSize(doc.operations[i])))
  }

  lemma ListedCons(x: nat, sizes: seq<nat>)
    ensures Listed([x] + sizes) == x + (if sizes == [] then 0 else 1) + Listed(sizes)
  {
    assert ([x] + sizes)[1..] == sizes;
  }

  lemma {:induction false} OperationsListed(env: Env, ops: seq<Operation>)
    ensures OperationsSize(env, ops)
         == Listed(seq(|ops|, i requires 0 <= i < |ops| => env.operationSize(ops[i])))
    decreases |ops|
  {
    hide Listed;
    var sizes := seq(|ops|, i requires 0 <= i < |ops| => env.operationSize(ops[i]));
    if ops == [] {
      NothingListed();
      assert sizes == [];
    } else {
      var rest := seq(|ops| - 1, i requires 0 <= i < |ops| - 1 => env.operationSize(ops[1..][i]));
      OperationsListed(env, ops[1..]);
      assert sizes == [env.operationSize(ops[0])] + rest;
      ListedCons(env.operationSize(ops[0]), rest);
    }
  }

  lemma NothingListed()
    ensures Listed([]) == 0
  {
  }

  lemma {:induction false} ElementsListed(env: Env, docs: seq<Document>)
    ensures ElementsSize(env, docs)
         == Listed(seq(|docs|, i requires 0 <= i < |docs| => EncodedDocument(env, docs[i])))
    decreases |docs|
  {
    hide Listed, EncodedDocument, OperationsSize;
    var sizes := seq(|docs|, i requires 0 <= i < |docs| => EncodedDocument(env, docs[i]));
    if docs == [] {
      NothingListed();
      assert sizes == [];
    } else {
      var rest := seq(|docs| - 1, i requires 0 <= i < |docs| - 1 => EncodedDocument(env, docs[1..][i]));
      ElementsListed(env, docs[1..]);
      assert sizes == [EncodedDocument(env, docs[0])] + rest;
      ListedCons(EncodedDocument(env, docs[0]), rest);
      OneDocument(env, docs[0]);
    }
  }

  lemma OneDocument(env: Env, doc: Document)
    ensures EncodedDocument(env, doc) == env.headSize(doc.meta) + OperationsSize(env, doc.operations)
  {
    hide Listed, OperationsSize;
    var ops := doc.operations;
    OperationsListed(env, ops);
    var sizes := seq(|ops|, i requires 0 <= i < |ops| => env.operationSize(ops[i]));
    assert sizes == seq(|doc.operations|, i requires 0 <= i < |doc.operations| => env.operationSize(doc.operations[i]));
  }

  lemma SizeIs(env: Env, docs: seq<Document>)
    ensures Size(env, docs) == Encoded(env, docs)
  {
    hide Listed, EncodedDocument, ElementsSize;
    ElementsListed(env, docs);
  }

  // ---------------------------------------------------------------- the packing

  /** No limit means twelve, a negative one none. */
  function LimitOf(opts: Options): nat {
    if opts.limit < 0 then 0 else if opts.limit == 0 then 12 else opts.limit
  }

  /** How many of the first `k` operations are taken without being named. */
  function Others(opts: Options, docs: seq<Document>, order: seq<Place>, k: nat, taken: set<Place>): nat
    requires k <= |order| && forall p <- order :: In(docs, p)
  {
    if k == 0 then 0
    else (if order[k - 1] in taken && !Named(opts, docs, order[k - 1]) then 1 else 0)
         + Others(opts, docs, order, k - 1, taken)
  }

  predicate Fits(env: Env, docs: seq<Document>, order: seq<Place>, taken: set<Place>)
    requires forall p <- order :: In(docs, p)
  {
    Encoded(env, Context(env, docs, order, taken, 0)) <= env.budget.maxContextBytes
  }

  /** Every named operation is taken, and another one exactly when those taken before it leave
      room for it and it fits with all that are taken. */
  ghost predicate Packs(env: Env, opts: Options, docs: seq<Document>, order: seq<Place>, taken: set<Place>)
    requires forall p <- order :: In(docs, p)
  {
    && (forall p <- taken :: p in order) && Fits(env, docs, order, taken)
    && forall k :: 0 <= k < |order| ==>
         (order[k] in taken <==>
          || Named(opts, docs, order[k])
          || (Others(opts, docs, order, k, taken) < LimitOf(opts) && Fits(env, docs, order, taken + {order[k]})))
  }

  /** The candidates that a set of keys includes are the places in the other set. */
  ghost predicate Includes(ranked: seq<Candidate>, order: seq<Place>, included: set<string>, taken: set<Place>)
    requires |ranked| == |order|
  {
    forall k :: 0 <= k < |order| ==> (Key(ranked[k]) in included <==> order[k] in taken)
  }

  lemma {:induction false} PicksMirror(env: Env, opts: Options, docs: seq<Document>, ranked: seq<Candidate>,
                                       order: seq<Place>, included: set<string>, taken: set<Place>, d: nat)
    requires Mirrors(env, opts, docs, ranked, order) && Includes(ranked, order, included, taken)
    ensures forall p <- order :: In(docs, p)
    ensures Picks(ranked, d, included) == Operations(env, docs, order, taken, d)
    decreases |order|
  {
    hide Key, Named, TextScore;
    if order != [] {
      assert Mirror(env, opts, docs, ranked[0], order[0]);
      PicksMirror(env, opts, docs, ranked[1..], order[1..], included, taken, d);
      assert order == [order[0]] + order[1..];
    }
  }

  lemma {:induction false} BuildMirrors(env: Env, opts: Options, docs: seq<Document>, safe: seq<Document>,
                                        ranked: seq<Candidate>, order: seq<Place>, included: set<string>,
                                        taken: set<Place>, d: nat)
    requires |safe| == |docs| && d <= |docs|
    requires forall e :: 0 <= e < |docs| ==> safe[e] == Document(Clean(env, docs[e].meta), docs[e].operations)
    requires Mirrors(env, opts, docs, ranked, order) && Includes(ranked, order, included, taken)
    requires forall p <- order :: In(docs, p)
    ensures Build(env, safe, d, ranked, included) == Context(env, docs, order, taken, d)
    decreases |docs| - d
  {
    hide Mirrors, Includes, Picks, Operations;
    if d < |docs| {
      PicksMirror(env, opts, docs, ranked, order, included, taken, d);
      BuildMirrors(env, opts, docs, safe, ranked, order, included, taken, d + 1);
      assert [] + Context(env, docs, order, taken, d + 1) == Context(env, docs, order, taken, d + 1);
    }
  }

  lemma CostMirrors(env: Env, opts: Options, docs: seq<Document>, safe: seq<Document>, ranked: seq<Candidate>,
                    order: seq<Place>, included: set<string>, taken: set<Place>)
    requires |safe| == |docs|
    requires forall e :: 0 <= e < |docs| ==> safe[e] == Document(Clean(env, docs[e].meta), docs[e].operations)
    requires Mirrors(env, opts, docs, ranked, order) && Includes(ranked, order, included, taken)
    requires forall p <- order :: In(docs, p)
    ensures Cost(env, safe, ranked, included) <= env.budget.maxContextBytes <==> Fits(env, docs, order, taken)
  {
    hide Mirrors, Includes, Build, Context, Size, Encoded;
    BuildMirrors(env, opts, docs, safe, ranked, order, included, taken, 0);
    SizeIs(env, Context(env, docs, order, taken, 0));
  }

  lemma {:induction false} ExtraMirrors(env: Env, opts: Options, docs: seq<Document>, ranked: seq<Candidate>,
                                        order: seq<Place>, k: nat, included: set<string>, taken: set<Place>)
    requires Mirrors(env, opts, docs, ranked, order) && Includes(ranked, order, included, taken) && k <= |order|
    requires forall p <- order :: In(docs, p)
    ensures Extra(ranked, k, included) == Others(opts, docs, order, k, taken)
    decreases k
  {
    hide Key, Named, TextScore;
    if k > 0 {
      assert Mirror(env, opts, docs, ranked[k - 1], order[k - 1]);
      ExtraMirrors(env, opts, docs, ranked, order, k - 1, included, taken);
    }
  }

  /** One key more is one place more. */
  lemma IncludesMore(ranked: seq<Candidate>, order: seq<Place>, included: set<string>, taken: set<Place>, k: nat)
    requires |ranked| == |order| && Includes(ranked, order, included, taken) && k < |order|
    requires DistinctKeys(ranked) && forall i, j :: 0 <= i < j < |order| ==> order[i] != order[j]
    ensures Includes(ranked, order, included + {Key(ranked[k])}, taken + {order[k]})
  {
    hide Key;
    forall j | 0 <= j < |order|
      ensures Key(ranked[j]) in included + {Key(ranked[k])} <==> order[j] in taken + {order[k]}
    {
      assert j < k ==> Key(ranked[j]) != Key(ranked[k]) && order[j] != order[k];
      assert j > k ==> Key(ranked[k]) != Key(ranked[j]) && order[k] != order[j];
    }
  }

  lemma LimitIs(opts: Options)
    ensures Limit(opts) == LimitOf(opts)
  {
  }

  lemma PacksChosen(env: Env, opts: Options, docs: seq<Document>, safe: seq<Document>, ranked: seq<Candidate>,
                    order: seq<Place>, taken: set<Place>)
    requires |safe| == |docs|
    requires forall e :: 0 <= e < |docs| ==> safe[e] == Document(Clean(env, docs[e].meta), docs[e].operations)
    requires Mirrors(env, opts, docs, ranked, order) && IsRanking(env, opts, docs, order) && DistinctKeys(ranked)
    requires Cost(env, safe, ranked, SelectedOf(ranked)) <= env.budget.maxContextBytes
    requires (forall p <- taken :: p in order)
             && Includes(ranked, order, Chosen(env, safe, ranked, Limit(opts)), taken)
    ensures Packs(env, opts, docs, order, taken)
  {
    hide Key, Named, TextScore, Cost, SelectedOf, Chosen, Extra, Others, Outranks, DistinctKeys, Includes, Fits, Clean;
    var limit := Limit(opts);
    var chosen := Chosen(env, safe, ranked, limit);
    LimitIs(opts);
    ChosenFeasible(env, safe, ranked, limit);
    CostMirrors(env, opts, docs, safe, ranked, order, chosen, taken);
    forall k | 0 <= k < |order|
      ensures order[k] in taken <==>
                || Named(opts, docs, order[k])
                || (Others(opts, docs, order, k, taken) < limit && Fits(env, docs, order, taken + {order[k]}))
    {
      assert Mirror(env, opts, docs, ranked[k], order[k]);
      LeftOutExactly(env, safe, ranked, limit, k);
      UnselectedSoFar(env, safe, ranked, limit, k);
      ExtraMirrors(env, opts, docs, ranked, order, k, chosen, taken);
      IncludesMore(ranked, order, chosen, taken, k);
      IncludedAt(ranked, order, chosen, taken, k);
      CostMirrors(env, opts, docs, safe, ranked, order, chosen + {Key(ranked[k])}, taken + {order[k]});
    }
  }

  lemma IncludedAt(ranked: seq<Candidate>, order: seq<Place>, included: set<string>, taken: set<Place>, k: nat)
    requires |ranked| == |order| && Includes(ranked, order, included, taken) && k < |order|
    ensures Key(ranked[k]) in included <==> order[k] in taken
  {
  }

  // ---------------------------------------------------------------- the report

  function Changed(env: Env, m: Metadata): bool {
    || env.sanitize(m.id, env.budget.maxIdentifierRunes).1 || env.sanitize(m.path, env.budget.maxTextRunes).1
    || env.sanitize(m.relativePath, env.budget.maxTextRunes).1 || env.sanitize(m.title, env.budget.maxTextRunes).1
    || env.sanitize(m.description, env.budget.maxTextRunes).1
  }

  /** One warning for each document whose metadata was changed. */
  function DocumentWarnings(env: Env, docs: seq<Document>): seq<Diagnostic> {
    if docs == [] then []
    else
      (if Changed(env, docs[0].meta)
       then [Diagnostic(Warning, "prompt.document_sanitized",
                        FirstNonEmpty(Clean(env, docs[0].meta).relativePath, Clean(env, docs[0].meta).path))]
       else []) + DocumentWarnings(env, docs[1..])
  }

  function OperationWarnings(env: Env, ops: seq<Operation>): seq<Diagnostic> {
    if ops == [] then [] else env.sanitizeOperation(ops[0]).1 + OperationWarnings(env, ops[1..])
  }

  function AllOperationWarnings(env: Env, docs: seq<Document>): seq<Diagnostic> {
    if docs == [] then [] else OperationWarnings(env, docs[0].operations) + AllOperationWarnings(env, docs[1..])
  }

  /** What is said about the input. */
  function InputWarnings(env: Env, docs: seq<Document>, opts: Options): seq<Diagnostic> {
    (if env.sanitize(opts.query, env.budget.maxTextRunes).1
     then [Diagnostic(Warning, "prompt.query_sanitized", "")] else [])
    + DocumentWarnings(env, docs) + AllOperationWarnings(env, docs)
  }

  lemma {:induction false} OperationsWarn(env: Env, ops: seq<Operation>, op: Operation)
    ensures OperationWarnings(env, ops + [op]) == OperationWarnings(env, ops) + env.sanitizeOperation(op).1
    decreases |ops|
  {
    if ops == [] {
      assert ops + [op] == [op] && OperationWarnings(env, []) == [];
    } else {
      assert (ops + [op])[1..] == ops[1..] + [op];
      OperationsWarn(env, ops[1..], op);
    }
  }

  lemma {:induction false} OperationDiagnosticsAre(env: Env, ops: seq<Operation>)
    ensures OperationDiagnostics(env, ops) == OperationWarnings(env, ops)
    decreases |ops|
  {
    if ops != [] {
      var before := ops[..|ops| - 1];
      OperationDiagnosticsAre(env, before);
      OperationsWarn(env, before, ops[|ops| - 1]);
      assert ops == before + [ops[|ops| - 1]];
    }
  }

  lemma {:induction false} DocumentsWarn(env: Env, docs: seq<Document>, doc: Document)
    ensures AllOperationWarnings(env, docs + [doc])
         == AllOperationWarnings(env, docs) + OperationWarnings(env, doc.operations)
    decreases |docs|
  {
    hide OperationWarnings;
    if docs == [] {
      assert docs + [doc] == [doc] && AllOperationWarnings(env, []) == [];
      assert AllOperationWarnings(env, [doc]) == OperationWarnings(env, doc.operations) + [];
    } else {
      assert (docs + [doc])[1..] == docs[1..] + [doc];
      DocumentsWarn(env, docs[1..], doc);
    }
  }

  lemma {:induction false} AllDiagnosticsAre(env: Env, docs: seq<Document>)
    ensures AllDiagnostics(env, docs) == AllOperationWarnings(env, docs)
    decreases |docs|
  {
    hide OperationWarnings, OperationDiagnostics;
    if docs != [] {
      var before, last := docs[..|docs| - 1], docs[|docs| - 1];
      AllDiagnosticsAre(env, before);
      OperationDiagnosticsAre(env, last.operations);
      DocumentsWarn(env, before, last);
      assert docs == before + [last];
    }
  }

  lemma {:induction false} ScanDiagnosticsAre(env: Env, docs: seq<Document>, count: nat)
    requires !ScanDocuments(env, docs, count).overflow
    ensures ScanDocuments(env, docs, count).diagnostics == DocumentWarnings(env, docs)
    decreases |docs|
  {
    if docs != [] {
      ScanDiagnosticsAre(env, docs[1..], count + |docs[0].operations|);
    }
  }

  lemma InputDiagnosticsAre(env: Env, docs: seq<Document>, opts: Options)
    requires !ScanDocuments(env, docs, 0).overflow
    ensures Prepared(env, docs, opts, ScanDocuments(env, docs, 0)).diagnostics == InputWarnings(env, docs, opts)
  {
    hide ScanDocuments, Candidates, Ranked, DocumentWarnings, AllOperationWarnings, AllDiagnostics;
    ScanDiagnosticsAre(env, docs, 0);
    AllDiagnosticsAre(env, docs);
  }

  /** Something that no reference names was left out for the limit, or for its size. */
  ghost predicate LimitUsed(opts: Options, docs: seq<Document>, order: seq<Place>, taken: set<Place>)
    requires forall p <- order :: In(docs, p)
  {
    exists k :: 0 <= k < |order| && !Named(opts, docs, order[k])
                && Others(opts, docs, order, k, taken) >= LimitOf(opts)
  }

  ghost predicate BudgetUsed(opts: Options, docs: seq<Document>, order: seq<Place>, taken: set<Place>)
    requires forall p <- order :: In(docs, p)
  {
    exists k :: 0 <= k < |order| && !Named(opts, docs, order[k]) && order[k] !in taken
                && Others(opts, docs, order, k, taken) < LimitOf(opts)
  }

  lemma {:induction false} PackFlags(env: Env, safe: seq<Document>, ranked: seq<Candidate>, limit: nat, k: nat)
    requires k <= |ranked| && DistinctKeys(ranked)
    requires Cost(env, safe, ranked, SelectedOf(ranked)) <= env.budget.maxContextBytes
    ensures (var p, chosen := Pack(env, safe, ranked, limit, k), Chosen(env, safe, ranked, limit);
             && (p.skippedForLimit <==> limit > 0 && exists j :: 0 <= j < k && !ranked[j].selected
                                                                && Extra(ranked, j, chosen) >= limit)
             && (p.skippedForBudget <==> exists j :: 0 <= j < k && !ranked[j].selected && Key(ranked[j]) !in chosen
                                                    && Extra(ranked, j, chosen) < limit))
    decreases k
  {
    hide Key, Cost, SelectedOf, Chosen, Extra, DistinctKeys;
    if k > 0 {
      PackFlags(env, safe, ranked, limit, k - 1);
      UnselectedSoFar(env, safe, ranked, limit, k - 1);
      if !ranked[k - 1].selected && Pack(env, safe, ranked, limit, k - 1).unselected < limit {
        FateSettled(env, safe, ranked, limit, k - 1);
      }
    }
  }

  /** Whether a candidate is chosen is settled when it is seen. */
  lemma FateSettled(env: Env, safe: seq<Document>, ranked: seq<Candidate>, limit: nat, k: nat)
    requires k < |ranked| && DistinctKeys(ranked) && !ranked[k].selected
             && Pack(env, safe, ranked, limit, k).unselected < limit
    requires Cost(env, safe, ranked, SelectedOf(ranked)) <= env.budget.maxContextBytes
    ensures Key(ranked[k]) in Chosen(env, safe, ranked, limit)
       <==> Cost(env, safe, ranked, Pack(env, safe, ranked, limit, k).included + {Key(ranked[k])})
            <= env.budget.maxContextBytes
  {
    hide Key, Cost, SelectedOf;
    PackSettled(env, safe, ranked, limit, k, |ranked|);
    PackInvariant(env, safe, ranked, limit, k);
  }

  ghost predicate Says(env: Env, docs: seq<Document>, opts: Options, r: Report, order: seq<Place>, taken: set<Place>)
    requires forall p <- order :: In(docs, p)
  {
    && r.documents == Context(env, docs, order, taken, 0)
    && r.bytes == Encoded(env, r.documents) <= env.budget.maxContextBytes
    && r.diagnostics == InputWarnings(env, docs, opts)
                        + (if BudgetUsed(opts, docs, order, taken)
                           then [Diagnostic(Warning, "prompt.context_budget", "")] else [])
                        + (if LimitOf(opts) > 0 && LimitUsed(opts, docs, order, taken)
                           then [Diagnostic(Warning, "prompt.operation_limit", "")] else [])
    && (r.truncated <==> r.diagnostics != [])
    && r.selectedOperations == |set p | p in order && Named(opts, docs, p)|
  }

  lemma FlagsMirror(env: Env, opts: Options, docs: seq<Document>, ranked: seq<Candidate>, order: seq<Place>,
                    included: set<string>, taken: set<Place>)
    requires Mirrors(env, opts, docs, ranked, order) && Includes(ranked, order, included, taken)
    requires forall p <- order :: In(docs, p)
    ensures LimitUsed(opts, docs, order, taken)
       <==> exists j :: 0 <= j < |ranked| && !ranked[j].selected && Extra(ranked, j, included) >= LimitOf(opts)
    ensures BudgetUsed(opts, docs, order, taken)
       <==> exists j :: 0 <= j < |ranked| && !ranked[j].selected && Key(ranked[j]) !in included
                        && Extra(ranked, j, included) < LimitOf(opts)
  {
    hide Key, Named, TextScore, Extra, Others, Mirror;
    forall k | 0 <= k < |order|
      ensures Extra(ranked, k, included) == Others(opts, docs, order, k, taken)
              && (ranked[k].selected <==> Named(opts, docs, order[k]))
    {
      ExtraMirrors(env, opts, docs, ranked, order, k, included, taken);
      MirrorSelected(env, opts, docs, ranked[k], order[k]);
    }
  }

  lemma MirrorSelected(env: Env, opts: Options, docs: seq<Document>, c: Candidate, p: Place)
    requires Mirror(env, opts, docs, c, p)
    ensures In(docs, p) && (c.selected <==> Named(opts, docs, p))
  {
  }

  ghost function NamedUpTo(opts: Options, docs: seq<Document>, order: seq<Place>, k: nat): set<Place>
    requires k <= |order| && forall p <- order :: In(docs, p)
  {
    set p | p in order[..k] && Named(opts, docs, p)
  }

  lemma NamedNext(opts: Options, docs: seq<Document>, order: seq<Place>, k: nat)
    requires k < |order| && forall p <- order :: In(docs, p)
    requires forall i, j :: 0 <= i < j < |order| ==> order[i] != order[j]
    ensures NamedUpTo(opts, docs, order, k + 1)
         == NamedUpTo(opts, docs, order, k) + if Named(opts, docs, order[k]) then {order[k]} else {}
    ensures order[k] !in NamedUpTo(opts, docs, order, k)
  {
    hide Named, In;
    assert order[..k + 1] == order[..k] + [order[k]];
  }

  lemma {:induction false} SelectedCounted(env: Env, opts: Options, docs: seq<Document>, ranked: seq<Candidate>,
                                           order: seq<Place>, k: nat)
    requires Mirrors(env, opts, docs, ranked, order) && k <= |order| && forall p <- order :: In(docs, p)
    requires forall i, j :: 0 <= i < j < |order| ==> order[i] != order[j]
    ensures CountSelected(ranked, k) == |NamedUpTo(opts, docs, order, k)|
    decreases k
  {
    hide Named, Mirror, In, NamedUpTo;
    if k == 0 {
      NoneNamed(opts, docs, order);
    } else {
      SelectedCounted(env, opts, docs, ranked, order, k - 1);
      MirrorSelected(env, opts, docs, ranked[k - 1], order[k - 1]);
      NamedNext(opts, docs, order, k - 1);
    }
  }

  lemma NoneNamed(opts: Options, docs: seq<Document>, order: seq<Place>)
    requires forall p <- order :: In(docs, p)
    ensures NamedUpTo(opts, docs, order, 0) == {}
    ensures NamedUpTo(opts, docs, order, |order|) == set p | p in order && Named(opts, docs, p)
  {
    hide Named, In;
    assert order[..|order|] == order;
  }

  lemma ReportFields(env: Env, docs: seq<Document>, opts: Options)
    requires !Rank(env, docs, opts).failed
    ensures !ScanDocuments(env, docs, 0).overflow && forall ref <- opts.selected :: !UnsafeRef(env, ref)
    ensures (var r, ranked, scan := Rank(env, docs, opts), Shortlist(env, docs, opts), ScanDocuments(env, docs, 0);
             var p := Pack(env, scan.docs, ranked, Limit(opts), |ranked|);
             r.diagnostics == Prepared(env, docs, opts, scan).diagnostics
               + (if p.skippedForBudget then [Diagnostic(Warning, "prompt.context_budget", "")] else [])
               + (if p.skippedForLimit then [Diagnostic(Warning, "prompt.operation_limit", "")] else []))
  {
    hide ScanDocuments, Candidates, Ranked, Build, Pack, SelectedOf, CountSelected, AllDiagnostics, HasError,
         UnsafeRef, ElementsSize;
  }

  /** A successful context is that of the one ranking: it takes every named operation and, in
      rank order, each other one as long as the limit and the budget leave room for it; it holds
      them and nothing else; and it says what was changed and left out. */
  lemma ContextSays(env: Env, docs: seq<Document>, opts: Options) returns (order: seq<Place>, taken: set<Place>)
    requires FlagsControls(env) && !Rank(env, docs, opts).failed
    ensures IsRanking(env, opts, docs, order) && Packs(env, opts, docs, order, taken)
    ensures Says(env, docs, opts, Rank(env, docs, opts), order, taken)
  {
    hide *;
    SuccessReport(env, docs, opts);
    ReportFields(env, docs, opts);
    var r, ranked, safe := Rank(env, docs, opts), Shortlist(env, docs, opts), ScanDocuments(env, docs, 0).docs;
    var limit := Limit(opts);
    LimitIs(opts);
    order := RankingOf(env, docs, opts);
    ScanIs(env, docs, 0);
    ShortlistIs(env, docs, opts);
    DistinctOf(ranked, docs);
    ChosenIs(env, safe, ranked, limit);
    var chosen := Chosen(env, safe, ranked, limit);
    taken := TakenOf(env, opts, docs, ranked, order, chosen);
    PacksChosen(env, opts, docs, safe, ranked, order, taken);
    RankingMeans(env, opts, docs, order);
    BuildMirrors(env, opts, docs, safe, ranked, order, chosen, taken, 0);
    SizeIs(env, r.documents);
    FitsMeans(env, opts, docs, order, taken);
    InputDiagnosticsAre(env, docs, opts);
    PackFlags(env, safe, ranked, limit, |ranked|);
    FlagsMirror(env, opts, docs, ranked, order, chosen, taken);
    SelectedCounted(env, opts, docs, ranked, order, |order|);
    NoneNamed(opts, docs, order);
    SaysThat(env, docs, opts, r, order, taken);
  }

  lemma RankingMeans(env: Env, opts: Options, docs: seq<Document>, order: seq<Place>)
    requires IsRanking(env, opts, docs, order)
    ensures forall p <- order :: In(docs, p)
    ensures forall i, j :: 0 <= i < j < |order| ==> order[i] != order[j]
  {
    hide Outranks;
  }

  lemma FitsMeans(env: Env, opts: Options, docs: seq<Document>, order: seq<Place>, taken: set<Place>)
    requires (forall p <- order :: In(docs, p)) && Packs(env, opts, docs, order, taken)
    ensures Encoded(env, Context(env, docs, order, taken, 0)) <= env.budget.maxContextBytes
  {
    hide Encoded, Context, Others, Named;
  }

  lemma TakenOf(env: Env, opts: Options, docs: seq<Document>, ranked: seq<Candidate>, order: seq<Place>,
                included: set<string>) returns (taken: set<Place>)
    requires Mirrors(env, opts, docs, ranked, order)
    ensures (forall p <- taken :: p in order) && |ranked| == |order| && Includes(ranked, order, included, taken)
  {
    hide Mirror, Key;
    taken := set p | p in order && Key(Candidate(p.doc, p.index, Operation("", ""), 0, false)) in included;
    forall k | 0 <= k < |order| ensures Key(ranked[k]) in included <==> order[k] in taken {
      MirrorIn(env, opts, docs, ranked[k], order[k]);
      KeyOf(ranked[k], Candidate(order[k].doc, order[k].index, Operation("", ""), 0, false));
    }
  }

  lemma SaysThat(env: Env, docs: seq<Document>, opts: Options, r: Report, order: seq<Place>, taken: set<Place>)
    requires forall p <- order :: In(docs, p)
    requires r.documents == Context(env, docs, order, taken, 0)
    requires r.bytes == Encoded(env, r.documents) <= env.budget.maxContextBytes
    requires r.diagnostics == InputWarnings(env, docs, opts)
               + (if BudgetUsed(opts, docs, order, taken)
                  then [Diagnostic(Warning, "prompt.context_budget", "")] else [])
               + (if LimitOf(opts) > 0 && LimitUsed(opts, docs, order, taken)
                  then [Diagnostic(Warning, "prompt.operation_limit", "")] else [])
    requires r.truncated <==> r.diagnostics != []
    requires r.selectedOperations == |set p | p in order && Named(opts, docs, p)|
    ensures Says(env, docs, opts, r, order, taken)
  {
  }

  /** What is left out for the limit is no better a match than any operation that is taken
      without being named. */
  lemma BetterMatchesTaken(env: Env, docs: seq<Document>, opts: Options, order: seq<Place>, taken: set<Place>, k: nat,
                           j: nat)
    requires IsRanking(env, opts, docs, order) && (forall p <- order :: In(docs, p))
    requires Packs(env, opts, docs, order, taken) && j < |order| && k < |order|
    requires !Named(opts, docs, order[k]) && order[k] !in taken
             && Others(opts, docs, order, k, taken) >= LimitOf(opts)
    requires !Named(opts, docs, order[j]) && order[j] in taken
    ensures TextScore(env, opts, docs, order[j]) >= TextScore(env, opts, docs, order[k])
  {
    hide Named, TextScore, Packs, IsRanking, Others, Outranks;
    if k < j {
      OthersGrow(opts, docs, order, k, j, taken);
      TakenWithRoom(env, opts, docs, order, taken, j);
      assert false;
    } else if j < k {
      MatchesBetter(env, opts, docs, order, j, k);
    }
  }

  lemma TakenWithRoom(env: Env, opts: Options, docs: seq<Document>, order: seq<Place>, taken: set<Place>, j: nat)
    requires (forall p <- order :: In(docs, p)) && Packs(env, opts, docs, order, taken) && j < |order|
    requires !Named(opts, docs, order[j]) && order[j] in taken
    ensures Others(opts, docs, order, j, taken) < LimitOf(opts)
  {
    hide Named, Fits, Others;
  }

  lemma MatchesBetter(env: Env, opts: Options, docs: seq<Document>, order: seq<Place>, j: nat, k: nat)
    requires IsRanking(env, opts, docs, order) && j < k < |order| && forall p <- order :: In(docs, p)
    requires Named(opts, docs, order[j]) == Named(opts, docs, order[k])
    ensures TextScore(env, opts, docs, order[j]) >= TextScore(env, opts, docs, order[k])
  {
    hide Named, TextScore;
    assert Outranks(env, opts, docs, order[j], order[k]);
  }

  lemma {:induction false} OthersGrow(opts: Options, docs: seq<Document>, order: seq<Place>, j: nat, k: nat,
                                      taken: set<Place>)
    requires j <= k <= |order| && forall p <- order :: In(docs, p)
    ensures Others(opts, docs, order, j, taken) <= Others(opts, docs, order, k, taken)
    decreases k
  {
    hide Named;
    if j < k {
      OthersGrow(opts, docs, order, j, k - 1, taken);
    }
  }

  lemma OneWay(env: Env, opts: Options, docs: seq<Document>, p: Place, q: Place)
    requires In(docs, p) && In(docs, q) && Outranks(env, opts, docs, p, q)
    ensures !Outranks(env, opts, docs, q, p)
  {
    hide TextScore, Named;
  }

  /** Where two arrangements differ, the place of the one comes later in the other. */
  lemma ComesLater(a: seq<Place>, b: seq<Place>, k: nat) returns (j: nat)
    requires |a| == |b| && k < |a| && a[k] != b[k] && b[k] in a
    requires (forall i :: 0 <= i < k ==> a[i] == b[i]) && forall i, j :: 0 <= i < j < |b| ==> b[i] != b[j]
    ensures k < j < |a| && a[j] == b[k]
  {
    j :| 0 <= j < |a| && a[j] == b[k];
  }

  /** There is only one ranking. */
  lemma RankingUnique(env: Env, opts: Options, docs: seq<Document>, a: seq<Place>, b: seq<Place>)
    requires IsRanking(env, opts, docs, a) && IsRanking(env, opts, docs, b)
    ensures a == b
  {
    hide Outranks, In;
    if a != b {
      SameLength(a, b);
      SameLength(b, a);
      var k := FirstDifference(a, b);
      assert a[k] in a && b[k] in b;
      var j := ComesLater(a, b, k);
      var i := ComesLater(b, a, k);
      OneWay(env, opts, docs, a[k], a[j]);
    }
  }

  lemma SameLength(a: seq<Place>, b: seq<Place>)
    requires forall i, j :: 0 <= i < j < |a| ==> a[i] != a[j]
    requires forall p <- a :: p in b
    ensures |a| <= |b|
  {
    var s, t := set p | p in a, set p | p in b;
    DistinctSize(a);
    AtMostSize(b);
    PlacesFewer(s, t);
  }

  lemma {:induction false} PlacesFewer(s: set<Place>, t: set<Place>)
    requires s <= t
    ensures |s| <= |t|
    decreases |s|
  {
    if s != {} {
      var p :| p in s;
      PlacesFewer(s - {p}, t - {p});
    }
  }

  lemma {:induction false} DistinctSize(a: seq<Place>)
    requires forall i, j :: 0 <= i < j < |a| ==> a[i] != a[j]
    ensures |set p | p in a| == |a|
    decreases |a|
  {
    if a != [] {
      DistinctSize(a[1..]);
      assert a == [a[0]] + a[1..];
      assert (set p | p in a) == (set p | p in a[1..]) + {a[0]};
      assert a[0] !in a[1..];
    }
  }

  lemma {:induction false} AtMostSize(a: seq<Place>)
    ensures |set p | p in a| <= |a|
    decreases |a|
  {
    if a != [] {
      AtMostSize(a[1..]);
      assert a == [a[0]] + a[1..];
      assert (set p | p in a) == (set p | p in a[1..]) + {a[0]};
    }
  }

  lemma {:induction false} FirstDifference(a: seq<Place>, b: seq<Place>) returns (k: nat)
    requires |a| == |b| && a != b
    ensures k < |a| && a[k] != b[k] && forall i :: 0 <= i < k ==> a[i] == b[i]
    decreases |a|
  {
    if a[0] != b[0] {
      k := 0;
    } else {
      assert a == [a[0]] + a[1..] && b == [b[0]] + b[1..];
      k := FirstDifference(a[1..], b[1..]);
      k := k + 1;
    }
  }
}
