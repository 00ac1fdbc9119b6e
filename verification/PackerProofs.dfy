/** What a ranked prompt context guarantees. */
module PackerProofs {
  import opened PackerSpec
  import opened Text

  // ---------------------------------------------------------------- the ranking

  ghost predicate InOrder(cs: seq<Candidate>) {
    forall j, k :: 0 <= j < k < |cs| ==> !Before(cs[k], cs[j])
  }

  lemma {:induction false} InsertRankedOrders(c: Candidate, cs: seq<Candidate>)
    requires InOrder(cs)
    ensures InOrder(InsertRanked(c, cs))
    ensures multiset(InsertRanked(c, cs)) == multiset{c} + multiset(cs)
  {
    if cs != [] && Before(cs[0], c) {
      var rest := InsertRanked(c, cs[1..]);
      InsertRankedOrders(c, cs[1..]);
      assert cs == [cs[0]] + cs[1..];
      forall x <- rest ensures !Before(x, cs[0]) {
        assert x in multiset(rest);
        assert x == c || x in cs[1..];
      }
    } else {
      forall x <- cs ensures !Before(x, c) {
        if x != cs[0] {
          assert !Before(x, cs[0]);
        }
      }
    }
  }

  /** The ranking is an arrangement of the candidates in rank order. */
  lemma {:induction false} RankedOrders(cs: seq<Candidate>)
    ensures InOrder(Ranked(cs)) && multiset(Ranked(cs)) == multiset(cs)
  {
    hide Before;
    if cs != [] {
      RankedOrders(cs[1..]);
      InsertRankedOrders(cs[0], Ranked(cs[1..]));
      assert cs == [cs[0]] + cs[1..];
    }
  }

  lemma KeyInjective(a: Candidate, b: Candidate)
    requires Key(a) == Key(b)
    ensures a.doc == b.doc && a.index == b.index
  {
    SplitUnique(Decimal(a.doc), Decimal(a.index), Decimal(b.doc), Decimal(b.index), '/');
    DecimalInjective(a.doc, b.doc);
    DecimalInjective(a.index, b.index);
  }

  ghost predicate DistinctKeys(cs: seq<Candidate>) {
    forall j, k :: 0 <= j < k < |cs| ==> Key(cs[j]) != Key(cs[k])
  }

  ghost predicate Has(cs: seq<Candidate>, d: nat, i: nat) {
    exists c <- cs :: c.doc == d && c.index == i
  }

  /** Every operation of every document is a candidate exactly once. */
  ghost predicate OnePerOperation(cs: seq<Candidate>, docs: seq<Document>) {
    && (forall c <- cs :: c.doc < |docs| && c.index < |docs[c.doc].operations|)
    && (forall d, i {:trigger Has(cs, d, i)} | 0 <= d < |docs| && 0 <= i < |docs[d].operations| ::
          Has(cs, d, i))
    && DistinctKeys(cs)
  }

  /** The candidates up to (d, i) are the operations before it, each once. */
  lemma {:induction false} CandidatesUpTo(env: Env, opts: Options, docs: seq<Document>, safe: seq<Document>, d: nat,
                                          i: nat)
    requires |safe| == |docs| && d <= |docs| && if d < |docs| then i <= |docs[d].operations| else i == 0
    ensures (var cs := Candidates(env, opts, docs, safe, d, i);
             && (forall c <- cs :: c.doc < |docs| && c.index < |docs[c.doc].operations|
                                   && (c.doc < d || (c.doc == d && c.index < i))
                                   && c == CandidateAt(env, opts, docs, safe, c.doc, c.index))
             && (forall e, j | 0 <= e < |docs| && 0 <= j < |docs[e].operations| && (e < d || (e == d && j < i)) ::
                   CandidateAt(env, opts, docs, safe, e, j) in cs)
             && DistinctKeys(cs))
    decreases d, i
  {
    hide CandidateAt, Key;
    CandidatePosition(env, opts, docs, safe);
    if i > 0 {
      CandidatesUpTo(env, opts, docs, safe, d, i - 1);
      var before, c := Candidates(env, opts, docs, safe, d, i - 1), CandidateAt(env, opts, docs, safe, d, i - 1);
      forall b <- before ensures Key(b) != Key(c) {
        if Key(b) == Key(c) {
          KeyInjective(b, c);
        }
      }
    } else if d > 0 {
      CandidatesUpTo(env, opts, docs, safe, d - 1, |docs[d - 1].operations|);
    }
  }

  lemma CandidatePosition(env: Env, opts: Options, docs: seq<Document>, safe: seq<Document>)
    requires |safe| == |docs|
    ensures forall d, i | 0 <= d < |docs| && 0 <= i < |docs[d].operations| ::
              CandidateAt(env, opts, docs, safe, d, i).doc == d && CandidateAt(env, opts, docs, safe, d, i).index == i
  {
  }

  lemma DistinctByMultiset(a: seq<Candidate>, b: seq<Candidate>)
    requires multiset(a) == multiset(b) && DistinctKeys(a)
    ensures DistinctKeys(b)
  {
    hide Key;
    forall j, k | 0 <= j < k < |b| ensures Key(b[j]) != Key(b[k]) {
      if Key(b[j]) == Key(b[k]) {
        assert b[j] in multiset(a) && b[k] in multiset(a);
        var x :| 0 <= x < |a| && a[x] == b[j];
        var y :| 0 <= y < |a| && a[y] == b[k];
        assert x == y;
        TwiceInMultiset(b, j, k);
        OnceInMultiset(a, x);
      }
    }
  }

  lemma TwiceInMultiset(s: seq<Candidate>, j: nat, k: nat)
    requires j < k < |s| && s[j] == s[k]
    ensures multiset(s)[s[j]] >= 2
  {
    assert s == s[..j] + [s[j]] + s[j + 1..k] + [s[k]] + s[k + 1..];
  }

  lemma OnceInMultiset(s: seq<Candidate>, j: nat)
    requires DistinctKeys(s) && j < |s|
    ensures multiset(s)[s[j]] == 1
  {
    hide Key;
    assert s == s[..j] + [s[j]] + s[j + 1..];
    assert s[j] !in s[..j] && s[j] !in s[j + 1..];
    assert multiset(s[..j])[s[j]] == 0 && multiset(s[j + 1..])[s[j]] == 0;
  }

  lemma RankedCandidates(env: Env, opts: Options, docs: seq<Document>, safe: seq<Document>)
    requires |safe| == |docs|
    ensures (var ranked := Ranked(Candidates(env, opts, docs, safe, |docs|, 0));
             InOrder(ranked) && OnePerOperation(ranked, docs))
  {
    hide Ranked, Candidates, CandidateAt, DistinctKeys, InOrder, Key;
    var cs := Candidates(env, opts, docs, safe, |docs|, 0);
    CandidatesUpTo(env, opts, docs, safe, |docs|, 0);
    CandidatePosition(env, opts, docs, safe);
    RankedOrders(cs);
    DistinctByMultiset(cs, Ranked(cs));
    forall c ensures c in Ranked(cs) <==> c in cs {
      assert c in multiset(Ranked(cs)) <==> c in multiset(cs);
    }
    forall d, i {:trigger Has(Ranked(cs), d, i)} | 0 <= d < |docs| && 0 <= i < |docs[d].operations|
      ensures Has(Ranked(cs), d, i)
    {
      assert CandidateAt(env, opts, docs, safe, d, i) in Ranked(cs);
    }
  }

  // ---------------------------------------------------------------- selections

  /** A reference names an operation: same ID, and the same document or none given. */
  predicate Names(ref: Ref, m: Metadata, op: Operation) {
    && TrimSpace(ref.operationId) != "" && TrimSpace(ref.operationId) == TrimSpace(op.operationId)
    && (TrimSpace(ref.documentPath) == "" || TrimSpace(ref.documentPath) == DocumentPath(m))
  }

  /** Control characters make a text unsafe. */
  ghost predicate FlagsControls(env: Env) {
    forall s, n {:trigger env.sanitize(s, n)} :: '\0' in s ==> env.sanitize(s, n).1
  }

  lemma PathTrimmed(m: Metadata)
    ensures TrimSpace(DocumentPath(m)) == DocumentPath(m)
  {
    hide TrimSpace;
    TrimSpaceIdempotent(m.relativePath);
    TrimSpaceIdempotent(m.path);
  }

  lemma KeysMatch(ref: Ref, path: string, op: Operation)
    requires '\0' !in ref.documentPath && '\0' !in ref.operationId
    ensures OperationKey(ref.documentPath, TrimSpace(ref.operationId)) == OperationKey(path, op.operationId) <==>
            TrimSpace(ref.documentPath) == TrimSpace(path) && TrimSpace(ref.operationId) == TrimSpace(op.operationId)
  {
    hide TrimSpace;
    TrimSpaceIdempotent(ref.operationId);
    TrimmedOf(ref.documentPath);
    TrimmedOf(ref.operationId);
    var a, b, c, d := TrimSpace(ref.documentPath), TrimSpace(ref.operationId), TrimSpace(path),
        TrimSpace(op.operationId);
    if a + ['\0'] + b == c + ['\0'] + d {
      SplitUnique(a, b, c, d, '\0');
    }
  }

  /** An operation is selected exactly when a safe reference names it: joining path and ID
      by a NUL loses nothing. */
  lemma SelectedExactly(env: Env, refs: seq<Ref>, m: Metadata, op: Operation)
    requires FlagsControls(env) && forall ref <- refs :: !UnsafeRef(env, ref)
    ensures IsSelected(SelectedKeys(refs), m, op) <==> exists ref <- refs :: Names(ref, m, op)
  {
    hide TrimSpace, OperationKey, DocumentPath;
    PathTrimmed(m);
    assert TrimSpace("") == "" by { TrimSpaceFixes(""); }
    forall ref <- refs ensures '\0' !in ref.documentPath && '\0' !in ref.operationId {
      assert !UnsafeRef(env, ref);
    }
    forall ref <- refs
      ensures TrimSpace(ref.operationId) != "" ==>
                (Names(ref, m, op) <==>
                 || OperationKey(ref.documentPath, TrimSpace(ref.operationId))
                    == OperationKey(DocumentPath(m), op.operationId)
                 || OperationKey(ref.documentPath, TrimSpace(ref.operationId)) == OperationKey("", op.operationId))
    {
      KeysMatch(ref, DocumentPath(m), op);
      KeysMatch(ref, "", op);
    }
  }

  // ---------------------------------------------------------------- the size grows with the set

  lemma {:induction false} PicksGrow(env: Env, ranked: seq<Candidate>, d: nat, small: set<string>, large: set<string>)
    requires small <= large
    ensures OperationsSize(env, Picks(ranked, d, small)) <= OperationsSize(env, Picks(ranked, d, large))
    ensures |Picks(ranked, d, small)| <= |Picks(ranked, d, large)|
  {
    hide Key;
    if ranked != [] {
      PicksGrow(env, ranked[1..], d, small, large);
      var s, l := Picks(ranked[1..], d, small), Picks(ranked[1..], d, large);
      assert [] + s == s && [] + l == l;
      assert ([ranked[0].op] + s)[1..] == s && ([ranked[0].op] + l)[1..] == l;
    }
  }

  lemma {:induction false} BuildGrows(env: Env, safe: seq<Document>, d: nat, ranked: seq<Candidate>,
                                      small: set<string>, large: set<string>)
    requires d <= |safe| && small <= large
    ensures ElementsSize(env, Build(env, safe, d, ranked, small))
         <= ElementsSize(env, Build(env, safe, d, ranked, large))
    ensures |Build(env, safe, d, ranked, small)| <= |Build(env, safe, d, ranked, large)|
    decreases |safe| - d
  {
    hide Picks, OperationsSize, SanitizeMetadata;
    if d < |safe| {
      PicksGrow(env, ranked, d, small, large);
      BuildGrows(env, safe, d + 1, ranked, small, large);
      var s, l := Build(env, safe, d + 1, ranked, small), Build(env, safe, d + 1, ranked, large);
      var meta := SanitizeMetadata(env, safe[d].meta);
      ConsSize(env, Document(meta, Picks(ranked, d, small)), s);
      ConsSize(env, Document(meta, Picks(ranked, d, large)), l);
    }
  }

  lemma ConsSize(env: Env, doc: Document, docs: seq<Document>)
    ensures ElementsSize(env, [doc] + docs)
         == env.headSize(doc.meta) + OperationsSize(env, doc.operations) + (if docs != [] then 1 else 0)
           + ElementsSize(env, docs)
  {
    hide OperationsSize;
    assert ([doc] + docs)[1..] == docs;
  }

  /** Including more operations never shrinks the encoding. */
  lemma CostGrows(env: Env, safe: seq<Document>, ranked: seq<Candidate>, small: set<string>, large: set<string>)
    requires small <= large
    ensures Cost(env, safe, ranked, small) <= Cost(env, safe, ranked, large)
  {
    hide Build, ElementsSize;
    BuildGrows(env, safe, 0, ranked, small, large);
  }

  // ---------------------------------------------------------------- greedy packing

  /** How many of the first `k` candidates a set includes without their being selected. */
  function Extra(ranked: seq<Candidate>, k: nat, included: set<string>): nat
    requires k <= |ranked|
  {
    if k == 0 then 0
    else (if !ranked[k - 1].selected && Key(ranked[k - 1]) in included then 1 else 0) + Extra(ranked, k - 1, included)
  }

  lemma {:induction false} ExtraSame(ranked: seq<Candidate>, k: nat, a: set<string>, b: set<string>)
    requires k <= |ranked|
    requires forall j :: 0 <= j < k && !ranked[j].selected ==> (Key(ranked[j]) in a <==> Key(ranked[j]) in b)
    ensures Extra(ranked, k, a) == Extra(ranked, k, b)
  {
    hide Key;
    if k > 0 {
      ExtraSame(ranked, k - 1, a, b);
    }
  }

  lemma {:induction false} ExtraPrefix(ranked: seq<Candidate>, j: nat, k: nat, included: set<string>)
    requires j <= k <= |ranked|
    ensures Extra(ranked, j, included) <= Extra(ranked, k, included)
    decreases k
  {
    hide Key;
    if j < k {
      ExtraPrefix(ranked, j, k - 1, included);
    }
  }

  /** The packing after `k` candidates: all selected ones, only keys of seen or selected
      candidates, within the limit and the budget. */
  lemma {:induction false} PackInvariant(env: Env, safe: seq<Document>, ranked: seq<Candidate>, limit: nat, k: nat)
    requires k <= |ranked| && DistinctKeys(ranked)
    requires Cost(env, safe, ranked, SelectedOf(ranked)) <= env.budget.maxContextBytes
    ensures (var p := Pack(env, safe, ranked, limit, k);
             && SelectedOf(ranked) <= p.included
             && (forall j | k <= j < |ranked| :: Key(ranked[j]) in p.included <==> ranked[j].selected)
             && Extra(ranked, k, p.included) == p.unselected <= limit
             && Cost(env, safe, ranked, p.included) <= env.budget.maxContextBytes)
  {
    hide Key, Cost, SelectedOf;
    SelectedKeysOf(ranked);
    if k > 0 {
      PackInvariant(env, safe, ranked, limit, k - 1);
      var before, p := Pack(env, safe, ranked, limit, k - 1), Pack(env, safe, ranked, limit, k);
      forall j | k <= j < |ranked| ensures Key(ranked[j]) != Key(ranked[k - 1]) {
      }
      forall j | 0 <= j < k - 1 ensures Key(ranked[j]) in p.included <==> Key(ranked[j]) in before.included {
        assert Key(ranked[j]) != Key(ranked[k - 1]);
      }
      ExtraSame(ranked, k - 1, before.included, p.included);
    }
  }

  lemma SelectedKeysOf(ranked: seq<Candidate>)
    ensures DistinctKeys(ranked) ==>
              forall j | 0 <= j < |ranked| :: Key(ranked[j]) in SelectedOf(ranked) <==> ranked[j].selected
  {
    hide Key;
  }

  lemma {:induction false} PackGrows(env: Env, safe: seq<Document>, ranked: seq<Candidate>, limit: nat, j: nat, k: nat)
    requires j <= k <= |ranked|
    ensures Pack(env, safe, ranked, limit, j).included <= Pack(env, safe, ranked, limit, k).included
    decreases k
  {
    hide Key, Cost, SelectedOf;
    if j < k {
      PackGrows(env, safe, ranked, limit, j, k - 1);
    }
  }

  /** Once seen, a candidate's fate is settled. */
  lemma {:induction false} PackSettled(env: Env, safe: seq<Document>, ranked: seq<Candidate>, limit: nat, j: nat,
                                       k: nat)
    requires j < k <= |ranked| && DistinctKeys(ranked)
    ensures Key(ranked[j]) in Pack(env, safe, ranked, limit, k).included
       <==> Key(ranked[j]) in Pack(env, safe, ranked, limit, j + 1).included
    decreases k
  {
    hide Key, Cost, SelectedOf;
    if j + 1 < k {
      PackSettled(env, safe, ranked, limit, j, k - 1);
      assert Key(ranked[j]) != Key(ranked[k - 1]);
    }
  }

  ghost predicate Feasible(env: Env, safe: seq<Document>, ranked: seq<Candidate>, limit: nat, included: set<string>) {
    && SelectedOf(ranked) <= included
    && Extra(ranked, |ranked|, included) <= limit
    && Cost(env, safe, ranked, included) <= env.budget.maxContextBytes
  }

  ghost function Chosen(env: Env, safe: seq<Document>, ranked: seq<Candidate>, limit: nat): set<string> {
    Pack(env, safe, ranked, limit, |ranked|).included
  }

  /** The packing itself is feasible. */
  lemma ChosenFeasible(env: Env, safe: seq<Document>, ranked: seq<Candidate>, limit: nat)
    requires DistinctKeys(ranked)
    requires Cost(env, safe, ranked, SelectedOf(ranked)) <= env.budget.maxContextBytes
    ensures Feasible(env, safe, ranked, limit, Chosen(env, safe, ranked, limit))
  {
    hide Pack, Cost, SelectedOf, Extra, DistinctKeys;
    PackInvariant(env, safe, ranked, limit, |ranked|);
  }

  /** Of all feasible sets the packing is the best ranked: where one agrees with it on the
      candidates before `k` and includes candidate `k`, so does the packing. */
  lemma BestRanked(env: Env, safe: seq<Document>, ranked: seq<Candidate>, limit: nat, other: set<string>, k: nat)
    requires k < |ranked| && DistinctKeys(ranked)
    requires Feasible(env, safe, ranked, limit, other)
    requires forall j :: 0 <= j < k ==>
               (Key(ranked[j]) in other <==> Key(ranked[j]) in Chosen(env, safe, ranked, limit))
    requires Key(ranked[k]) in other
    ensures Key(ranked[k]) in Chosen(env, safe, ranked, limit)
  {
    hide Key, Cost, SelectedOf, Pack;
    var c := ranked[k];
    CostGrows(env, safe, ranked, SelectedOf(ranked), other);
    PackInvariant(env, safe, ranked, limit, |ranked|);
    if c.selected {
      SelectedKeysOf(ranked);
    } else {
      var p := Pack(env, safe, ranked, limit, k);
      PackInvariant(env, safe, ranked, limit, k);
      PackKeys(env, safe, ranked, limit, k);
      forall key <- p.included ensures key in other {
        if key !in SelectedOf(ranked) {
          var j :| 0 <= j < k && Key(ranked[j]) == key;
          PackGrows(env, safe, ranked, limit, k, |ranked|);
        }
      }
      forall j | 0 <= j < k ensures Key(ranked[j]) in other <==> Key(ranked[j]) in p.included {
        PackSettled(env, safe, ranked, limit, j, |ranked|);
        PackSettled(env, safe, ranked, limit, j, k);
      }
      ExtraSame(ranked, k, other, p.included);
      ExtraPrefix(ranked, k + 1, |ranked|, other);
      CostGrows(env, safe, ranked, p.included + {Key(c)}, other);
      Taken(env, safe, ranked, limit, k);
      PackGrows(env, safe, ranked, limit, k + 1, |ranked|);
    }
  }

  lemma Taken(env: Env, safe: seq<Document>, ranked: seq<Candidate>, limit: nat, k: nat)
    requires k < |ranked| && !ranked[k].selected && Pack(env, safe, ranked, limit, k).unselected < limit
    requires Cost(env, safe, ranked, Pack(env, safe, ranked, limit, k).included + {Key(ranked[k])})
          <= env.budget.maxContextBytes
    ensures Key(ranked[k]) in Pack(env, safe, ranked, limit, k + 1).included
  {
    hide Key, Cost, SelectedOf;
  }

  lemma {:induction false} PackKeys(env: Env, safe: seq<Document>, ranked: seq<Candidate>, limit: nat, k: nat)
    requires k <= |ranked|
    ensures forall key <- Pack(env, safe, ranked, limit, k).included ::
              key in SelectedOf(ranked) || exists j :: 0 <= j < k && Key(ranked[j]) == key
  {
    hide Key, Cost, SelectedOf;
    if k > 0 {
      PackKeys(env, safe, ranked, limit, k - 1);
      assert Key(ranked[k - 1]) == Key(ranked[k - 1]);
    }
  }

  /** The packing counts the candidates it has taken beside the selected ones. */
  lemma UnselectedSoFar(env: Env, safe: seq<Document>, ranked: seq<Candidate>, limit: nat, k: nat)
    requires k <= |ranked| && DistinctKeys(ranked)
    requires Cost(env, safe, ranked, SelectedOf(ranked)) <= env.budget.maxContextBytes
    ensures Pack(env, safe, ranked, limit, k).unselected == Extra(ranked, k, Chosen(env, safe, ranked, limit)) <= limit
  {
    hide Key, Cost, SelectedOf, Pack;
    PackInvariant(env, safe, ranked, limit, k);
    var p, chosen := Pack(env, safe, ranked, limit, k), Chosen(env, safe, ranked, limit);
    forall j | 0 <= j < k ensures Key(ranked[j]) in p.included <==> Key(ranked[j]) in chosen {
      PackSettled(env, safe, ranked, limit, j, |ranked|);
      PackSettled(env, safe, ranked, limit, j, k);
    }
    ExtraSame(ranked, k, p.included, chosen);
  }

  lemma SelectedChosen(env: Env, safe: seq<Document>, ranked: seq<Candidate>, limit: nat, k: nat)
    requires k < |ranked| && DistinctKeys(ranked)
    requires Cost(env, safe, ranked, SelectedOf(ranked)) <= env.budget.maxContextBytes
    ensures ranked[k].selected ==> Key(ranked[k]) in Chosen(env, safe, ranked, limit)
  {
    hide Key, Cost, Pack, Chosen, Extra;
    ChosenFeasible(env, safe, ranked, limit);
    assert ranked[k] in ranked;
  }

  lemma TakenCounts(ranked: seq<Candidate>, k: nat, included: set<string>)
    requires k < |ranked| && !ranked[k].selected && Key(ranked[k]) in included
    ensures Extra(ranked, k, included) < Extra(ranked, |ranked|, included)
  {
    hide Key;
    ExtraPrefix(ranked, k + 1, |ranked|, included);
  }

  /** A candidate that was skipped while the limit had room does not fit with the final set. */
  lemma SkippedNeverFits(env: Env, safe: seq<Document>, ranked: seq<Candidate>, limit: nat, k: nat)
    requires k < |ranked| && !ranked[k].selected && Pack(env, safe, ranked, limit, k).unselected < limit
    requires Key(ranked[k]) !in Chosen(env, safe, ranked, limit)
    ensures Cost(env, safe, ranked, Chosen(env, safe, ranked, limit) + {Key(ranked[k])}) > env.budget.maxContextBytes
  {
    hide Key, Cost, SelectedOf, Pack, Chosen;
    var p, chosen := Pack(env, safe, ranked, limit, k), Chosen(env, safe, ranked, limit);
    ChosenIs(env, safe, ranked, limit);
    PackGrows(env, safe, ranked, limit, k, |ranked|);
    CostGrows(env, safe, ranked, p.included + {Key(ranked[k])}, chosen + {Key(ranked[k])});
    if Cost(env, safe, ranked, p.included + {Key(ranked[k])}) <= env.budget.maxContextBytes {
      Taken(env, safe, ranked, limit, k);
      PackGrows(env, safe, ranked, limit, k + 1, |ranked|);
    }
  }

  /** A candidate is left out exactly when no reference names it and either the candidates
      ranked before it used up the limit, or it does not fit with the final set. */
  lemma LeftOutExactly(env: Env, safe: seq<Document>, ranked: seq<Candidate>, limit: nat, k: nat)
    requires k < |ranked| && DistinctKeys(ranked)
    requires Cost(env, safe, ranked, SelectedOf(ranked)) <= env.budget.maxContextBytes
    ensures (var chosen := Chosen(env, safe, ranked, limit);
             Key(ranked[k]) !in chosen <==>
               && !ranked[k].selected
               && (Extra(ranked, k, chosen) == limit
                   || Cost(env, safe, ranked, chosen + {Key(ranked[k])}) > env.budget.maxContextBytes))
  {
    hide Key, Cost, SelectedOf, Pack, Chosen, Extra, DistinctKeys;
    var chosen := Chosen(env, safe, ranked, limit);
    UnselectedSoFar(env, safe, ranked, limit, k);
    ChosenFeasible(env, safe, ranked, limit);
    SelectedChosen(env, safe, ranked, limit, k);
    if Key(ranked[k]) in chosen {
      assert chosen + {Key(ranked[k])} == chosen;
      if !ranked[k].selected {
        TakenCounts(ranked, k, chosen);
      }
    } else if !ranked[k].selected && Extra(ranked, k, chosen) != limit {
      SkippedNeverFits(env, safe, ranked, limit, k);
    }
  }

  /** With a positive limit, whatever is left out is reported. */
  lemma {:induction false} NothingSilent(env: Env, safe: seq<Document>, ranked: seq<Candidate>, limit: nat, k: nat)
    requires k <= |ranked| && limit > 0 && DistinctKeys(ranked)
    ensures (var p := Pack(env, safe, ranked, limit, k);
             p.skippedForBudget || p.skippedForLimit || forall j :: 0 <= j < k ==> Key(ranked[j]) in p.included)
  {
    hide Key, Cost, SelectedOf;
    SelectedKeysOf(ranked);
    PackGrows(env, safe, ranked, limit, 0, k);
    if k > 0 {
      NothingSilent(env, safe, ranked, limit, k - 1);
    }
  }

  // ---------------------------------------------------------------- conservation

  function AllOperations(docs: seq<Document>): seq<Operation> {
    if docs == [] then [] else docs[0].operations + AllOperations(docs[1..])
  }

  /** The operations of the included candidates among the first `k`, of documents from `d` on. */
  function OperationsOf(ranked: seq<Candidate>, k: nat, d: nat, included: set<string>): seq<Operation>
    requires k <= |ranked|
  {
    if k == 0 then []
    else OperationsOf(ranked, k - 1, d, included)
         + if ranked[k - 1].doc >= d && Key(ranked[k - 1]) in included then [ranked[k - 1].op] else []
  }

  lemma {:induction false} PicksSnoc(ranked: seq<Candidate>, c: Candidate, d: nat, included: set<string>)
    ensures Picks(ranked + [c], d, included)
         == Picks(ranked, d, included) + if c.doc == d && Key(c) in included then [c.op] else []
  {
    hide Key;
    if ranked == [] {
      assert [] + [c] == [c];
      assert Picks([c], d, included) == (if c.doc == d && Key(c) in included then [c.op] else [])
             + Picks([], d, included);
    } else {
      PicksSnoc(ranked[1..], c, d, included);
      assert (ranked + [c])[1..] == ranked[1..] + [c];
    }
  }

  lemma {:induction false} DocumentSplits(ranked: seq<Candidate>, k: nat, d: nat, included: set<string>)
    requires k <= |ranked|
    ensures multiset(OperationsOf(ranked, k, d, included))
         == multiset(Picks(ranked[..k], d, included)) + multiset(OperationsOf(ranked, k, d + 1, included))
  {
    hide Key, Picks;
    if k > 0 {
      var c := ranked[k - 1];
      var before, after := OperationsOf(ranked, k - 1, d, included), OperationsOf(ranked, k - 1, d + 1, included);
      var picks, counts := Picks(ranked[..k - 1], d, included), Key(c) in included;
      DocumentSplits(ranked, k - 1, d, included);
      PicksSnoc(ranked[..k - 1], c, d, included);
      assert ranked[..k] == ranked[..k - 1] + [c];
      SplitsOne(before, picks, after, if c.doc == d && counts then [c.op] else [],
                if c.doc >= d + 1 && counts then [c.op] else []);
      assert (if c.doc >= d && counts then [c.op] else [])
          == (if c.doc == d && counts then [c.op] else []) + (if c.doc >= d + 1 && counts then [c.op] else []);
    } else {
      PicksEmpty(d, included);
      assert ranked[..k] == [];
    }
  }

  lemma SplitsOne<T>(all: seq<T>, here: seq<T>, later: seq<T>, x: seq<T>, y: seq<T>)
    requires multiset(all) == multiset(here) + multiset(later)
    ensures multiset(all + (x + y)) == multiset(here + x) + multiset(later + y)
  {
  }

  lemma PicksEmpty(d: nat, included: set<string>)
    ensures Picks([], d, included) == []
  {
  }

  lemma {:induction false} NoneBeyond(ranked: seq<Candidate>, k: nat, d: nat, included: set<string>)
    requires k <= |ranked| && forall c <- ranked :: c.doc < d
    ensures OperationsOf(ranked, k, d, included) == []
  {
    if k > 0 {
      NoneBeyond(ranked, k - 1, d, included);
      assert ranked[k - 1] in ranked;
    }
  }

  /** The documents hold exactly the operations of the included candidates, each once. */
  lemma {:induction false} BuildConserves(env: Env, safe: seq<Document>, d: nat, ranked: seq<Candidate>,
                                          included: set<string>)
    requires d <= |safe| && forall c <- ranked :: c.doc < |safe|
    ensures multiset(AllOperations(Build(env, safe, d, ranked, included)))
         == multiset(OperationsOf(ranked, |ranked|, d, included))
    decreases |safe| - d
  {
    hide Picks, SanitizeMetadata, OperationsOf;
    if d == |safe| {
      NoneBeyond(ranked, |ranked|, d, included);
    } else {
      BuildConserves(env, safe, d + 1, ranked, included);
      DocumentSplits(ranked, |ranked|, d, included);
      assert ranked[..|ranked|] == ranked;
      var ops, rest := Picks(ranked, d, included), Build(env, safe, d + 1, ranked, included);
      ConsOperations(Document(SanitizeMetadata(env, safe[d].meta), ops), rest);
    }
  }

  lemma ConsOperations(doc: Document, docs: seq<Document>)
    ensures AllOperations([doc] + docs) == doc.operations + AllOperations(docs)
  {
    assert ([doc] + docs)[1..] == docs;
  }

  lemma {:induction false} OperationsCounted(ranked: seq<Candidate>, k: nat, included: set<string>)
    requires k <= |ranked| && SelectedOf(ranked) <= included
    ensures |OperationsOf(ranked, k, 0, included)| == CountSelected(ranked, k) + Extra(ranked, k, included)
  {
    hide Key;
    if k > 0 {
      OperationsCounted(ranked, k - 1, included);
      assert ranked[k - 1].selected ==> Key(ranked[k - 1]) in SelectedOf(ranked);
    }
  }

  // ---------------------------------------------------------------- the work budget

  function TotalOperations(docs: seq<Document>): nat {
    if docs == [] then 0 else |docs[0].operations| + TotalOperations(docs[1..])
  }

  /** The scan stops exactly when the documents hold more operations than the budget. */
  lemma {:induction false} ScanOverflows(env: Env, docs: seq<Document>, count: nat)
    requires count <= env.budget.maxOperations
    ensures ScanDocuments(env, docs, count).overflow <==> TotalOperations(docs) > env.budget.maxOperations - count
  {
    hide MetadataDiagnostics, SanitizeMetadata;
    if docs != [] && |docs[0].operations| <= env.budget.maxOperations - count {
      ScanOverflows(env, docs[1..], count + |docs[0].operations|);
    }
  }

  lemma {:induction false} ScanWarns(env: Env, docs: seq<Document>, count: nat)
    requires !ScanDocuments(env, docs, count).overflow
    ensures !HasError(ScanDocuments(env, docs, count).diagnostics)
  {
    hide SanitizeMetadata, DocumentPath, MetadataChanges;
    if docs != [] {
      ScanWarns(env, docs[1..], count + |docs[0].operations|);
    }
  }

  lemma ErrorsJoin(a: seq<Diagnostic>, b: seq<Diagnostic>)
    ensures HasError(a + b) <==> HasError(a) || HasError(b)
  {
    if HasError(a) {
      var d :| d in a && d.severity == Error;
      assert d in a + b;
    }
    if HasError(b) {
      var d :| d in b && d.severity == Error;
      assert d in a + b;
    }
  }

  // ---------------------------------------------------------------- main results

  ghost function Shortlist(env: Env, docs: seq<Document>, opts: Options): seq<Candidate>
    requires !ScanDocuments(env, docs, 0).overflow
  {
    Ranked(Candidates(env, opts, docs, ScanDocuments(env, docs, 0).docs, |docs|, 0))
  }

  /** Ranking succeeds exactly when the work budget holds, every reference is safe, no
      operation had to be compacted and the selected operations fit together. */
  lemma SucceedsExactly(env: Env, docs: seq<Document>, opts: Options)
    requires env.budget.maxOperations >= 0
    ensures !Rank(env, docs, opts).failed <==>
            && |docs| <= env.budget.maxOperations && |opts.selected| <= env.budget.maxOperations
            && TotalOperations(docs) <= env.budget.maxOperations
            && (forall ref <- opts.selected :: !UnsafeRef(env, ref))
            && !HasError(AllDiagnostics(env, docs))
            && (var scan := ScanDocuments(env, docs, 0);
                scan.overflow
                || Cost(env, scan.docs, Shortlist(env, docs, opts), SelectedOf(Shortlist(env, docs, opts)))
                   <= env.budget.maxContextBytes)
  {
    hide ScanDocuments, Candidates, Ranked, Cost, Build, Pack, SelectedOf, CountSelected, AllDiagnostics, HasError,
         UnsafeRef, ElementsSize, TotalOperations;
    ScanOverflows(env, docs, 0);
    var scan := ScanDocuments(env, docs, 0);
    if !scan.overflow {
      ScanWarns(env, docs, 0);
      ErrorsJoin(QueryDiagnostics(env, opts), scan.diagnostics);
      ErrorsJoin(QueryDiagnostics(env, opts) + scan.diagnostics, AllDiagnostics(env, docs));
      QueryWarns(env, opts);
    }
    if FirstUnsafe(env, opts.selected) < |opts.selected| {
      assert opts.selected[FirstUnsafe(env, opts.selected)] in opts.selected;
    }
  }

  lemma QueryWarns(env: Env, opts: Options)
    ensures !HasError(QueryDiagnostics(env, opts))
  {
  }

  /** The report when ranking succeeds, in terms of the shortlist and the greedy packing. */
  lemma SuccessReport(env: Env, docs: seq<Document>, opts: Options)
    requires !Rank(env, docs, opts).failed
    ensures !ScanDocuments(env, docs, 0).overflow
    ensures (var r, ranked, safe := Rank(env, docs, opts), Shortlist(env, docs, opts), ScanDocuments(env, docs, 0).docs;
             var p := Pack(env, safe, ranked, Limit(opts), |ranked|);
             && Cost(env, safe, ranked, SelectedOf(ranked)) <= env.budget.maxContextBytes
             && r.documents == Build(env, safe, 0, ranked, p.included)
             && r.bytes == Size(env, r.documents) == Cost(env, safe, ranked, p.included)
             && r.selectedOperations == CountSelected(ranked, |ranked|)
             && (r.truncated <==> r.diagnostics != [])
             && (p.skippedForBudget || p.skippedForLimit ==> r.truncated))
  {
    hide ScanDocuments, Candidates, Ranked, Build, Pack, SelectedOf, CountSelected, AllDiagnostics, HasError,
         UnsafeRef, ElementsSize;
  }

  /** The packed context: within the budget; holding exactly the operations of the chosen
      candidates, among them every operation a reference names, each once; with at most
      `limit` others; leaving out exactly the candidates that came after the limit was used
      up or do not fit with the final set; and reporting it when anything is left out. */
  lemma ContextGuarantees(env: Env, docs: seq<Document>, opts: Options)
    requires FlagsControls(env) && !Rank(env, docs, opts).failed
    ensures !ScanDocuments(env, docs, 0).overflow
    ensures (var r, ranked, safe := Rank(env, docs, opts), Shortlist(env, docs, opts), ScanDocuments(env, docs, 0).docs;
             var chosen := Chosen(env, safe, ranked, Limit(opts));
             && InOrder(ranked) && OnePerOperation(ranked, docs)
             && r.bytes == Size(env, r.documents) <= env.budget.maxContextBytes
             && multiset(AllOperations(r.documents)) == multiset(OperationsOf(ranked, |ranked|, 0, chosen))
             && (forall c <- ranked :: c.selected ==> Key(c) in chosen)
             && |AllOperations(r.documents)| == r.selectedOperations + Extra(ranked, |ranked|, chosen)
             && Extra(ranked, |ranked|, chosen) <= Limit(opts)
             && (forall k | 0 <= k < |ranked| :: Key(ranked[k]) !in chosen <==>
                   && !ranked[k].selected
                   && (Extra(ranked, k, chosen) == Limit(opts)
                       || Cost(env, safe, ranked, chosen + {Key(ranked[k])}) > env.budget.maxContextBytes))
             && (Limit(opts) > 0 && (exists c <- ranked :: Key(c) !in chosen) ==> r.truncated))
  {
    hide *;
    SuccessReport(env, docs, opts);
    var r, ranked, safe := Rank(env, docs, opts), Shortlist(env, docs, opts), ScanDocuments(env, docs, 0).docs;
    ShortlistIs(env, docs, opts);
    var limit := Limit(opts);
    DistinctOf(ranked, docs);
    ChosenIs(env, safe, ranked, limit);
    var chosen := Chosen(env, safe, ranked, limit);
    ChosenFeasible(env, safe, ranked, limit);
    FeasibleMeans(env, safe, ranked, limit, chosen);
    BuildConserves(env, safe, 0, ranked, chosen);
    OperationsCounted(ranked, |ranked|, chosen);
    assert |multiset(AllOperations(r.documents))| == |AllOperations(r.documents)|;
    assert |multiset(OperationsOf(ranked, |ranked|, 0, chosen))| == |OperationsOf(ranked, |ranked|, 0, chosen)|;
    forall k | 0 <= k < |ranked|
      ensures Key(ranked[k]) !in chosen <==>
                && !ranked[k].selected
                && (Extra(ranked, k, chosen) == limit
                    || Cost(env, safe, ranked, chosen + {Key(ranked[k])}) > env.budget.maxContextBytes)
    {
      LeftOutExactly(env, safe, ranked, limit, k);
    }
    if limit > 0 {
      NothingSilent(env, safe, ranked, limit, |ranked|);
    }
  }

  lemma ShortlistIs(env: Env, docs: seq<Document>, opts: Options)
    requires !ScanDocuments(env, docs, 0).overflow
    ensures InOrder(Shortlist(env, docs, opts)) && OnePerOperation(Shortlist(env, docs, opts), docs)
  {
    hide Ranked, Candidates, InOrder, OnePerOperation, ScanDocuments;
    RankedCandidates(env, opts, docs, ScanDocuments(env, docs, 0).docs);
  }

  lemma DistinctOf(ranked: seq<Candidate>, docs: seq<Document>)
    requires OnePerOperation(ranked, docs)
    ensures DistinctKeys(ranked) && forall c <- ranked :: c.doc < |docs|
  {
  }

  lemma ChosenIs(env: Env, safe: seq<Document>, ranked: seq<Candidate>, limit: nat)
    ensures Chosen(env, safe, ranked, limit) == Pack(env, safe, ranked, limit, |ranked|).included
  {
  }

  lemma FeasibleMeans(env: Env, safe: seq<Document>, ranked: seq<Candidate>, limit: nat, included: set<string>)
    requires Feasible(env, safe, ranked, limit, included)
    ensures SelectedOf(ranked) <= included && (forall c <- ranked :: c.selected ==> Key(c) in included)
    ensures Extra(ranked, |ranked|, included) <= limit
    ensures Cost(env, safe, ranked, included) <= env.budget.maxContextBytes
  {
    hide Key, Cost, Extra;
  }

  /** Every operation that a reference names is in the context. */
  lemma NamedOperationsChosen(env: Env, docs: seq<Document>, opts: Options, d: nat, i: nat)
    requires FlagsControls(env) && !Rank(env, docs, opts).failed
    requires d < |docs| && i < |docs[d].operations|
    requires exists ref <- opts.selected :: Names(ref, docs[d].meta, docs[d].operations[i])
    ensures !ScanDocuments(env, docs, 0).overflow
    ensures (var safe := ScanDocuments(env, docs, 0).docs;
             var c := CandidateAt(env, opts, docs, safe, d, i);
             c in Shortlist(env, docs, opts) && Key(c) in Chosen(env, safe, Shortlist(env, docs, opts), Limit(opts)))
  {
    hide Rank, ScanDocuments, Candidates, Ranked, IsSelected, SelectedKeys, Names, Chosen, Key, UnsafeRef, InOrder,
         DistinctKeys, Cost, AllOperations, OperationsOf, Extra, Size, OnePerOperation, HasError, AllDiagnostics,
         SelectedOf, TotalOperations;
    ContextGuarantees(env, docs, opts);
    var safe := ScanDocuments(env, docs, 0).docs;
    SafeRefs(env, docs, opts);
    SelectedExactly(env, opts.selected, docs[d].meta, docs[d].operations[i]);
    CandidatesUpTo(env, opts, docs, safe, |docs|, 0);
    var cs := Candidates(env, opts, docs, safe, |docs|, 0);
    RankedOrders(cs);
    var c := CandidateAt(env, opts, docs, safe, d, i);
    assert c in multiset(cs);
    assert c in multiset(Ranked(cs));
  }

  lemma SafeRefs(env: Env, docs: seq<Document>, opts: Options)
    requires !Rank(env, docs, opts).failed
    ensures forall ref <- opts.selected :: !UnsafeRef(env, ref)
  {
    hide UnsafeRef, ScanDocuments, PackReport, Prepared;
  }
}
