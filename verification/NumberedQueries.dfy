/** Documents of short queries, and one of them whose operation IDs are not distinct: the lexer
    reads numbers as names, and a number can hold the dot that duplicate numbering adds. */
module NumberedQueries {
  import opened GraphQLLexer
  import opened GraphQLModel
  import opened GraphQLProofs
  import opened GraphQLSource
  import opened GraphQLSpec
  import opened Lexing
  import opened OperationIDs
  import opened Text
  import opened Tokens
  import opened Wrappers
  import Ordering

  /** A named query that selects one field. */
  datatype Query = Query(name: string, field: string)

  predicate Word(s: string) {
    IsName(s) || IsNumber(s)
  }

  predicate Words(qs: seq<Query>) {
    forall q <- qs :: Word(q.name) && Word(q.field)
  }

  function QueryTokens(q: Query): seq<Token> {
    [N("query")] + ([N(q.name)] + ([P("{")] + ([N(q.field)] + [P("}")])))
  }

  function TokensOf(qs: seq<Query>): seq<Token> {
    if qs == [] then [] else QueryTokens(qs[0]) + TokensOf(qs[1..])
  }

  function Meaning(qs: seq<Query>): seq<Operation> {
    if qs == [] then [] else [NewOperation("query", qs[0].name, [], [qs[0].field])] + Meaning(qs[1..])
  }

  lemma WordPlain(s: string)
    requires Word(s)
    ensures s != "" && s != "}" && s != "..." && Printable(N(s))
    ensures Push(N(s), Nesting(0, 0)) == Some(Nesting(1, 0))
  {
  }

  /** The field of a query and its closing brace. */
  lemma SelectionParsed(field: string, c: Cursor)
    requires Word(field)
    ensures Selections(Before([N(field)] + [P("}")], c), []) == ([field], c)
  {
    var ending := Before([P("}")], c);
    WordPlain(field);
    BeforeCons(N(field), [P("}")], c);
    BeforeOne(P("}"), c);
    assert SkipBalanced(ending, "(", ")") == ending && SkipDirectives(ending) == ending
           && SkipBalanced(ending, "{", "}") == ending;
    assert [] + [field] == [field];
    assert Selections(ending, [field]) == ([field], c);
  }

  lemma QueryParsed(q: Query, c: Cursor)
    requires Word(q.name) && Word(q.field)
    ensures (var at := Before(QueryTokens(q), c);
             && at.rest != [] && at.rest[0] == N("query")
             && ParseOperation(at) == (Some(NewOperation("query", q.name, [], [q.field])), c))
  {
    hide Selections, NewOperation;
    var body := [N(q.field)] + [P("}")];
    WordPlain(q.name);
    BeforeCons(N("query"), [N(q.name)] + ([P("{")] + body), c);
    BeforeCons(N(q.name), [P("{")] + body, c);
    BeforeCons(P("{"), body, c);
    SelectionParsed(q.field, c);
    var start := Before([P("{")] + body, c);
    assert SkipDirectives(start) == start;
  }

  lemma QueryStep(q: Query, m: Model, c: Cursor)
    requires Word(q.name) && Word(q.field)
    ensures ParseDocument(Before(QueryTokens(q), c), m, "")
         == ParseDocument(c, m.(operations := m.operations + [NewOperation("query", q.name, [], [q.field])]), "")
  {
    hide NewOperation, QueryTokens, ParseOperation, ParseDefinition, TrimSpace;
    QueryParsed(q, c);
    QueryDefined(Before(QueryTokens(q), c), m);
  }

  lemma QueryDefined(c: Cursor, m: Model)
    requires c.rest != [] && c.rest[0] == N("query")
    ensures c.AtKind(Name) && !c.At("extend")
    ensures (var (op, end) := ParseOperation(c);
             ParseDefinition(c, m, "") == (if op.Some? then m.(operations := m.operations + [op.value]) else m, end))
  {
    hide ParseOperation, ParseSchema, ParseBlockType, UnionMembers, SkipDefinition;
  }

  lemma NothingParsed(m: Model)
    ensures ParseDocument(Cursor([], false), m, "") == (m, Cursor([], false))
  {
  }

  lemma {:induction false} QueriesParsed(qs: seq<Query>, m: Model)
    requires Words(qs)
    ensures ParseDocument(Cursor(TokensOf(qs), false), m, "")
         == (m.(operations := m.operations + Meaning(qs)), Cursor([], false))
    decreases |qs|
  {
    hide NewOperation, QueryTokens, Word, ParseDocument, Meaning;
    if qs == [] {
      NothingParsed(m);
      NothingMeant();
      assert m.operations + [] == m.operations;
    } else {
      var rest := Cursor(TokensOf(qs[1..]), false);
      var next := m.(operations := m.operations + [NewOperation("query", qs[0].name, [], [qs[0].field])]);
      assert Before(QueryTokens(qs[0]), rest) == Cursor(TokensOf(qs), false);
      QueryStep(qs[0], m, rest);
      QueriesParsed(qs[1..], next);
      MeaningStarts(qs, m);
    }
  }

  lemma NothingMeant()
    ensures Meaning([]) == []
  {
  }

  lemma MeaningStarts(qs: seq<Query>, m: Model)
    requires qs != []
    ensures (m.operations + [NewOperation("query", qs[0].name, [], [qs[0].field])]) + Meaning(qs[1..])
         == m.operations + Meaning(qs)
  {
    hide NewOperation;
  }

  // ---------------------------------------------------------------- the text

  function TextOf(qs: seq<Query>): string {
    if qs == [] then "" else "query " + qs[0].name + " { " + qs[0].field + " } " + TextOf(qs[1..])
  }

  lemma RenderOne(t: Token, ts: seq<Token>)
    ensures Render([t] + ts) == RenderToken(t) + (" " + Render(ts))
  {
    hide RenderToken;
    assert ([t] + ts)[1..] == ts;
  }

  lemma QueryRendered(q: Query, rest: seq<Token>)
    ensures Render(QueryTokens(q) + rest) == "query " + q.name + " { " + q.field + " } " + Render(rest)
  {
    hide Render;
    var t4 := [P("}")] + rest;
    var t3 := [N(q.field)] + t4;
    var t2 := [P("{")] + t3;
    var t1 := [N(q.name)] + t2;
    assert QueryTokens(q) + rest == [N("query")] + t1;
    RenderOne(N("query"), t1);
    RenderOne(N(q.name), t2);
    RenderOne(P("{"), t3);
    RenderOne(N(q.field), t4);
    RenderOne(P("}"), rest);
  }

  lemma NothingRendered()
    ensures Render([]) == ""
  {
  }

  lemma {:induction false} QueriesRendered(qs: seq<Query>)
    ensures Render(TokensOf(qs)) == TextOf(qs)
  {
    hide Render, QueryTokens;
    if qs == [] {
      NothingRendered();
    } else {
      QueryRendered(qs[0], TokensOf(qs[1..]));
      QueriesRendered(qs[1..]);
    }
  }

  lemma AdmitOne(t: Token, ts: seq<Token>, n: Nesting)
    ensures Admitted([t] + ts, n) <==> Push(t, n).Some? && Admitted(ts, Push(t, n).value)
  {
    hide Push;
    assert ([t] + ts)[1..] == ts;
  }

  lemma NothingAdmitted(n: Nesting)
    ensures Admitted([], n)
  {
  }

  lemma WordPushed(s: string, n: Nesting)
    requires Word(s) && n.count < MAX_WORK_ITEMS
    ensures Push(N(s), n) == Some(Nesting(n.count + 1, n.depth))
  {
  }

  lemma QueryAdmitted(q: Query, rest: seq<Token>, count: nat)
    requires Word(q.name) && Word(q.field) && count + 5 <= MAX_WORK_ITEMS
    ensures Admitted(QueryTokens(q) + rest, Nesting(count, 0)) <==> Admitted(rest, Nesting(count + 5, 0))
  {
    hide Admitted, Word;
    var t4 := [P("}")] + rest;
    var t3 := [N(q.field)] + t4;
    var t2 := [P("{")] + t3;
    var t1 := [N(q.name)] + t2;
    assert QueryTokens(q) + rest == [N("query")] + t1;
    AdmitOne(N("query"), t1, Nesting(count, 0));
    WordPushed(q.name, Nesting(count + 1, 0));
    AdmitOne(N(q.name), t2, Nesting(count + 1, 0));
    AdmitOne(P("{"), t3, Nesting(count + 2, 0));
    WordPushed(q.field, Nesting(count + 3, 1));
    AdmitOne(N(q.field), t4, Nesting(count + 3, 1));
    AdmitOne(P("}"), rest, Nesting(count + 4, 1));
  }

  lemma {:induction false} QueriesAdmitted(qs: seq<Query>, count: nat)
    requires Words(qs) && count + 5 * |qs| <= MAX_WORK_ITEMS
    ensures Admitted(TokensOf(qs), Nesting(count, 0)) && AllPrintable(TokensOf(qs))
    decreases |qs|
  {
    hide Admitted, Word, Printable, Push, QueryTokens;
    if qs == [] {
      NothingAdmitted(Nesting(count, 0));
    } else {
      QueryAdmitted(qs[0], TokensOf(qs[1..]), count);
      QueriesAdmitted(qs[1..], count + 5);
      QueryPrintable(qs[0]);
    }
  }

  lemma QueryPrintable(q: Query)
    requires Word(q.name) && Word(q.field)
    ensures AllPrintable(QueryTokens(q))
  {
  }

  /** Short queries with names or numbers for names are parsed into their operations. */
  lemma QueriesRoundTrip(qs: seq<Query>)
    requires Words(qs) && qs != [] && 5 * |qs| <= MAX_WORK_ITEMS
    ensures ParseGraphQLText(TextOf(qs)) == Parsed(Finish(NewModel.(operations := Meaning(qs))))
  {
    hide Lex, Render, ParseDocument, Admitted, AllPrintable, Finish, CompactTo, CompactTypes, NewOperation,
         QueryTokens, Word, Words;
    QueriesRendered(qs);
    QueriesAdmitted(qs, 0);
    LexRendered(TokensOf(qs), Start);
    QueriesParsed(qs, NewModel);
    assert [] + Meaning(qs) == Meaning(qs);
    assert |QueryTokens(qs[0])| == 5 by {
      FiveTokens(qs[0]);
    }
    FirstKept(qs);
  }

  lemma FiveTokens(q: Query)
    ensures |QueryTokens(q)| == 5
  {
  }

  lemma FirstKept(qs: seq<Query>)
    requires qs != []
    ensures Compact(Meaning(qs)) != []
  {
    hide NewOperation, Numbered, Kept, Base, CompactTo;
    var ops := Meaning(qs);
    QueryKept(qs[0]);
    KeptCompacted(ops, |ops|);
  }

  lemma QueryKept(q: Query)
    ensures Kept(NewOperation("query", q.name, [], [q.field]))
  {
    hide TrimSpace;
    TrimSpaceFixes("query");
  }

  lemma {:induction false} KeptCompacted(ops: seq<Operation>, k: nat)
    requires 0 < k <= |ops| && Kept(ops[0])
    ensures CompactTo(ops, k) != []
  {
    hide Kept, Numbered, Base;
    if k > 1 {
      KeptCompacted(ops, k - 1);
    }
  }

  // ---------------------------------------------------------------- the clash

  const CLASH := [Query("1", "a"), Query("1", "b"), Query("1.2", "c")]

  lemma ClashWords()
    ensures Words(CLASH)
  {
    assert IsNumber("1") && IsNumber("1.2") && IsName("a") && IsName("b") && IsName("c");
  }

  lemma TextMore(q: Query, qs: seq<Query>)
    ensures TextOf([q] + qs) == "query " + q.name + " { " + q.field + " } " + TextOf(qs)
  {
    assert ([q] + qs)[1..] == qs;
  }

  lemma ClashText()
    ensures TextOf(CLASH) == "query 1 { a } query 1 { b } query 1.2 { c } "
  {
    hide TextOf;
    var a, b, c := Query("1", "a"), Query("1", "b"), Query("1.2", "c");
    assert CLASH == [a] + ([b] + ([c] + []));
    TextMore(a, [b] + ([c] + []));
    TextMore(b, [c] + []);
    TextMore(c, []);
    NoText();
    OneText();
    TwoTexts();
  }

  lemma OneText()
    ensures "query " + "1" + " { " + "a" + " } " == "query 1 { a } "
    ensures "query " + "1" + " { " + "b" + " } " == "query 1 { b } "
  {
  }

  lemma TwoTexts()
    ensures "query 1 { a } " + ("query 1 { b } " + ("query " + "1.2" + " { " + "c" + " } " + ""))
         == "query 1 { a } query 1 { b } query 1.2 { c } "
  {
  }

  lemma NoText()
    ensures TextOf([]) == ""
  {
  }

  lemma SecondID()
    ensures NumberedID("query.1", 2) == "query.1.2"
  {
    assert Decimal(2) == "2";
    assert "query.1" + ['.'] + "2" == "query.1.2";
  }

  lemma QueryBase(q: Query)
    requires q.name == "1" || q.name == "1.2"
    ensures Base(NewOperation("query", q.name, [], [q.field])) == "query." + q.name
  {
    hide TrimSpace, OperationSelector;
    TrimSpaceFixes("query");
    TrimSpaceFixes(q.name);
    assert ToLower("query") == "query";
    assert "query" + ['.'] + q.name == "query." + q.name;
  }

  lemma CountedTwice(a: Operation, b: Operation, c: Operation)
    requires Kept(a) && Kept(b) && Base(b) == Base(a)
    ensures Total([a, b, c], Base(a)) >= 2
  {
    hide Base, Kept;
    var ops := [a, b, c];
    assert Count(ops, 1, Base(a)) == 1 && Count(ops, 2, Base(a)) == 2;
  }

  /** A document that the parser accepts and whose operations do not have distinct IDs. */
  lemma NumberedNameClashes()
    ensures (var r := ParseGraphQLText("query 1 { a } query 1 { b } query 1.2 { c } ");
             r.Parsed? && !DistinctIDs(r.model.operations))
  {
    hide *;
    var m := NewModel.(operations := Meaning(CLASH));
    ClashText();
    ClashWords();
    ClashShort();
    QueriesRoundTrip(CLASH);
    FinishedOperations(m);
    AllDistinctExactly(m.(types := CompactTypes(m.types)));
    ClashNumbered();
  }

  lemma ClashShort()
    ensures |CLASH| == 3 && 15 <= MAX_WORK_ITEMS
  {
  }

  lemma FinishedOperations(m: Model)
    ensures DistinctIDs(Finish(m).operations) <==> DistinctIDs(Operations(m.(types := CompactTypes(m.types))))
  {
    hide DistinctIDs, Operations, NamedRoots, CompactTypes, Ordering.SortBy;
  }

  lemma ClashNumbered()
    ensures !NoNumberedName(Meaning(CLASH))
  {
    hide NewOperation, Base, Kept, Total, NumberedID;
    var a, b, c := NewOperation("query", "1", [], ["a"]), NewOperation("query", "1", [], ["b"]),
                   NewOperation("query", "1.2", [], ["c"]);
    ClashMeaning(a, b, c);
    QueryBase(CLASH[0]);
    QueryBase(CLASH[1]);
    QueryBase(CLASH[2]);
    QueryKept(CLASH[0]);
    QueryKept(CLASH[1]);
    QueryKept(CLASH[2]);
    assert "query." + "1" == "query.1" && "query." + "1.2" == "query.1.2";
    CountedTwice(a, b, c);
    SecondID();
    assert a in Meaning(CLASH) && c in Meaning(CLASH);
  }

  lemma ClashMeaning(a: Operation, b: Operation, c: Operation)
    requires a == NewOperation("query", "1", [], ["a"]) && b == NewOperation("query", "1", [], ["b"])
    requires c == NewOperation("query", "1.2", [], ["c"])
    ensures Meaning(CLASH) == [a, b, c]
  {
    hide NewOperation;
    assert CLASH[1..] == [Query("1", "b"), Query("1.2", "c")] && CLASH[1..][1..] == [Query("1.2", "c")];
    assert CLASH[1..][1..][1..] == [];
  }
}
