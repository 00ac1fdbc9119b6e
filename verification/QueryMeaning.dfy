/** What the operations, the root types and the default values of a document come to, and two
    documents whose operations are not read as they are written. */
module QueryMeaning {
  import opened FinishedModels
  import opened GraphQLLexer
  import opened GraphQLModel
  import opened GraphQLProofs
  import opened GraphQLSource
  import opened GraphQLSpec
  import opened Lexing
  import opened OperationIDs
  import opened OperationProofs
  import opened OperationSource
  import opened Text
  import opened Tokens
  import opened Wrappers
  import NumberedQueries

  // ---------------------------------------------------------------- selections

  /** The selection stands for the field, or is an inline fragment on a type of that name. */
  predicate Names(s: SelectionSrc, x: string) {
    (s.FieldSel? && s.name == x) || (s.Inline? && s.condition == x)
  }

  ghost predicate AllDistinct(names: seq<string>) {
    forall i, j :: 0 <= i < j < |names| ==> names[i] != names[j]
  }

  /** The selection names of an operation: its fields, without their aliases, and the type
      conditions of its inline fragments, each once. */
  lemma {:induction false} SelectedExactly(names: seq<string>, ss: seq<SelectionSrc>, x: string)
    requires AllDistinct(names)
    ensures x in AllSelected(names, ss) <==> x in names || exists s <- ss :: Names(s, x)
    ensures AllDistinct(AllSelected(names, ss))
    decreases |ss|
  {
    hide AllDistinct;
    if ss != [] {
      AddExactly(names, ss[0], x);
      SelectedExactly(Selected(names, ss[0]), ss[1..], x);
      assert forall s :: s in ss <==> s == ss[0] || s in ss[1..];
    }
  }

  lemma AddExactly(names: seq<string>, s: SelectionSrc, x: string)
    requires AllDistinct(names)
    ensures x in Selected(names, s) <==> x in names || Names(s, x)
    ensures AllDistinct(Selected(names, s))
  {
  }

  predicate SelectsField(ss: seq<SelectionSrc>, x: string) {
    exists s <- ss :: s.FieldSel? && s.name == x
  }

  /** All selection names are fields exactly when every inline fragment is on a type that is
      named like one of the fields. */
  lemma SelectionsAreFieldsExactly(ss: seq<SelectionSrc>)
    ensures (forall x <- AllSelected([], ss) :: SelectsField(ss, x))
       <==> (forall s <- ss :: s.Inline? ==> SelectsField(ss, s.condition))
  {
    hide SelectsField;
    forall x ensures x in AllSelected([], ss) <==> exists s <- ss :: Names(s, x) {
      SelectedExactly([], ss, x);
    }
    forall s, x | s in ss && s.FieldSel? && s.name == x ensures SelectsField(ss, x) {
      FieldSelects(ss, s);
    }
    if forall x <- AllSelected([], ss) :: SelectsField(ss, x) {
      forall s <- ss | s.Inline? ensures SelectsField(ss, s.condition) {
        assert Names(s, s.condition);
      }
    }
  }

  lemma FieldSelects(ss: seq<SelectionSrc>, s: SelectionSrc)
    requires s in ss && s.FieldSel?
    ensures SelectsField(ss, s.name)
  {
  }

  // ---------------------------------------------------------------- default values

  lemma {:induction false} VariableAt(vs: seq<VarSrc>, i: nat)
    requires i < |vs|
    ensures |VarsMeaning(vs)| == |vs| && VarsMeaning(vs)[i] == VarMeaning(vs[i], i == |vs| - 1)
    decreases |vs|
  {
    hide VarMeaning;
    if |vs| > 1 {
      VariableAt(vs[1..], if i > 0 then i - 1 else 0);
    } else {
      assert VarsMeaning(vs[1..]) == [];
    }
  }

  function AsWritten(v: VarSrc): string {
    if v.default.None? then "" else Values(v.default.value)
  }

  /** The default value of a variable is as it is written exactly when it has none, it is the
      last variable or a directive follows; else the dollar sign of the next one is added. */
  lemma DefaultExactly(vs: seq<VarSrc>, i: nat)
    requires i < |vs|
    ensures |VarsMeaning(vs)| == |vs|
    ensures VarsMeaning(vs)[i].defaultValue == AsWritten(vs[i])
       <==> vs[i].default.None? || vs[i].directives != [] || i == |vs| - 1
    ensures VarsMeaning(vs)[i].defaultValue != AsWritten(vs[i]) ==>
              VarsMeaning(vs)[i].defaultValue == AsWritten(vs[i]) + "$"
  {
    hide Values, RefOf;
    VariableAt(vs, i);
    assert AsWritten(vs[i]) + "" == AsWritten(vs[i]);
    assert |AsWritten(vs[i]) + "$"| == |AsWritten(vs[i])| + 1;
  }

  // ---------------------------------------------------------------- root types

  /** The value of the last entry for a key. */
  function LastEntry(es: seq<(string, string)>, key: string): Option<string> {
    if es == [] then None
    else if es[|es| - 1].0 == key then Some(es[|es| - 1].1) else LastEntry(es[..|es| - 1], key)
  }

  function OrElse(o: Option<string>, default: string): string {
    if o.None? then default else o.value
  }

  lemma {:induction false} EntriesAppend(es: seq<(string, string)>, e: (string, string), s: RootTypes)
    ensures EntriesMeaning(es + [e], s) == WithRoot(EntriesMeaning(es, s), e.0, e.1)
    decreases |es|
  {
    hide WithRoot;
    if es == [] {
      assert es + [e] == [e];
      assert EntriesMeaning([], WithRoot(s, e.0, e.1)) == WithRoot(s, e.0, e.1);
    } else {
      assert (es + [e])[1..] == es[1..] + [e];
      EntriesAppend(es[1..], e, WithRoot(s, es[0].0, es[0].1));
    }
  }

  /** A schema block declares the root type of each kind that its last entry for it names. */
  lemma {:induction false} RootsDeclared(es: seq<(string, string)>, s: RootTypes)
    ensures EntriesMeaning(es, s).queryType == OrElse(LastEntry(es, "query"), s.queryType)
    ensures EntriesMeaning(es, s).mutationType == OrElse(LastEntry(es, "mutation"), s.mutationType)
    ensures EntriesMeaning(es, s).subscriptionType == OrElse(LastEntry(es, "subscription"), s.subscriptionType)
    ensures EntriesMeaning(es, s).description == s.description
    decreases |es|
  {
    if es != [] {
      assert es == es[..|es| - 1] + [es[|es| - 1]];
      EntriesAppend(es[..|es| - 1], es[|es| - 1], s);
      RootsDeclared(es[..|es| - 1], s);
    }
  }

  // ---------------------------------------------------------------- the operations of a document

  function DocumentOperations(items: seq<ItemSrc>): seq<Operation> {
    if items == [] then []
    else (if items[0].OperationItem? then [OperationMeaning(items[0].op)] else []) + DocumentOperations(items[1..])
  }

  lemma {:induction false} OperationsKept(items: seq<ItemSrc>, m: Model)
    ensures ItemsMeaning(items, m).operations == m.operations + DocumentOperations(items)
    decreases |items|
  {
    hide OperationMeaning, DefMeaning;
    if items != [] {
      DefinitionsAddNone(items[0], m);
      OperationsKept(items[1..], ItemMeaning(items[0], m));
    }
  }

  lemma DefinitionsAddNone(i: ItemSrc, m: Model)
    ensures ItemMeaning(i, m).operations
         == m.operations + if i.OperationItem? then [OperationMeaning(i.op)] else []
  {
    hide OperationMeaning, FieldsMeaning, InputsMeaning, ValuesMeaning, EntriesMeaning;
  }

  lemma {:induction false} FewAdmitted(ts: seq<Token>, n: Nesting)
    requires n.count + |ts| <= MAX_WORK_ITEMS && n.depth + |ts| <= MAX_NESTING_DEPTH
    ensures Admitted(ts, n)
    decreases |ts|
  {
    if ts != [] {
      FewAdmitted(ts[1..], Push(ts[0], n).value);
    }
  }

  /** A document of one operation, read as an operation with a kind. */
  lemma OneOperation(op: OperationSrc)
    requires GoodOperation(op) && |OperationTokens(op)| <= MAX_NESTING_DEPTH
    ensures (var items := [OperationItem(op)];
             var r := ParseGraphQLText(Render(ItemsTokens(items)));
             r == Parsed(Finish(ItemsMeaning(items, NewModel)))
               && DocumentOperation([OperationMeaning(op)], 0) in r.model.operations)
  {
    hide OperationTokens, OperationMeaning, GoodOperation, ParseGraphQLText, Render, Finish, DocumentOperation,
         CompactTypes, Admitted, CompactTo, ForRootField, Kept;
    var items := [OperationItem(op)];
    assert ItemsTokens(items) == OperationTokens(op) + [] by { OneItem(op); }
    FewAdmitted(ItemsTokens(items), Start);
    OperationsKept(items, NewModel);
    assert DocumentOperations(items) == [OperationMeaning(op)] by { OneItem(op); }
    var ops := ItemsMeaning(items, NewModel).operations;
    assert ops == [OperationMeaning(op)];
    KindGiven(op);
    NumberedQueries.KeptCompacted(ops, 1);
    DocumentRoundTrip(items);
    FinishedOperationsSay(ItemsMeaning(items, NewModel), DocumentOperation(ops, 0));
  }

  lemma OneItem(op: OperationSrc)
    ensures ItemsTokens([OperationItem(op)]) == OperationTokens(op) + []
    ensures DocumentOperations([OperationItem(op)]) == [OperationMeaning(op)]
  {
    hide OperationTokens, OperationMeaning;
    var items := [OperationItem(op)];
    assert items[1..] == [] && ItemsTokens([]) == [] && DocumentOperations([]) == [];
    assert ItemsTokens(items) == ItemTokens(items[0]) + ItemsTokens(items[1..]);
    assert DocumentOperations(items) == [OperationMeaning(op)] + DocumentOperations(items[1..]);
  }

  lemma KindGiven(op: OperationSrc)
    requires GoodOperation(op)
    ensures Kept(OperationMeaning(op)) && HasKind(OperationMeaning(op))
  {
    hide TrimSpace, GoodVars, GoodDirectives, GoodSelections, VarsMeaning, AllSelected, BaseID, OperationSelector;
    TrimSpaceFixes("query");
    TrimSpaceFixes("mutation");
    TrimSpaceFixes("subscription");
  }

  // ---------------------------------------------------------------- two documents

  const INT := Named("Int")

  /** query Q ($a: Int = 1, $b: Int) { f } */
  const TWO_VARIABLES := OperationSrc(
    "query", Some("Q"), [VarSrc("a", INT, Some([N("1")]), []), VarSrc("b", INT, None, [])], [],
    [FieldSel(None, "f", None, [], None)])

  /** { ... on User { name } } */
  const INLINE_FRAGMENT := Shorthand([Inline("User", [], [N("name")])])

  lemma TwoVariablesGood()
    ensures GoodOperation(TWO_VARIABLES)
  {
    hide Printable, IsName;
    ShortNames();
    assert GoodVar(TWO_VARIABLES.variables[0]) && GoodVar(TWO_VARIABLES.variables[1]);
  }

  lemma ShortNames()
    ensures IsName("Int") && IsName("a") && IsName("b") && IsName("Q") && IsName("f")
    ensures IsValue([N("1")], 0) && AllPrintable([N("1")])
  {
    assert Printable(N("1")) by { assert IsNumber("1"); }
    assert IsValue([], 0);
  }

  lemma TwoVariablesShort()
    ensures |OperationTokens(TWO_VARIABLES)| <= MAX_NESTING_DEPTH
  {
    OneVariable();
    OneSelection();
  }

  lemma OneVariable()
    ensures |VarsTokens([VarSrc("b", INT, None, [])])| == 4
  {
    var vs := [VarSrc("b", INT, None, [])];
    assert vs[1..] == [] && VarsTokens([]) == [];
  }

  lemma OneSelection()
    ensures |SelectionsTokens(TWO_VARIABLES.selections)| == 1
  {
    var ss := TWO_VARIABLES.selections;
    assert ss[1..] == [] && SelectionsTokens([]) == [];
  }

  /** An accepted document in which the default value 1 is read as 1$. */
  lemma DollarInDefault()
    ensures (var r := ParseGraphQLText(Render(ItemsTokens([OperationItem(TWO_VARIABLES)])));
             r.Parsed? && exists op <- r.model.operations :: HasDollar(op))
  {
    hide ParseGraphQLText, Render, ItemsTokens, Finish, ItemsMeaning, DocumentOperation, OperationTokens,
         GoodOperation, HasDollar, OperationMeaning;
    TwoVariablesGood();
    TwoVariablesShort();
    OneOperation(TWO_VARIABLES);
    DollarRead();
  }

  predicate HasDollar(op: Operation) {
    |op.variables| == 2 && op.variables[0].name == "a" && op.variables[0].defaultValue == "1$"
  }

  lemma DollarRead()
    ensures HasDollar(DocumentOperation([OperationMeaning(TWO_VARIABLES)], 0))
  {
    hide PlainID;
    DefaultExactly(TWO_VARIABLES.variables, 0);
    VariableAt(TWO_VARIABLES.variables, 0);
    OneValue();
  }

  lemma OneValue()
    ensures Values([N("1")]) == "1"
  {
    assert Values([]) == "";
  }

  lemma InlineGood()
    ensures GoodOperation(INLINE_FRAGMENT) && |OperationTokens(INLINE_FRAGMENT)| <= MAX_NESTING_DEPTH
  {
    var ss := INLINE_FRAGMENT.selections;
    assert IsName("User") && IsName("name");
    assert Closed([], "{", "}", 0);
    assert ss[1..] == [] && SelectionsTokens([]) == [];
    assert DirectivesTokens([]) == [];
  }

  /** An accepted document that selects no field called User, but whose operation has it. */
  lemma ConditionSelected()
    ensures (var r := ParseGraphQLText(Render(ItemsTokens([OperationItem(INLINE_FRAGMENT)])));
             && r.Parsed?
             && exists op <- r.model.operations :: op.selectionNames == ["User"])
  {
    hide ParseGraphQLText, Render, ItemsTokens, Finish, ItemsMeaning, PlainID, OperationTokens, GoodOperation;
    InlineGood();
    OneOperation(INLINE_FRAGMENT);
    var op := DocumentOperation([OperationMeaning(INLINE_FRAGMENT)], 0);
    assert AllSelected([], INLINE_FRAGMENT.selections) == ["User"] by { OnlyUser(); }
  }

  lemma OnlyUser()
    ensures AllSelected([], INLINE_FRAGMENT.selections) == ["User"]
  {
    var ss := INLINE_FRAGMENT.selections;
    assert ss[1..] == [] && Selected([], ss[0]) == ["User"];
  }

  // ---------------------------------------------------------------- malformed operations

  /** An operation that selects nothing is passed over. */
  lemma BareOperationIgnored(kind: string, name: string, variables: seq<VarSrc>, directives: seq<DirectiveSrc>,
                             m: Model, c: Cursor)
    requires kind in {"query", "mutation", "subscription"} && IsName(name)
    requires GoodVars(variables) && GoodDirectives(directives) && Calm(c)
    ensures (var block := if variables == [] then [] else [P("(")] + (VarsTokens(variables) + [P(")")]);
             ParseDocument(Before([N(kind)] + ([N(name)] + (block + DirectivesTokens(directives))), c), m, "")
             == ParseDocument(c, m, ""))
  {
    hide IsName, GoodVars, GoodDirectives, VarsTokens, VarsMeaning, DirectivesTokens, ParseOperation, TrimSpace,
         ParseSchema, ParseBlockType, UnionMembers, SkipDefinition;
    var block := if variables == [] then [] else [P("(")] + (VarsTokens(variables) + [P(")")]);
    var b := Before([N(kind)] + ([N(name)] + (block + DirectivesTokens(directives))), c);
    BareRead(kind, name, variables, directives, c);
    OperationDefined(b, m);
    BeforeCons(N(kind), [N(name)] + (block + DirectivesTokens(directives)), c);
  }

  lemma BareRead(kind: string, name: string, variables: seq<VarSrc>, directives: seq<DirectiveSrc>, c: Cursor)
    requires kind in {"query", "mutation", "subscription"} && IsName(name)
    requires GoodVars(variables) && GoodDirectives(directives) && Calm(c)
    ensures (var block := if variables == [] then [] else [P("(")] + (VarsTokens(variables) + [P(")")]);
             var b := Before([N(kind)] + ([N(name)] + (block + DirectivesTokens(directives))), c);
             b.rest != [] && b.At(kind) && ParseOperation(b) == (None, c))
  {
    hide IsName, GoodVars, GoodDirectives, VarsTokens, VarsMeaning, DirectivesTokens, SkipDirectives, Arguments,
         Selections, NewOperation;
    var block := if variables == [] then [] else [P("(")] + (VarsTokens(variables) + [P(")")]);
    var head := block + DirectivesTokens(directives);
    BeforeCons(N(kind), [N(name)] + head, c);
    NameEndsType(name, head, c);
    var at := Before(DirectivesTokens(directives), c);
    DirectivesSkipped(directives, c);
    BeforeJoin(block, DirectivesTokens(directives), c);
    if variables == [] {
      BeforeNone(at);
    } else {
      BeforeCons(P("("), VarsTokens(variables) + [P(")")], at);
      VariablesParsed(variables, [], at);
    }
  }

  /** Of the blocks that the tokens open after `depth` others none but inner ones is closed. */
  predicate StaysOpen(tokens: seq<Token>, depth: nat) {
    if tokens == [] then depth > 0
    else if tokens[0].value == "{" then StaysOpen(tokens[1..], depth + 1)
    else if tokens[0].value == "}" then depth > 1 && StaysOpen(tokens[1..], depth - 1)
    else depth > 0 && StaysOpen(tokens[1..], depth)
  }

  lemma {:induction false} NeverClosed(tokens: seq<Token>, depth: nat)
    requires StaysOpen(tokens, depth) && depth > 0
    ensures Close(Cursor(tokens, false), "{", "}", depth) == Cursor([], true)
    decreases |tokens|
  {
    if tokens != [] {
      var next := if tokens[0].value == "{" then depth + 1 else if tokens[0].value == "}" then depth - 1 else depth;
      NeverClosed(tokens[1..], next);
    }
  }

  /** A document that ends inside the block of a fragment is refused. */
  lemma UnclosedRefused(items: seq<ItemSrc>, header: seq<Token>, body: seq<Token>)
    requires GoodItems(items) && GoodHeader(header) && StaysOpen(body, 1)
    ensures ParseTokens(ItemsTokens(items) + ([N("fragment")] + (header + ([P("{")] + body)))) == Refused
  {
    hide ItemsTokens, ParseDocument, GoodItems, Finish, GoodHeader, StaysOpen, ItemsMeaning, CompactTypes, Compact;
    var last := [N("fragment")] + (header + ([P("{")] + body));
    var c := Cursor(last, false);
    assert Before(ItemsTokens(items), c) == Cursor(ItemsTokens(items) + last, false);
    ItemsRead(items, NewModel, c);
    LastUnclosed(header, body, ItemsMeaning(items, NewModel));
  }

  lemma {:induction false} ItemsRead(items: seq<ItemSrc>, m: Model, c: Cursor)
    requires GoodItems(items)
    ensures ParseDocument(Before(ItemsTokens(items), c), m, "") == ParseDocument(c, ItemsMeaning(items, m), "")
    decreases |items|
  {
    hide GoodItem, ItemMeaning, ItemTokens, ParseDocument;
    if items == [] {
      BeforeNone(c);
    } else {
      BeforeJoin(ItemTokens(items[0]), ItemsTokens(items[1..]), c);
      ItemStep(items[0], m, Before(ItemsTokens(items[1..]), c));
      ItemsRead(items[1..], ItemMeaning(items[0], m), c);
      ItemsStart(items, m);
    }
  }

  lemma LastUnclosed(header: seq<Token>, body: seq<Token>, m: Model)
    requires GoodHeader(header) && StaysOpen(body, 1)
    ensures ParseDocument(Cursor([N("fragment")] + (header + ([P("{")] + body)), false), m, "") == (m, Cursor([], true))
  {
    hide GoodHeader, Close, ParseSchema, ParseBlockType, UnionMembers, ParseOperation, TrimSpace, StaysOpen;
    var none := Cursor([], false);
    var block := [P("{")] + body;
    var b := Before([N("fragment")] + (header + block), none);
    assert Before(block, none) == Cursor(block, false) by { assert block + [] == block; }
    assert b == Cursor([N("fragment")] + (header + block), false) by {
      assert ([N("fragment")] + (header + block)) + [] == [N("fragment")] + (header + block);
    }
    BeforeCons(N("fragment"), header + block, none);
    BeforeJoin(header, block, none);
    HeaderSkipped(header, Cursor(block, false));
    BeforeCons(P("{"), body, none);
    assert Before(body, none) == Cursor(body, false) by { assert body + [] == body; }
    NeverClosed(body, 1);
    assert SkipBalanced(Cursor(block, false), "{", "}") == Cursor([], true);
    assert SkipDefinition(b) == Cursor([], true);
    assert ParseDefinition(b, m, "") == (m, Cursor([], true));
    EndReached(m);
  }

  lemma EndReached(m: Model)
    ensures ParseDocument(Cursor([], true), m, "") == (m, Cursor([], true))
  {
  }
}
