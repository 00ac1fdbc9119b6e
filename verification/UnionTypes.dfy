/** Union types: the parser takes every name up to the next brace for a member, so that a union
    has the members that are written only when it comes last or before a query without a
    keyword. */
module UnionTypes {
  import opened GraphQLLexer
  import opened GraphQLModel
  import opened GraphQLProofs
  import opened GraphQLSource
  import opened GraphQLSpec
  import opened Lexing
  import opened OperationIDs
  import opened OperationProofs
  import opened OperationSource
  import opened Text
  import opened Tokens
  import opened Wrappers
  import FinishedModels
  import QueryMeaning

  // ---------------------------------------------------------------- tokens

  function MembersTokens(members: seq<string>): seq<Token> {
    if members == [] then []
    else if |members| == 1 then [N(members[0])]
    else [N(members[0])] + ([P("|")] + MembersTokens(members[1..]))
  }

  function UnionTokens(name: string, members: seq<string>): seq<Token> {
    [N("union")] + ([N(name)] + ([P("=")] + MembersTokens(members)))
  }

  predicate AllNames(members: seq<string>) {
    forall i :: 0 <= i < |members| ==> IsName(members[i])
  }

  /** The names up to the next brace, or to the end. */
  function NamesToBrace(tokens: seq<Token>): seq<string> {
    if tokens == [] || tokens[0].value == "{" then []
    else (if tokens[0].kind == Name && tokens[0].value !in {"=", "|", ""} then [tokens[0].value] else [])
         + NamesToBrace(tokens[1..])
  }

  /** What is left from that brace on. */
  function FromBrace(tokens: seq<Token>): seq<Token> {
    if tokens == [] || tokens[0].value == "{" then tokens else FromBrace(tokens[1..])
  }

  // ---------------------------------------------------------------- what is read

  lemma {:induction false} MembersRead(c: Cursor, found: seq<string>)
    requires forall t <- c.rest :: t.kind == Name ==> t.value != ""
    ensures UnionMembers(c, found) == (found + NamesToBrace(c.rest), Cursor(FromBrace(c.rest), c.failed))
    decreases |c.rest|
  {
    if c.Done() || c.At("{") {
      assert found + [] == found;
    } else {
      var t := c.rest[0];
      assert t in c.rest && forall u <- c.Next().rest :: u in c.rest;
      if t.value == "=" || t.value == "|" {
        MembersRead(c.Next(), found);
        assert [] + NamesToBrace(c.rest[1..]) == NamesToBrace(c.rest[1..]);
      } else if t.kind == Name {
        MembersRead(c.Next(), found + [t.value]);
        assert (found + [t.value]) + NamesToBrace(c.rest[1..]) == found + ([t.value] + NamesToBrace(c.rest[1..]));
      } else {
        MembersRead(c.Next(), found);
        assert [] + NamesToBrace(c.rest[1..]) == NamesToBrace(c.rest[1..]);
      }
    }
  }

  lemma {:induction false} NamesJoin(a: seq<Token>, b: seq<Token>)
    requires forall t <- a :: t.value != "{"
    ensures NamesToBrace(a + b) == NamesToBrace(a) + NamesToBrace(b)
    ensures FromBrace(a + b) == FromBrace(b)
    decreases |a|
  {
    if a == [] {
      assert a + b == b;
    } else {
      assert a[0] in a && (a + b)[0] == a[0] && (a + b)[1..] == a[1..] + b;
      NamesJoin(a[1..], b);
    }
  }

  lemma {:induction false} MembersNamed(members: seq<string>)
    requires AllNames(members)
    ensures NamesToBrace(MembersTokens(members)) == members
    ensures forall t <- MembersTokens(members) :: t.value != "{" && (t.kind == Name ==> t.value != "")
    decreases |members|
  {
    hide IsName;
    if members != [] {
      NotPunct(members[0]);
      NotBar(members[0]);
      var tokens := MembersTokens(members);
      if |members| == 1 {
        assert tokens[1..] == [] && NamesToBrace([]) == [];
      } else {
        MembersNamed(members[1..]);
        var rest := MembersTokens(members[1..]);
        assert tokens[1..] == [P("|")] + rest && ([P("|")] + rest)[1..] == rest;
        assert NamesToBrace([P("|")] + rest) == [] + NamesToBrace(rest);
      }
    }
  }

  lemma NotBar(name: string)
    requires IsName(name)
    ensures name != "|"
  {
  }

  /** The parser reads the members as they are written and every name behind them up to the next
      brace. */
  lemma UnionReads(name: string, members: seq<string>, description: string, m: Model, c: Cursor)
    requires IsName(name) && AllNames(members) && forall t <- c.rest :: t.kind == Name ==> t.value != ""
    ensures (var b := Before(UnionTokens(name, members), c);
             && b.rest != [] && b.AtKind(Name) && !b.At("extend")
             && ParseDefinition(b, m, description)
                == (m.(types := m.types + [NewType(name, "UNION", description)
                                           .(unionMembers := members + NamesToBrace(c.rest))]),
                    Cursor(FromBrace(c.rest), c.failed)))
  {
    hide IsName, UnionMembers, ParseSchema, ParseBlockType, ParseOperation, SkipDefinition, NamesToBrace, FromBrace;
    var body := [P("=")] + MembersTokens(members);
    BeforeCons(N("union"), [N(name)] + body, c);
    BeforeCons(N(name), body, c);
    var at := Before(body, c);
    MembersNamed(members);
    EqualsSkipped(MembersTokens(members));
    NamesJoin(body, c.rest);
    MembersRead(at, []);
    assert [] + NamesToBrace(at.rest) == NamesToBrace(at.rest);
  }

  lemma EqualsSkipped(tokens: seq<Token>)
    ensures NamesToBrace([P("=")] + tokens) == NamesToBrace(tokens)
  {
    assert ([P("=")] + tokens)[1..] == tokens;
    assert [] + NamesToBrace(tokens) == NamesToBrace(tokens);
  }

  // ---------------------------------------------------------------- exactly when

  /** A query without a keyword. */
  predicate IsShorthand(i: ItemSrc) {
    i.OperationItem? && i.op.Shorthand?
  }

  /** Every other item has a name before its first brace, or no brace. */
  lemma ItemNames(i: ItemSrc, rest: seq<Token>)
    requires GoodItem(i) && PlainDescriptions([i])
    ensures NamesToBrace(ItemTokens(i) + rest) == [] <==> IsShorthand(i)
  {
    hide GoodDef, FieldsTokens, InputsTokens, ValuesTokens, EntriesTokens, SelectionsTokens, VarsTokens,
         DirectivesTokens, GoodOperation, GoodHeader, GoodBlock, Block;
    assert [i][0] == i;
    match i {
      case DefItem(d) =>
        DescribedNames(d, false, rest);
        assert [] + DefTokens(d.def) == DefTokens(d.def);
      case ExtendItem(d) => DescribedNames(d, true, rest);
      case OperationItem(op) =>
        if op.Shorthand? {
          BraceFirst(SelectionsTokens(op.selections), rest);
        } else {
          KindNamed(op, rest);
        }
      case FragmentItem(header, body) => NameFirst("fragment", header + Block(body), rest);
    }
  }

  lemma BraceFirst(body: seq<Token>, rest: seq<Token>)
    ensures NamesToBrace(Block(body) + rest) == []
  {
    assert (Block(body) + rest)[0] == P("{");
  }

  lemma NameFirst(name: string, tail: seq<Token>, rest: seq<Token>)
    requires name !in {"{", "=", "|", ""}
    ensures NamesToBrace(([N(name)] + tail) + rest) != []
  {
    assert (([N(name)] + tail) + rest)[0] == N(name);
  }

  lemma KindNamed(op: OperationSrc, rest: seq<Token>)
    requires op.OperationSrc? && GoodOperation(op)
    ensures NamesToBrace(OperationTokens(op) + rest) != []
  {
    hide GoodVars, GoodDirectives, GoodSelections, VarsTokens, DirectivesTokens, SelectionsTokens, Block;
    var tail := OperationTokens(op)[1..];
    assert OperationTokens(op) == [N(op.kind)] + tail;
    NameFirst(op.kind, tail, rest);
  }

  lemma DescribedNames(d: Described, extended: bool, rest: seq<Token>)
    requires GoodDef(d.def) && (d.description.Some? ==> d.description.value != "{")
    ensures (var tokens := (if extended then [N("extend")] else []) + DefTokens(d.def);
             NamesToBrace((DescriptionTokens(d.description) + tokens) + rest) != [])
  {
    hide DefTokens, GoodDef, NamesToBrace;
    var tokens := (if extended then [N("extend")] else []) + DefTokens(d.def);
    DefStarts(d.def);
    if extended {
      NameFirst("extend", DefTokens(d.def), rest);
    } else {
      var t := DefTokens(d.def);
      assert tokens == t && t == [N(t[0].value)] + t[1..];
      NameFirst(t[0].value, t[1..], rest);
    }
    if d.description.None? {
      assert DescriptionTokens(d.description) + tokens == tokens;
    } else {
      assert (DescriptionTokens(d.description) + tokens) + rest == [S(d.description.value)] + (tokens + rest);
      TextPassed(d.description.value, tokens + rest);
    }
  }

  lemma TextPassed(text: string, tokens: seq<Token>)
    requires text != "{"
    ensures NamesToBrace([S(text)] + tokens) == NamesToBrace(tokens)
  {
    assert ([S(text)] + tokens)[1..] == tokens;
    assert [] + NamesToBrace(tokens) == NamesToBrace(tokens);
  }

  lemma DefStarts(d: DefSrc)
    requires GoodDef(d)
    ensures (var t := DefTokens(d); t != [] && t[0].kind == Name && t[0].value !in {"{", "=", "|", ""})
  {
    hide FieldsTokens, InputsTokens, ValuesTokens, EntriesTokens, Block, GoodFields, GoodInputs, GoodValues,
         GoodEntries, IsName;
  }

  predicate PlainDescriptions(items: seq<ItemSrc>) {
    forall i :: 0 <= i < |items| && (items[i].DefItem? || items[i].ExtendItem?) ==>
      items[i].described.description.None? || items[i].described.description.value != "{"
  }

  lemma {:induction false} NamesNotEmpty(tokens: seq<Token>)
    requires AllPrintable(tokens)
    ensures forall t <- tokens :: t.kind == Name ==> t.value != ""
  {
    forall t <- tokens | t.kind == Name ensures t.value != "" {
      var i :| 0 <= i < |tokens| && tokens[i] == t;
      assert Printable(tokens[i]);
    }
  }

  /** In a document the members of a union are read as they are written exactly when nothing
      follows it, or a query without a keyword. */
  lemma UnionExactly(name: string, members: seq<string>, description: string, m: Model, items: seq<ItemSrc>)
    requires IsName(name) && AllNames(members) && GoodItems(items) && PlainDescriptions(items)
    ensures (var b := Before(UnionTokens(name, members), Cursor(ItemsTokens(items), false));
             var written := NewType(name, "UNION", description).(unionMembers := members);
             && b.rest != []
             && (ParseDefinition(b, m, description).0 == m.(types := m.types + [written]) <==>
                   items == [] || IsShorthand(items[0])))
  {
    hide IsName, AllNames, GoodItem, ParseDefinition, NamesToBrace, UnionTokens, AllPrintable, ItemTokens;
    var c := Cursor(ItemsTokens(items), false);
    ItemsPrintable(items);
    NamesNotEmpty(ItemsTokens(items));
    UnionReads(name, members, description, m, c);
    var names := NamesToBrace(c.rest);
    if items == [] {
      NothingNamed();
    } else {
      FirstItemNames(items);
    }
    if names == [] {
      assert members + names == members;
    } else {
      assert |members + names| > |members|;
      LastTypeDiffers(m.types, NewType(name, "UNION", description).(unionMembers := members + names),
                      NewType(name, "UNION", description).(unionMembers := members));
    }
  }

  lemma LastTypeDiffers(types: seq<Type>, t: Type, u: Type)
    requires t.unionMembers != u.unionMembers
    ensures types + [t] != types + [u]
  {
    assert (types + [t])[|types|] == t && (types + [u])[|types|] == u;
  }

  lemma NothingNamed()
    ensures ItemsTokens([]) == [] && NamesToBrace([]) == []
  {
  }

  lemma FirstItemNames(items: seq<ItemSrc>)
    requires GoodItems(items) && PlainDescriptions(items) && items != []
    ensures NamesToBrace(ItemsTokens(items)) == [] <==> IsShorthand(items[0])
  {
    hide GoodItem, ItemTokens, NamesToBrace;
    assert GoodItem(items[0]) && [items[0]][0] == items[0];
    ItemNames(items[0], ItemsTokens(items[1..]));
  }

  // ---------------------------------------------------------------- a document

  /** The field of `type T { f: Int }`, as the parser reads it after a union. */
  const FIELD := FieldSel(Some("f"), "Int", None, [], None)

  /** union U = A type T { f: Int } */
  const UNION_THEN_TYPE: seq<Token> :=
    UnionTokens("U", ["A"]) + ([N("type")] + ([N("T")] + Block(SelectionsTokens([FIELD]))))

  /** What the parser makes of it: a union of A, type and T, and a query for Int. */
  function WrongModel(): Model {
    NewModel.(types := [NewType("U", "UNION", "").(unionMembers := ["A", "type", "T"])],
              operations := [OperationMeaning(Shorthand([FIELD]))])
  }

  lemma ShortNames()
    ensures IsName("U") && IsName("A") && IsName("f") && IsName("Int")
    ensures AllPrintable([N("U")]) && AllPrintable([N("A")]) && AllPrintable([N("T")]) && AllPrintable([P("=")])
    ensures AllPrintable([N("union")]) && AllPrintable([N("type")])
  {
  }

  lemma DocumentTokensPrintable()
    ensures AllPrintable(UNION_THEN_TYPE) && |UNION_THEN_TYPE| == 11
    ensures GoodSelections([FIELD])
  {
    hide AllPrintable, IsName;
    ShortNames();
    OneFieldTokens();
    var block := Block(SelectionsTokens([FIELD]));
    SelectionsPrintable([FIELD]);
    BlockPrintable(SelectionsTokens([FIELD]));
    PrintableJoin([N("T")], block);
    PrintableJoin([N("type")], [N("T")] + block);
    PrintableJoin([P("=")], [N("A")]);
    PrintableJoin([N("U")], [P("=")] + [N("A")]);
    PrintableJoin([N("union")], [N("U")] + ([P("=")] + [N("A")]));
    PrintableJoin(UnionTokens("U", ["A"]), [N("type")] + ([N("T")] + block));
  }

  lemma OneFieldTokens()
    ensures |SelectionsTokens([FIELD])| == 3
  {
    assert [FIELD][1..] == [] && SelectionsTokens([]) == [] && DirectivesTokens([]) == [];
  }

  lemma TypeTaken(body: seq<Token>)
    ensures (var rest := [N("type")] + ([N("T")] + Block(body));
             NamesToBrace(rest) == ["type", "T"] && FromBrace(rest) == Block(body))
  {
    var inner := [N("T")] + Block(body);
    var rest := [N("type")] + inner;
    assert rest[1..] == inner && inner[1..] == Block(body) && Block(body)[0] == P("{");
    assert NamesToBrace(Block(body)) == [];
    assert NamesToBrace(inner) == ["T"] + [];
    assert NamesToBrace(rest) == ["type"] + NamesToBrace(inner);
    assert FromBrace(Block(body)) == Block(body);
    assert FromBrace(inner) == FromBrace(Block(body));
  }

  lemma UnionTakesType()
    ensures ParseDocument(Cursor(UNION_THEN_TYPE, false), NewModel, "") == (WrongModel(), Cursor([], false))
  {
    hide TrimSpace, OperationMeaning, ParseDefinition, ParseDocument, UnionTokens, AllPrintable, IsName, Block,
         SelectionsTokens;
    var block := Block(SelectionsTokens([FIELD]));
    var after := Cursor([N("type")] + ([N("T")] + block), false);
    var c := Cursor(UNION_THEN_TYPE, false);
    assert Before(UnionTokens("U", ["A"]), after) == c;
    DocumentTokensPrintable();
    NamesNotEmpty(UNION_THEN_TYPE);
    assert forall t <- after.rest :: t in UNION_THEN_TYPE;
    ShortNames();
    UnionReads("U", ["A"], "", NewModel, after);
    TypeTaken(SelectionsTokens([FIELD]));
    assert ["A"] + ["type", "T"] == ["A", "type", "T"];
    var m := NewModel.(types := [NewType("U", "UNION", "").(unionMembers := ["A", "type", "T"])]);
    assert [] + m.types == m.types;
    DefinitionTaken(c, m, Cursor(block, false));
    QueryTaken(m);
  }

  lemma DefinitionTaken(c: Cursor, m: Model, end: Cursor)
    requires c.rest != [] && c.AtKind(Name) && !c.At("extend") && ParseDefinition(c, NewModel, "") == (m, end)
    ensures ParseDocument(c, NewModel, "") == ParseDocument(end, m, "")
  {
    hide ParseDefinition, TrimSpace;
  }

  lemma QueryTaken(m: Model)
    requires m == WrongModel().(operations := [])
    ensures ParseDocument(Cursor(Block(SelectionsTokens([FIELD])), false), m, "")
         == (WrongModel(), Cursor([], false))
  {
    hide OperationMeaning, ParseDocument, SelectionsTokens, Block;
    var op := Shorthand([FIELD]);
    DocumentTokensPrintable();
    var c := Cursor([], false);
    assert Before(OperationTokens(op), c) == Cursor(Block(SelectionsTokens([FIELD])), false) by {
      assert OperationTokens(op) + [] == OperationTokens(op);
    }
    OperationStep(op, m, c);
    NothingLeft(WrongModel());
    assert [] + [OperationMeaning(op)] == [OperationMeaning(op)];
  }

  /** An accepted document whose type T is lost, its name a member of the union before it. */
  lemma TypeAfterUnionLost()
    ensures (var r := ParseGraphQLText(Render(UNION_THEN_TYPE));
             && r.Parsed?
             && (exists t <- r.model.types :: t.name == "U" && t.unionMembers == ["A", "type", "T"])
             && (forall t <- r.model.types :: t.name != "T"))
  {
    hide Lex, Render, ParseDocument, Finish, CompactTypes, CompactTo, Admitted, AllPrintable, OperationMeaning,
         UnionTokens, SelectionsTokens, Block;
    DocumentTokensPrintable();
    QueryMeaning.FewAdmitted(UNION_THEN_TYPE, Start);
    LexRendered(UNION_THEN_TYPE, Start);
    UnionTakesType();
    UnionAlone();
    FinishedModels.FinishIs(WrongModel());
    var t := WrongModel().types[0];
    assert t in Finish(WrongModel()).types && t.name == "U";
  }

  lemma UnionAlone()
    ensures CompactTypes(WrongModel().types) == WrongModel().types
  {
    hide TrimSpace, OperationMeaning;
    var t := WrongModel().types[0];
    TrimSpaceFixes("U");
    assert [t][..0] == [] && CompactTypes([]) == [];
    assert MergeInto([], t) == [t];
  }
}
