/** Directives in schema definitions, which the parser skips, and the default values of input
    fields: the parser reads a default value up to the next name before a colon, so that it
    takes in the description of the next input field. */
module InputDefaults {
  import opened GraphQLLexer
  import opened GraphQLModel
  import opened GraphQLProofs
  import opened GraphQLSource
  import opened GraphQLSpec
  import opened Lexing
  import opened OperationProofs
  import opened OperationSource
  import opened Text
  import opened Tokens
  import opened Wrappers
  import FinishedModels
  import QueryMeaning

  // ---------------------------------------------------------------- directives of definitions

  /** A field with directives after it means what it means without them. */
  lemma DirectedField(f: FieldSrc, ds: seq<DirectiveSrc>, found: seq<Field>, c: Cursor)
    requires GoodField(f) && GoodDirectives(ds) && Ends(c) && !c.At("(")
    ensures ObjectFields(Before(FieldTokens(f) + DirectivesTokens(ds), c), found, "")
         == ObjectFields(c, found + [FieldMeaning(f)], "")
  {
    hide IsName, ReadableType, TypeTokens, RefOf, DirectivesTokens, GoodArgs, TrimSpace, GoodDescription, ObjectFields,
         GoodDirectives, ArgsTokens, ArgsMeaning;
    var bare := FieldTokens(f.(description := None)) + DirectivesTokens(ds);
    BareField(f, ds, found, DescriptionText(f.description), c);
    if f.description.None? {
      assert FieldTokens(f) + DirectivesTokens(ds) == bare;
    } else {
      assert FieldTokens(f) + DirectivesTokens(ds) == DescriptionTokens(f.description) + bare;
      DescriptionRead(f.description, bare, c);
      TextTaken(Before(DescriptionTokens(f.description) + bare, c), found);
    }
  }

  lemma TextTaken(c: Cursor, found: seq<Field>)
    requires c.rest != [] && !c.At("}") && c.AtKind(Kind.Text)
    ensures ObjectFields(c, found, "") == ObjectFields(c.Next(), found, TrimSpace(c.rest[0].value))
  {
    hide TrimSpace;
  }

  lemma BareField(f: FieldSrc, ds: seq<DirectiveSrc>, found: seq<Field>, pending: string, c: Cursor)
    requires GoodField(f) && GoodDirectives(ds) && Ends(c) && !c.At("(")
    ensures ObjectFields(Before(FieldTokens(f.(description := None)) + DirectivesTokens(ds), c), found, pending)
         == ObjectFields(c, found + [Field(f.name, pending, RefOf(f.typ), ArgsMeaning(f.args))], "")
  {
    hide IsName, ReadableType, GoodType, TypeTokens, RefOf, ParseTypeRef, Arguments, ArgsTokens, ArgsMeaning,
         GoodArgs, SkipDirectives, GoodDescription, GoodDirectives, DirectivesTokens, Before, GoodBlock;
    var tail := TypeTokens(f.typ) + DirectivesTokens(ds);
    var block := if f.args == [] then [] else [P("(")] + (ArgsTokens(f.args) + [P(")")]);
    assert FieldTokens(f.(description := None)) + DirectivesTokens(ds) == [N(f.name)] + (block + ([P(":")] + tail));
    NameEndsType(f.name, block + ([P(":")] + tail), c);
    DirectivesSkipped(ds, c);
    NotBang(ds, c);
    TypeBefore(f.typ, DirectivesTokens(ds), c);
    var typed := Before([P(":")] + tail, c);
    BeforeJoin(block, [P(":")] + tail, c);
    if f.args == [] {
      BeforeNone(typed);
      NoArgs();
    } else {
      ArgsThenColon(f.args, typed);
    }
    ColonFollows(tail, c);
  }

  lemma ColonFollows(tail: seq<Token>, c: Cursor)
    ensures (var b := Before([P(":")] + tail, c); b.At(":") && !b.At("("))
  {
    BeforeCons(P(":"), tail, c);
  }

  lemma ArgsThenColon(args: seq<ArgSrc>, c: Cursor)
    requires GoodArgs(args)
    ensures (var b := Before([P("(")] + (ArgsTokens(args) + [P(")")]), c);
             b.At("(") && Arguments(b.Next(), [], false) == (ArgsMeaning(args), c))
  {
    hide GoodArgs, ArgsTokens, ArgsMeaning, Arguments;
    BeforeCons(P("("), ArgsTokens(args) + [P(")")], c);
    ArgsParsed(args, [], c);
    assert [] + ArgsMeaning(args) == ArgsMeaning(args);
  }

  lemma NotBang(ds: seq<DirectiveSrc>, c: Cursor)
    requires Ends(c) && (ds != [] ==> Before(DirectivesTokens(ds), c).At("@"))
    ensures !Before(DirectivesTokens(ds), c).At("!") && (ds == [] ==> !Before(DirectivesTokens(ds), c).At("@"))
    ensures !Before(DirectivesTokens(ds), c).At("=")
  {
    if ds == [] {
      BeforeNone(c);
      NoDirectiveTokens();
    }
  }

  /** An enum value with directives after it means what it means without them. */
  lemma DirectedValue(v: ValueSrc, ds: seq<DirectiveSrc>, found: seq<EnumValue>, c: Cursor)
    requires GoodDescription(v.description) && IsName(v.name) && GoodDirectives(ds) && Ends(c) && !c.At("(")
    ensures EnumValues(Before(ValueTokens(v) + DirectivesTokens(ds), c), found, "")
         == EnumValues(c, found + [EnumValue(v.name, DescriptionText(v.description))], "")
  {
    hide IsName, TrimSpace, GoodDescription, SkipDirectives, GoodDirectives, DirectivesTokens;
    var bare := [N(v.name)] + DirectivesTokens(ds);
    NameEndsType(v.name, DirectivesTokens(ds), c);
    DirectivesSkipped(ds, c);
    if v.description.None? {
      assert ValueTokens(v) + DirectivesTokens(ds) == bare;
    } else {
      assert ValueTokens(v) + DirectivesTokens(ds) == DescriptionTokens(v.description) + bare;
      DescriptionRead(v.description, bare, c);
    }
  }

  // ---------------------------------------------------------------- input fields with defaults

  datatype DefaultedSrc = DefaultedSrc(description: Option<string>, name: string, typ: TypeExpr,
                                       default: Option<seq<Token>>, directives: seq<DirectiveSrc>)

  /** An input field after its name. */
  function RestTokens(x: DefaultedSrc): seq<Token> {
    [P(":")] + (TypeTokens(x.typ) + (DefaultTokens(x.default) + DirectivesTokens(x.directives)))
  }

  function BareTokens(x: DefaultedSrc): seq<Token> {
    [N(x.name)] + RestTokens(x)
  }

  function FieldsTokens(xs: seq<DefaultedSrc>): seq<Token> {
    if xs == [] then [] else DescriptionTokens(xs[0].description) + (BareTokens(xs[0]) + FieldsTokens(xs[1..]))
  }

  /** Whether the value of the first field takes in the description of the second. */
  predicate Swallows(xs: seq<DefaultedSrc>) {
    |xs| > 1 && xs[0].default.Some? && xs[0].directives == [] && xs[1].description.Some?
  }

  function DefaultOf(xs: seq<DefaultedSrc>): string
    requires xs != []
  {
    if xs[0].default.None? then ""
    else Values(xs[0].default.value) + (if Swallows(xs) then xs[1].description.value else "")
  }

  function FieldsMeaning(xs: seq<DefaultedSrc>, swallowed: bool): seq<Argument> {
    if xs == [] then []
    else
      [Argument(xs[0].name, if swallowed then "" else DescriptionText(xs[0].description), RefOf(xs[0].typ),
                DefaultOf(xs), xs[0].typ.NonNull?)]
      + FieldsMeaning(xs[1..], Swallows(xs))
  }

  predicate GoodDefaulted(x: DefaultedSrc) {
    && IsName(x.name) && ReadableType(x.typ) && GoodDirectives(x.directives)
    && (x.default.Some? ==> IsValue(x.default.value, 0))
    && GoodDescription(x.description)
    && (x.description.Some? ==> x.description.value !in {"[", "]", "{", "(", ")"})
  }

  predicate AllGoodDefaulted(xs: seq<DefaultedSrc>) {
    forall i :: 0 <= i < |xs| ==> GoodDefaulted(xs[i])
  }

  /** Where the list goes on: at its end, at a description or at a name. */
  function Rest(xs: seq<DefaultedSrc>, c: Cursor): Cursor {
    Before(FieldsTokens(xs) + [P("}")], c)
  }

  /** The same, after the description of the first field. */
  function Undescribed(xs: seq<DefaultedSrc>, c: Cursor): Cursor
    requires xs != []
  {
    Before(BareTokens(xs[0]), Rest(xs[1..], c))
  }

  lemma RestStarts(xs: seq<DefaultedSrc>, c: Cursor)
    requires AllGoodDefaulted(xs)
    ensures (var b := Rest(xs, c);
             && Ends(b) && !b.At("(") && !b.At(":")
             && if xs == [] then b.At("}") && b.Next() == c
                else
                  && !b.At("}")
                  && if xs[0].description.None? then b == Undescribed(xs, c)
                     else b.rest != [] && b.rest[0] == S(xs[0].description.value) && b.Next() == Undescribed(xs, c))
  {
    hide BareTokens, RestTokens, IsName, ReadableType, GoodDirectives, IsValue;
    if xs == [] {
      BeforeOne(P("}"), c);
      assert FieldsTokens(xs) + [P("}")] == [P("}")];
    } else {
      var others := FieldsTokens(xs[1..]) + [P("}")];
      BeforeJoin(BareTokens(xs[0]), others, c);
      NameStarts(xs, c);
      var tail := BareTokens(xs[0]) + others;
      if xs[0].description.None? {
        assert FieldsTokens(xs) + [P("}")] == tail;
      } else {
        assert FieldsTokens(xs) + [P("}")] == [S(xs[0].description.value)] + tail;
        BeforeCons(S(xs[0].description.value), tail, c);
      }
    }
  }

  lemma NameStarts(xs: seq<DefaultedSrc>, c: Cursor)
    requires xs != [] && IsName(xs[0].name)
    ensures (var b := Undescribed(xs, c);
             && b.rest != [] && b.rest[0] == N(xs[0].name) && Ends(b) && !b.At("(") && !b.At(":") && !b.At("}")
             && b.Next() == Before(RestTokens(xs[0]), Rest(xs[1..], c)) && b.Next().At(":"))
  {
    hide IsName, Rest;
    BeforeCons(N(xs[0].name), RestTokens(xs[0]), Rest(xs[1..], c));
    NotPunct(xs[0].name);
    BeforeCons(P(":"), TypeTokens(xs[0].typ) + (DefaultTokens(xs[0].default) + DirectivesTokens(xs[0].directives)),
               Rest(xs[1..], c));
  }

  /** What reading a default value does at the start of the rest. */
  lemma ValueEnds(xs: seq<DefaultedSrc>, c: Cursor)
    requires AllGoodDefaulted(xs)
    ensures DefaultValue(Rest(xs, c), 0)
         == if xs == [] || xs[0].description.None? then ("", Rest(xs, c))
            else (xs[0].description.value, Undescribed(xs, c))
    ensures xs != [] ==> DefaultValue(Undescribed(xs, c), 0) == ("", Undescribed(xs, c))
  {
    hide Rest, Undescribed, IsName, ReadableType, GoodDirectives, IsValue;
    RestStarts(xs, c);
    if xs != [] {
      NameStarts(xs, c);
      NameEndsValue(Undescribed(xs, c));
      if xs[0].description.Some? {
        var b := Rest(xs, c);
        OperationProofs.ValueStep(b, 0, 0);
        assert xs[0].description.value + "" == xs[0].description.value;
      }
    } else {
      BraceEndsValue(Rest(xs, c));
    }
  }

  lemma NameEndsValue(c: Cursor)
    requires c.AtKind(Name) && c.Next().At(":")
    ensures DefaultValue(c, 0) == ("", c)
  {
  }

  lemma BraceEndsValue(c: Cursor)
    requires c.At("}")
    ensures DefaultValue(c, 0) == ("", c)
  {
  }

  /** An input field from its name on. */
  lemma FieldRead(xs: seq<DefaultedSrc>, description: string, c: Cursor)
    requires AllGoodDefaulted(xs) && xs != []
    ensures (var x, others := xs[0], xs[1..];
             ArgumentRest(Before(RestTokens(x), Rest(others, c)), x.name, description)
             == (Argument(x.name, description, RefOf(x.typ), DefaultOf(xs), x.typ.NonNull?),
                 if Swallows(xs) then Undescribed(others, c) else Rest(others, c)))
  {
    hide ParseTypeRef, TypeTokens, RefOf, DefaultValue, SkipDirectives, ReadableType, Rest, Undescribed, IsValue,
         DirectivesTokens, GoodDirectives, Values, Before, IsName, GoodDescription;
    var x, others := xs[0], xs[1..];
    var next := Rest(others, c);
    var at := Before(DirectivesTokens(x.directives), next);
    RestStarts(others, c);
    DirectivesSkipped(x.directives, next);
    NotBang(x.directives, next);
    BeforeJoin(DefaultTokens(x.default), DirectivesTokens(x.directives), next);
    if x.directives == [] {
      BeforeNone(next);
      NoDirectiveTokens();
    }
    if x.default.Some? {
      BeforeCons(P("="), x.default.value, at);
      DefaultEndsAt(xs, c);
    } else {
      BeforeNone(at);
    }
    TypeBefore(x.typ, DefaultTokens(x.default) + DirectivesTokens(x.directives), next);
  }

  /** The text of a default value, and where the parser is after it. */
  lemma DefaultEndsAt(xs: seq<DefaultedSrc>, c: Cursor)
    requires AllGoodDefaulted(xs) && xs != [] && xs[0].default.Some?
    ensures (var x, others := xs[0], xs[1..];
             var (text, end) := DefaultValue(Before(x.default.value, Before(DirectivesTokens(x.directives),
                                                                            Rest(others, c))), 0);
             && text == DefaultOf(xs)
             && SkipDirectives(end) == if Swallows(xs) then Undescribed(others, c) else Rest(others, c))
  {
    hide IsValue, DefaultValue, DirectivesTokens, SkipDirectives, Rest, Undescribed, Values, ReadableType, IsName,
         GoodDescription, GoodDirectives;
    var x, others := xs[0], xs[1..];
    var next := Rest(others, c);
    var at := Before(DirectivesTokens(x.directives), next);
    RestStarts(others, c);
    DirectivesSkipped(x.directives, next);
    if x.directives == [] {
      BeforeNone(next);
      NoDirectiveTokens();
      ValueEnds(others, c);
      if others != [] {
        NameStarts(others, c);
        NoneSkipped(Undescribed(others, c));
      }
      NoneSkipped(next);
    } else {
      DefaultEnds(at);
    }
    DefaultRead(x.default.value, 0, at);
    assert Values(x.default.value) + "" == Values(x.default.value);
  }

  /** The input fields of a definition, with their default values, from the start of the list or
      after its first description. */
  lemma {:induction false} DefaultedParsed(xs: seq<DefaultedSrc>, found: seq<Argument>, c: Cursor)
    requires AllGoodDefaulted(xs)
    ensures InputFields(Rest(xs, c), found, "") == (found + FieldsMeaning(xs, false), c)
    ensures xs != [] ==> InputFields(Undescribed(xs, c), found, "") == (found + FieldsMeaning(xs, true), c)
    decreases |xs|
  {
    hide GoodDefaulted, Rest, Undescribed, InputFields, RestTokens, RefOf, TrimSpace;
    RestStarts(xs, c);
    if xs == [] {
      ListDone(Rest(xs, c), found);
      assert found + [] == found;
    } else {
      var text := DescriptionText(xs[0].description);
      OneField(xs, found, text, c);
      OneField(xs, found, "", c);
      if xs[0].description.Some? {
        InputTextTaken(Rest(xs, c), found);
      }
    }
  }

  lemma ListDone(c: Cursor, found: seq<Argument>)
    requires c.At("}")
    ensures InputFields(c, found, "") == (found, c.Next())
  {
  }

  lemma InputTextTaken(c: Cursor, found: seq<Argument>)
    requires c.rest != [] && !c.At("}") && c.AtKind(Kind.Text)
    ensures InputFields(c, found, "") == InputFields(c.Next(), found, TrimSpace(c.rest[0].value))
  {
    hide TrimSpace;
  }

  lemma {:induction false} OneField(xs: seq<DefaultedSrc>, found: seq<Argument>, description: string, c: Cursor)
    requires AllGoodDefaulted(xs) && xs != []
    ensures (var x := xs[0];
             var first := Argument(x.name, description, RefOf(x.typ), DefaultOf(xs), x.typ.NonNull?);
             InputFields(Undescribed(xs, c), found, description)
             == (found + ([first] + FieldsMeaning(xs[1..], Swallows(xs))), c))
    decreases |xs|, 0
  {
    hide GoodDirectives, ReadableType, IsValue, GoodDescription, Rest, Undescribed, RestTokens, RefOf, TrimSpace,
         ArgumentRest, Values;
    var x, others := xs[0], xs[1..];
    var first := Argument(x.name, description, RefOf(x.typ), DefaultOf(xs), x.typ.NonNull?);
    NameStarts(xs, c);
    FieldRead(xs, description, c);
    FieldTaken(Undescribed(xs, c), found, description);
    DefaultedParsed(others, found + [first], c);
    assert (found + [first]) + FieldsMeaning(others, Swallows(xs))
        == found + ([first] + FieldsMeaning(others, Swallows(xs)));
  }

  lemma FieldTaken(c: Cursor, found: seq<Argument>, description: string)
    requires c.AtKind(Name) && c.rest[0].value != "" && !c.At("}")
    ensures (var (arg, end) := ArgumentRest(c.Next(), c.rest[0].value, description);
             InputFields(c, found, description) == InputFields(end, found + [arg], ""))
  {
    hide ArgumentRest, TrimSpace;
  }

  // ---------------------------------------------------------------- exactly when

  lemma {:induction false} FieldAt(xs: seq<DefaultedSrc>, swallowed: bool, i: nat)
    requires i < |xs|
    ensures (var r := FieldsMeaning(xs, swallowed);
             && |r| == |xs|
             && r[i].defaultValue == DefaultOf(xs[i..])
             && r[i].description == if (if i == 0 then swallowed else Swallows(xs[i - 1..])) then ""
                                    else DescriptionText(xs[i].description))
    decreases |xs|
  {
    hide DefaultOf, Swallows, RefOf, TrimSpace;
    assert xs[0..] == xs;
    if |xs| > 1 {
      var j: nat := if i > 0 then i - 1 else 0;
      FieldAt(xs[1..], Swallows(xs), j);
      assert i > 0 ==> xs[1..][i - 1..] == xs[i..];
      assert i > 1 ==> xs[1..][i - 2..] == xs[i - 1..];
    } else {
      assert FieldsMeaning(xs[1..], Swallows(xs)) == [];
    }
  }

  /** An input field keeps its description exactly when the field before it has no default
      value, a directive stands between them, or there is nothing to keep. */
  lemma DescriptionExactly(xs: seq<DefaultedSrc>, i: nat)
    requires 0 < i < |xs|
    ensures |FieldsMeaning(xs, false)| == |xs|
    ensures FieldsMeaning(xs, false)[i].description == DescriptionText(xs[i].description)
       <==> xs[i - 1].default.None? || xs[i - 1].directives != [] || DescriptionText(xs[i].description) == ""
  {
    hide DefaultOf, TrimSpace;
    FieldAt(xs, false, i);
    assert xs[i - 1..][0] == xs[i - 1] && |xs[i - 1..]| > 1 && xs[i - 1..][1] == xs[i];
    assert DescriptionText(None) == "";
  }

  // ---------------------------------------------------------------- a document

  function InputTokens(name: string, xs: seq<DefaultedSrc>): seq<Token> {
    [N("input")] + ([N(name)] + Block(FieldsTokens(xs)))
  }

  function InputType(name: string, xs: seq<DefaultedSrc>): Type {
    NewType(name, "INPUT_OBJECT", "").(inputFields := FieldsMeaning(xs, false))
  }

  lemma InputDefinition(name: string, xs: seq<DefaultedSrc>, m: Model, c: Cursor)
    requires IsName(name) && AllGoodDefaulted(xs)
    ensures (var b := Before(InputTokens(name, xs), c);
             && b.rest != [] && b.AtKind(Name) && !b.At("extend")
             && ParseDefinition(b, m, "") == (m.(types := m.types + [InputType(name, xs)]), c))
  {
    hide IsName, SkipUntil, InputFields, FieldsTokens, FieldsMeaning, GoodDefaulted, Block, ParseSchema, UnionMembers,
         ParseOperation, SkipDefinition;
    var body := FieldsTokens(xs);
    BeforeCons(N("input"), [N(name)] + Block(body), c);
    BlockTypeParsed(name, body, c);
    DefaultedParsed(xs, [], c);
    assert [] + FieldsMeaning(xs, false) == FieldsMeaning(xs, false);
  }

  lemma InputDocument(name: string, xs: seq<DefaultedSrc>)
    requires IsName(name) && AllGoodDefaulted(xs)
    requires AllPrintable(InputTokens(name, xs)) && |InputTokens(name, xs)| <= MAX_NESTING_DEPTH
    ensures (var r := ParseGraphQLText(Render(InputTokens(name, xs)));
             r.Parsed? && InputType(name, xs) in r.model.types)
  {
    hide Lex, Render, InputType, IsName, GoodDefaulted, ParseDefinition, AllPrintable, Admitted, Finish, CompactTypes,
         InputTokens;
    var tokens := InputTokens(name, xs);
    var c, m := Cursor([], false), NewModel.(types := [InputType(name, xs)]);
    QueryMeaning.FewAdmitted(tokens, Start);
    LexRendered(tokens, Start);
    assert Before(tokens, c) == Cursor(tokens, false) by { assert tokens + [] == tokens; }
    InputDefinition(name, xs, NewModel, c);
    assert NewModel.types + [InputType(name, xs)] == [InputType(name, xs)];
    DefinitionRead(Cursor(tokens, false), m);
    NamedAlone(name, xs);
    FinishedModels.FinishIs(m);
  }

  lemma DefinitionRead(c: Cursor, m: Model)
    requires c.rest != [] && c.AtKind(Name) && !c.At("extend") && ParseDefinition(c, NewModel, "").0 == m
    requires ParseDefinition(c, NewModel, "").1 == Cursor([], false)
    ensures ParseDocument(c, NewModel, "") == (m, Cursor([], false))
  {
    hide ParseDefinition, TrimSpace;
    NothingLeft(m);
  }

  lemma NamedAlone(name: string, xs: seq<DefaultedSrc>)
    requires IsName(name)
    ensures CompactTypes([InputType(name, xs)]) == [InputType(name, xs)]
  {
    hide IsName, TrimSpace, FieldsMeaning, MergeInto;
    NamePlain(name);
    var t := InputType(name, xs);
    assert [t][..0] == [] && CompactTypes([]) == [];
    MergeNew([], t);
  }

  /** input I { a: Int = 1 "Second" b: Int } */
  const TWO_INPUTS := [DefaultedSrc(None, "a", Named("Int"), Some([N("1")]), []),
                       DefaultedSrc(Some("Second"), "b", Named("Int"), None, [])]

  lemma TwoInputsGood()
    ensures IsName("I") && AllGoodDefaulted(TWO_INPUTS)
  {
    hide Printable, IsName;
    QueryMeaning.ShortNames();
    assert IsName("I") by { LetterName(); }
    assert GoodDefaulted(TWO_INPUTS[0]) && GoodDefaulted(TWO_INPUTS[1]);
  }

  lemma LetterName()
    ensures IsName("I")
  {
  }

  lemma TwoInputTokens()
    ensures InputTokens("I", TWO_INPUTS)
         == [N("input"), N("I"), P("{"), N("a"), P(":"), N("Int"), P("="), N("1"), S("Second"), N("b"), P(":"),
             N("Int"), P("}")]
  {
    var last := [TWO_INPUTS[1]];
    assert TWO_INPUTS[1..] == last && last[1..] == [] && FieldsTokens([]) == [];
    assert FieldsTokens(last) == [S("Second"), N("b"), P(":"), N("Int")];
    assert FieldsTokens(TWO_INPUTS) == [N("a"), P(":"), N("Int"), P("="), N("1")] + FieldsTokens(last);
  }

  lemma TwoInputsPrintable()
    ensures AllPrintable(InputTokens("I", TWO_INPUTS))
  {
    hide IsName, NumberStart, Printable, InputTokens, FieldsTokens;
    TwoInputTokens();
    QueryMeaning.ShortNames();
    LetterName();
    PrintablePunct("{", "input");
    PrintablePunct(":", "");
    PrintablePunct("}", "");
    PunctPrintable("=");
    assert Printable(S("Second")) by { TextPrintable("Second"); }
    assert Printable([N("1")][0]) && Printable([P("=")][0]) && Printable([P("{")][0]) && Printable([P("}")][0]);
    assert Printable([P(":")][0]) && Printable([N("input")][0]);
    NamedPrintable("I");
    NamedPrintable("a");
    NamedPrintable("b");
    NamedPrintable("Int");
  }

  lemma TextPrintable(text: string)
    ensures Printable(S(text))
  {
  }

  lemma NamedPrintable(name: string)
    requires IsName(name)
    ensures Printable(N(name))
  {
  }

  predicate LostDescription(t: Type) {
    && |t.inputFields| == 2 && t.inputFields[0].defaultValue == "1Second"
    && t.inputFields[1].name == "b" && t.inputFields[1].description == ""
  }

  /** An accepted document in which the description of an input field is read as part of the
      default value of the field before it. */
  lemma DescriptionSwallowed()
    ensures (var r := ParseGraphQLText(Render(InputTokens("I", TWO_INPUTS)));
             r.Parsed? && exists t <- r.model.types :: LostDescription(t))
  {
    hide ParseGraphQLText, Render, InputTokens, AllPrintable, AllGoodDefaulted, IsName, LostDescription, InputType;
    TwoInputsGood();
    TwoInputsPrintable();
    assert |InputTokens("I", TWO_INPUTS)| == 13 by { TwoInputTokens(); }
    InputDocument("I", TWO_INPUTS);
    TwoInputsMean();
  }

  lemma TwoInputsMean()
    ensures LostDescription(InputType("I", TWO_INPUTS))
  {
    hide TrimSpace;
    FieldAt(TWO_INPUTS, false, 0);
    FieldAt(TWO_INPUTS, false, 1);
    assert TWO_INPUTS[0..] == TWO_INPUTS && Swallows(TWO_INPUTS);
    QueryMeaning.OneValue();
    assert "1" + "Second" == "1Second";
    assert FieldsMeaning(TWO_INPUTS, false)[1].name == "b" by {
      assert TWO_INPUTS[1..][0] == TWO_INPUTS[1];
    }
  }
}
