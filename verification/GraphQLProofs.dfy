/** Parsing the tokens of a canonical schema returns what it stands for, and the two readers
    of type references agree. */
module GraphQLProofs {
  import opened GraphQLLexer
  import opened GraphQLModel
  import opened GraphQLSource
  import opened GraphQLSpec
  import opened Json
  import opened Lexing
  import opened OperationIDs
  import opened Text
  import opened Tokens
  import opened Wrappers
  import Ordering

  // ---------------------------------------------------------------- type references

  lemma NamePlain(s: string)
    requires IsName(s)
    ensures s != "" && TrimSpace(s) == s && '.' !in s
  {
    hide TrimSpace;
    assert NameContinue(s[|s| - 1]);
    assert forall i :: 0 <= i < |s| ==> NameContinue(s[i]);
    TrimSpaceFixes(s);
  }

  lemma NotPunct(s: string)
    requires IsName(s)
    ensures s != "" && s != "[" && s != "!" && s != ":" && s != "(" && s != ")" && s != "{" && s != "}" && s != "@"
            && s != "="
  {
  }

  lemma TypeFirst(t: TypeExpr, c: Cursor)
    requires GoodType(t)
    ensures (var b := Before(TypeTokens(t), c);
             b.rest != [] && b.rest[0].kind != Kind.Text
               && (b.rest[0] == P("[") || (b.rest[0].kind == Name && IsName(b.rest[0].value))))
  {
    match t {
      case Named(name) => BeforeOne(N(name), c);
      case ListOf(of) => BeforeCons(P("["), TypeTokens(of) + [P("]")], c);
      case NonNull(of) =>
        TypeFirst(of, Before([P("!")], c));
        BeforeJoin(TypeTokens(of), [P("!")], c);
    }
  }

  lemma NamedParsed(name: string, depth: nat, bang: bool, c: Cursor)
    requires IsName(name) && depth < MAX_NESTING_DEPTH && c.At("!") == bang
    ensures ParseTypeRef(Before([N(name)], c), depth)
         == (TypeRef(name, "", name + Bang(bang), bang, false, None), if bang then c.Next() else c)
    ensures name + "" == name
  {
    hide IsName;
    NotPunct(name);
    BeforeOne(N(name), c);
  }

  /** A type below the nesting limit is parsed exactly: the parser stops right after it. */
  lemma {:induction false} TypeParsed(t: TypeExpr, depth: nat, c: Cursor)
    requires GoodType(t) && depth + Lists(t) < MAX_NESTING_DEPTH && (t.NonNull? || !c.At("!"))
    ensures ParseTypeRef(Before(TypeTokens(t), c), depth) == (RefOf(t), c)
    decreases t, 0
  {
    hide IsName, ParseTypeRef;
    match t {
      case Named(name) => NamedParsed(name, depth, false, c);
      case ListOf(of) => ListParsed(of, depth, false, c);
      case NonNull(of) =>
        BeforeJoin(TypeTokens(of), [P("!")], c);
        BeforeOne(P("!"), c);
        match of {
          case Named(name) => NamedParsed(name, depth, true, Before([P("!")], c));
          case ListOf(inner) => ListParsed(inner, depth, true, Before([P("!")], c));
        }
    }
  }

  lemma {:induction false} ListParsed(of: TypeExpr, depth: nat, bang: bool, c: Cursor)
    requires GoodType(of) && depth + 1 + Lists(of) < MAX_NESTING_DEPTH && c.At("!") == bang
    ensures ParseTypeRef(Before(TypeTokens(ListOf(of)), c), depth)
         == (TypeRef("", "", "[" + RefOf(of).display + "]" + Bang(bang), bang, true, Some(RefOf(of))),
             if bang then c.Next() else c)
    ensures "[" + RefOf(of).display + "]" + "" == "[" + RefOf(of).display + "]"
    decreases of, 1
  {
    hide IsName, TypeTokens, RefOf;
    BracketTokens(of, c);
    BeforeOne(P("]"), c);
    TypeParsed(of, depth + 1, Before([P("]")], c));
  }

  lemma BracketTokens(of: TypeExpr, c: Cursor)
    ensures (var b := Before(TypeTokens(ListOf(of)), c);
             b.At("[") && b.Next() == Before(TypeTokens(of), Before([P("]")], c)))
  {
    BeforeCons(P("["), TypeTokens(of) + [P("]")], c);
    BeforeJoin(TypeTokens(of), [P("]")], c);
  }

  /** Deeper types are refused: the error is recorded. */
  lemma {:induction false} TooDeepRefused(t: TypeExpr, depth: nat, c: Cursor)
    requires GoodType(t) && depth + Lists(t) >= MAX_NESTING_DEPTH
    ensures ParseTypeRef(Before(TypeTokens(t), c), depth).1.failed
    decreases t
  {
    hide IsName;
    if depth < MAX_NESTING_DEPTH {
      match t {
        case Named(name) =>
        case ListOf(of) =>
          BracketTokens(of, c);
          TooDeepRefused(of, depth + 1, Before([P("]")], c));
        case NonNull(of) =>
          BeforeJoin(TypeTokens(of), [P("!")], c);
          TooDeepRefused(of, depth, Before([P("!")], c));
      }
    }
  }

  lemma RefDisplay(t: TypeExpr)
    requires GoodType(t)
    ensures RefOf(t).display == Written(t) != ""
    ensures RefOf(t).list == IsList(t) && RefOf(t).required == t.NonNull?
  {
    hide IsName;
    match t {
      case Named(name) => NamePlain(name);
      case ListOf(of) => RefDisplay(of);
      case NonNull(of) => RefDisplay(of);
    }
  }

  lemma IntrospectionFields(root: Schema, kind: string, name: Json)
    requires "kind" in root && root["kind"] == Str(kind) && "name" in root && root["name"] == name
    ensures StringField(root, "kind") == TrimSpace(kind)
    ensures StringField(root, "name") == TrimSpace(ScalarString(name))
  {
    hide TrimSpace;
  }

  lemma Kinds()
    ensures TrimSpace("LIST") == "LIST" && TrimSpace("NON_NULL") == "NON_NULL" && TrimSpace("") == ""
  {
    hide TrimSpace;
    TrimSpaceFixes("LIST");
    TrimSpaceFixes("NON_NULL");
    TrimSpaceFixes("");
  }

  /** The introspection reader gives what is written, whether it is a list and whether it is
      required. */
  lemma {:induction false} IntrospectionRead(t: TypeExpr, kind: string)
    requires GoodType(t) && TrimSpace(kind) !in {"NON_NULL", "LIST"}
    ensures (var r := TypeRefFromIntrospection(Introspected(t, kind));
             r.display == Written(t) != "" && r.required == t.NonNull? && r.list == IsList(t))
    decreases t
  {
    hide IsName, TrimSpace, StringField;
    var root := Introspected(t, kind).fields;
    Kinds();
    match t {
      case Named(name) =>
        NamePlain(name);
        IntrospectionFields(root, kind, Str(name));
      case ListOf(of) =>
        IntrospectionFields(root, "LIST", Null);
        IntrospectionRead(of, kind);
      case NonNull(of) =>
        IntrospectionFields(root, "NON_NULL", Null);
        IntrospectionRead(of, kind);
    }
  }

  /** For every type expression nested below the limit the two readers agree on Display,
      Required and List, and the parser of the document stops right after the type; deeper
      ones are refused. */
  lemma TypeReadersAgree(t: TypeExpr, kind: string, c: Cursor)
    requires GoodType(t) && TrimSpace(kind) !in {"NON_NULL", "LIST"} && (t.NonNull? || !c.At("!"))
    ensures (var (ref, end) := ParseTypeRef(Before(TypeTokens(t), c), 0);
             var other := TypeRefFromIntrospection(Introspected(t, kind));
             if Lists(t) < MAX_NESTING_DEPTH
             then end == c && ref.display == other.display == Written(t) && ref.required == other.required
               && ref.list == other.list
             else end.failed)
  {
    hide ParseTypeRef, TypeRefFromIntrospection, TypeTokens, Introspected, RefOf, IsName, TrimSpace;
    if Lists(t) < MAX_NESTING_DEPTH {
      TypeParsed(t, 0, c);
      RefDisplay(t);
      IntrospectionRead(t, kind);
    } else {
      TooDeepRefused(t, 0, c);
    }
  }

  // ---------------------------------------------------------------- arguments

  /** Nothing that would continue a type, a default value or a directive. */
  predicate Ends(c: Cursor) {
    !c.At("!") && !c.At("=") && !c.At("@")
  }

  lemma NoDirectives(c: Cursor)
    requires Ends(c)
    ensures SkipDirectives(c) == c
  {
  }

  lemma ReadableGood(t: TypeExpr)
    requires ReadableType(t)
    ensures GoodType(t) && Lists(t) < MAX_NESTING_DEPTH && RefOf(t).required == t.NonNull?
  {
    hide GoodType, Written, IsList;
    RefDisplay(t);
  }

  /** A colon and a type, up to what follows. */
  lemma ArgumentParsed(t: TypeExpr, name: string, description: string, c: Cursor)
    requires ReadableType(t) && Ends(c)
    ensures ArgumentRest(Before([P(":")] + TypeTokens(t), c), name, description) == (ArgOf(name, description, t), c)
  {
    hide ParseTypeRef, TypeTokens, RefOf, DefaultValue, SkipDirectives, ReadableType, GoodType;
    ReadableGood(t);
    BeforeCons(P(":"), TypeTokens(t), c);
    TypeParsed(t, 0, c);
    NoDirectives(c);
  }

  lemma NameEndsType(name: string, tail: seq<Token>, c: Cursor)
    requires IsName(name)
    ensures (var b := Before([N(name)] + tail, c);
             Ends(b) && !b.At(")") && !b.At("}") && !b.At("(") && !b.AtKind(Kind.Text)
             && b.NameHere() == name != "" && b.AfterName() == Before(tail, c))
  {
    hide IsName;
    NotPunct(name);
    BeforeCons(N(name), tail, c);
  }

  lemma {:induction false} ArgsParsed(args: seq<ArgSrc>, found: seq<Argument>, c: Cursor)
    requires GoodArgs(args)
    ensures (var b := Before(ArgsTokens(args) + [P(")")], c);
             Ends(b) && Arguments(b, found, false) == (found + ArgsMeaning(args), c))
    decreases |args|
  {
    hide IsName, ReadableType, TypeTokens, ArgumentRest, ArgOf, Before;
    if args == [] {
      BeforeOne(P(")"), c);
      assert ArgsTokens(args) + [P(")")] == [P(")")];
      assert found + [] == found;
    } else {
      var a, rest := args[0], ArgsTokens(args[1..]) + [P(")")];
      var after := Before(rest, c);
      assert ArgsTokens(args) + [P(")")] == ArgTokens(a) + rest;
      BeforeJoin(ArgTokens(a), rest, c);
      NameEndsType(a.name, [P(":")] + TypeTokens(a.typ), after);
      var next := found + [ArgOf(a.name, "", a.typ)];
      ArgsParsed(args[1..], next, c);
      ArgumentParsed(a.typ, a.name, "", after);
      assert next + ArgsMeaning(args[1..]) == found + ArgsMeaning(args);
    }
  }

  // ---------------------------------------------------------------- fields

  lemma DescriptionRead(d: Option<string>, tail: seq<Token>, c: Cursor)
    requires GoodDescription(d) && d.Some?
    ensures (var b := Before(DescriptionTokens(d) + tail, c);
             b.rest != [] && Ends(b) && !b.At("}") && b.AtKind(Kind.Text)
               && TrimSpace(b.rest[0].value) == DescriptionText(d)
             && b.Next() == Before(tail, c))
  {
    hide TrimSpace;
    BeforeCons(S(d.value), tail, c);
  }

  /** A field after its description. */
  lemma FieldParsed(f: FieldSrc, found: seq<Field>, pending: string, c: Cursor)
    requires GoodField(f) && Ends(c)
    ensures (var b := Before(FieldTokens(f.(description := None)), c);
             Ends(b) && ObjectFields(b, found, pending)
                        == ObjectFields(c, found + [Field(f.name, pending, RefOf(f.typ), ArgsMeaning(f.args))], ""))
  {
    hide IsName, ReadableType, GoodType, TypeTokens, RefOf, ParseTypeRef, Arguments, ArgsTokens, ArgsMeaning,
         GoodArgs, SkipDirectives, GoodDescription;
    var typed := [P(":")] + TypeTokens(f.typ);
    var block := if f.args == [] then [] else [P("(")] + (ArgsTokens(f.args) + [P(")")]);
    assert FieldTokens(f.(description := None)) == [N(f.name)] + (block + typed);
    NameEndsType(f.name, block + typed, c);
    ReadableGood(f.typ);
    BeforeCons(P(":"), TypeTokens(f.typ), c);
    TypeParsed(f.typ, 0, c);
    NoDirectives(c);
    if f.args == [] {
      assert block + typed == typed;
      assert ArgsMeaning(f.args) == [] by { NoArgs(); }
    } else {
      BeforeJoin(block, typed, c);
      BeforeCons(P("("), ArgsTokens(f.args) + [P(")")], Before(typed, c));
      ArgsParsed(f.args, [], Before(typed, c));
      assert [] + ArgsMeaning(f.args) == ArgsMeaning(f.args);
    }
  }

  lemma NoArgs()
    ensures ArgsMeaning([]) == []
  {
  }

  lemma FieldStep(f: FieldSrc, found: seq<Field>, c: Cursor)
    requires GoodField(f) && Ends(c)
    ensures (var b := Before(FieldTokens(f), c);
             Ends(b) && ObjectFields(b, found, "") == ObjectFields(c, found + [FieldMeaning(f)], ""))
  {
    hide IsName, ReadableType, TypeTokens, RefOf, ParseTypeRef, Arguments, ArgsTokens, ArgsMeaning, GoodArgs,
         SkipDirectives, TrimSpace, GoodDescription;
    FieldParsed(f, found, DescriptionText(f.description), c);
    var bare := FieldTokens(f.(description := None));
    if f.description.None? {
      assert FieldTokens(f) == bare;
    } else {
      assert FieldTokens(f) == DescriptionTokens(f.description) + bare;
      DescriptionRead(f.description, bare, c);
    }
  }

  lemma BodyEnds(c: Cursor)
    ensures (var b := Before([P("}")], c);
             Ends(b) && b.At("}") && b.Next() == c && !b.Done())
    ensures forall found :: ObjectFields(Before([P("}")], c), found, "") == (found, c)
    ensures forall found :: InputFields(Before([P("}")], c), found, "") == (found, c)
    ensures forall found :: EnumValues(Before([P("}")], c), found, "") == (found, c)
  {
    BeforeOne(P("}"), c);
  }

  lemma {:induction false} FieldsParsed(fs: seq<FieldSrc>, found: seq<Field>, c: Cursor)
    requires GoodFields(fs)
    ensures (var b := Before(FieldsTokens(fs) + [P("}")], c);
             Ends(b) && ObjectFields(b, found, "") == (found + FieldsMeaning(fs), c))
    decreases |fs|
  {
    hide GoodField, FieldTokens, FieldMeaning, Before, Ends, ObjectFields;
    if fs == [] {
      BodyEnds(c);
      assert FieldsTokens(fs) + [P("}")] == [P("}")];
      assert found + [] == found;
    } else {
      var rest := FieldsTokens(fs[1..]) + [P("}")];
      assert FieldsTokens(fs) + [P("}")] == FieldTokens(fs[0]) + rest;
      BeforeJoin(FieldTokens(fs[0]), rest, c);
      var next := found + [FieldMeaning(fs[0])];
      FieldsParsed(fs[1..], next, c);
      FieldStep(fs[0], found, Before(rest, c));
      assert next + FieldsMeaning(fs[1..]) == found + FieldsMeaning(fs);
    }
  }

  // ---------------------------------------------------------------- input fields and enum values

  lemma InputStep(i: InputSrc, found: seq<Argument>, c: Cursor)
    requires GoodDescription(i.description) && IsName(i.name) && ReadableType(i.typ) && Ends(c)
    ensures (var b := Before(InputTokens(i), c);
             Ends(b) && InputFields(b, found, "")
                        == InputFields(c, found + [ArgOf(i.name, DescriptionText(i.description), i.typ)], ""))
  {
    hide IsName, ReadableType, TypeTokens, ArgumentRest, ArgOf, TrimSpace, GoodDescription;
    var typed := [P(":")] + TypeTokens(i.typ);
    var bare := [N(i.name)] + typed;
    NameEndsType(i.name, typed, c);
    ArgumentParsed(i.typ, i.name, DescriptionText(i.description), c);
    if i.description.None? {
      assert InputTokens(i) == bare;
    } else {
      DescriptionRead(i.description, bare, c);
    }
  }

  lemma {:induction false} InputsParsed(xs: seq<InputSrc>, found: seq<Argument>, c: Cursor)
    requires GoodInputs(xs)
    ensures (var b := Before(InputsTokens(xs) + [P("}")], c);
             Ends(b) && InputFields(b, found, "") == (found + InputsMeaning(xs), c))
    decreases |xs|
  {
    hide GoodDescription, IsName, ReadableType, InputTokens, ArgOf, DescriptionText, Before, Ends, InputFields;
    if xs == [] {
      BodyEnds(c);
      assert InputsTokens(xs) + [P("}")] == [P("}")];
      assert found + [] == found;
    } else {
      var rest := InputsTokens(xs[1..]) + [P("}")];
      assert InputsTokens(xs) + [P("}")] == InputTokens(xs[0]) + rest;
      BeforeJoin(InputTokens(xs[0]), rest, c);
      var next := found + [ArgOf(xs[0].name, DescriptionText(xs[0].description), xs[0].typ)];
      InputsParsed(xs[1..], next, c);
      InputStep(xs[0], found, Before(rest, c));
      assert next + InputsMeaning(xs[1..]) == found + InputsMeaning(xs);
    }
  }

  lemma ValueStep(v: ValueSrc, found: seq<EnumValue>, c: Cursor)
    requires GoodDescription(v.description) && IsName(v.name) && Ends(c)
    ensures (var b := Before(ValueTokens(v), c);
             Ends(b) && EnumValues(b, found, "")
                        == EnumValues(c, found + [EnumValue(v.name, DescriptionText(v.description))], ""))
  {
    hide IsName, TrimSpace, GoodDescription, SkipDirectives;
    NameEndsType(v.name, [], c);
    BeforeNone(c);
    NoDirectives(c);
    assert [N(v.name)] + [] == [N(v.name)];
    if v.description.None? {
      assert ValueTokens(v) == [N(v.name)];
    } else {
      DescriptionRead(v.description, [N(v.name)], c);
    }
  }

  lemma {:induction false} ValuesParsed(vs: seq<ValueSrc>, found: seq<EnumValue>, c: Cursor)
    requires GoodValues(vs)
    ensures (var b := Before(ValuesTokens(vs) + [P("}")], c);
             Ends(b) && EnumValues(b, found, "") == (found + ValuesMeaning(vs), c))
    decreases |vs|
  {
    hide GoodDescription, IsName, ValueTokens, DescriptionText, Before, Ends, EnumValues;
    if vs == [] {
      BodyEnds(c);
      assert ValuesTokens(vs) + [P("}")] == [P("}")];
      assert found + [] == found;
    } else {
      var rest := ValuesTokens(vs[1..]) + [P("}")];
      assert ValuesTokens(vs) + [P("}")] == ValueTokens(vs[0]) + rest;
      BeforeJoin(ValueTokens(vs[0]), rest, c);
      var next := found + [EnumValue(vs[0].name, DescriptionText(vs[0].description))];
      ValuesParsed(vs[1..], next, c);
      ValueStep(vs[0], found, Before(rest, c));
      assert next + ValuesMeaning(vs[1..]) == found + ValuesMeaning(vs);
    }
  }

  lemma {:induction false} EntriesParsed(es: seq<(string, string)>, s: RootTypes, c: Cursor)
    requires GoodEntries(es)
    ensures SchemaEntries(Before(EntriesTokens(es) + [P("}")], c), s) == (EntriesMeaning(es, s), c)
    decreases |es|
  {
    hide IsName, WithRoot, Before;
    if es == [] {
      BodyEnds(c);
      assert EntriesTokens(es) + [P("}")] == [P("}")];
    } else {
      var rest := EntriesTokens(es[1..]) + [P("}")];
      var after := Before(rest, c);
      assert EntriesTokens(es) + [P("}")] == EntryTokens(es[0]) + rest;
      BeforeJoin(EntryTokens(es[0]), rest, c);
      NameEndsType(es[0].0, [P(":")] + [N(es[0].1)], after);
      BeforeCons(P(":"), [N(es[0].1)], after);
      NameEndsType(es[0].1, [], after);
      BeforeNone(after);
      assert [N(es[0].1)] + [] == [N(es[0].1)];
      EntriesParsed(es[1..], WithRoot(s, es[0].0, es[0].1), c);
    }
  }

  // ---------------------------------------------------------------- definitions

  lemma BlockOpens(body: seq<Token>, c: Cursor)
    ensures (var b := Before(Block(body), c);
             b.At("{") && b.Next() == Before(body + [P("}")], c) && SkipUntil(b, "{") == b)
  {
    BeforeCons(P("{"), body + [P("}")], c);
  }

  lemma BlockTypeParsed(name: string, body: seq<Token>, c: Cursor)
    requires IsName(name)
    ensures (var b := Before([N(name)] + Block(body), c);
             b.NameHere() == name && SkipUntil(b.AfterName(), "{").At("{")
             && SkipUntil(b.AfterName(), "{").Next() == Before(body + [P("}")], c))
  {
    hide IsName, SkipUntil;
    NameEndsType(name, Block(body), c);
    BlockOpens(body, c);
  }

  /** A definition, at its keyword. */
  lemma BlockDefParsed(d: DefSrc, description: string, m: Model, c: Cursor)
    requires GoodDef(d) && (d.ObjectDef? || d.InputDef? || d.EnumDef?)
    ensures (var b := Before(DefTokens(d), c);
             b.rest != [] && b.AtKind(Name) && !b.At("extend")
               && ParseDefinition(b, m, description) == (DefMeaning(d, description, m), c))
  {
    hide IsName, SkipUntil, ObjectFields, InputFields, EnumValues, FieldsTokens, InputsTokens, ValuesTokens,
         GoodFields, GoodInputs, GoodValues, Block, ParseSchema, UnionMembers, ParseOperation, SkipDefinition,
         FieldsMeaning, InputsMeaning, ValuesMeaning;
    match d {
      case ObjectDef(keyword, name, fields) =>
        var body := FieldsTokens(fields);
        BeforeCons(N(keyword), [N(name)] + Block(body), c);
        BlockTypeParsed(name, body, c);
        FieldsParsed(fields, [], c);
        assert [] + FieldsMeaning(fields) == FieldsMeaning(fields);
      case InputDef(name, inputs) =>
        var body := InputsTokens(inputs);
        BeforeCons(N("input"), [N(name)] + Block(body), c);
        BlockTypeParsed(name, body, c);
        InputsParsed(inputs, [], c);
        assert [] + InputsMeaning(inputs) == InputsMeaning(inputs);
      case EnumDef(name, values) =>
        var body := ValuesTokens(values);
        BeforeCons(N("enum"), [N(name)] + Block(body), c);
        BlockTypeParsed(name, body, c);
        ValuesParsed(values, [], c);
        assert [] + ValuesMeaning(values) == ValuesMeaning(values);
    }
  }

  lemma OtherDefParsed(d: DefSrc, description: string, m: Model, c: Cursor)
    requires GoodDef(d) && (d.ScalarDef? || d.SchemaDef?)
    ensures (var b := Before(DefTokens(d), c);
             b.rest != [] && b.AtKind(Name) && !b.At("extend")
               && ParseDefinition(b, m, description) == (DefMeaning(d, description, m), c))
  {
    hide IsName, SkipUntil, ParseBlockType, UnionMembers, ParseOperation, SkipDefinition, EntriesTokens,
         EntriesMeaning, SchemaEntries, GoodEntries, Block;
    match d {
      case ScalarDef(name) =>
        BeforeCons(N("scalar"), [N(name)], c);
        NameEndsType(name, [], c);
        BeforeNone(c);
        assert [N(name)] + [] == [N(name)];
      case SchemaDef(entries) =>
        BeforeCons(N("schema"), Block(EntriesTokens(entries)), c);
        BlockOpens(EntriesTokens(entries), c);
        EntriesParsed(entries, m.schema.(description := description), c);
    }
  }

  lemma DefParsed(d: DefSrc, description: string, m: Model, c: Cursor)
    requires GoodDef(d)
    ensures (var b := Before(DefTokens(d), c);
             b.rest != [] && b.AtKind(Name) && !b.At("extend")
               && ParseDefinition(b, m, description) == (DefMeaning(d, description, m), c))
  {
    hide GoodDef, ParseDefinition, DefMeaning, DefTokens;
    match d {
      case ScalarDef(_) => OtherDefParsed(d, description, m, c);
      case SchemaDef(_) => OtherDefParsed(d, description, m, c);
      case _ => BlockDefParsed(d, description, m, c);
    }
  }

  // ---------------------------------------------------------------- documents

  lemma DefStep(d: DefSrc, description: string, m: Model, c: Cursor)
    requires GoodDef(d)
    ensures ParseDocument(Before(DefTokens(d), c), m, description)
         == ParseDocument(c, DefMeaning(d, description, m), "")
  {
    hide GoodDef, ParseDefinition, DefMeaning, DefTokens;
    DefParsed(d, description, m, c);
  }

  lemma DescribedStep(d: Described, m: Model, c: Cursor)
    requires GoodDef(d.def)
    ensures ParseDocument(Before(DescriptionTokens(d.description) + DefTokens(d.def), c), m, "")
         == ParseDocument(c, DefMeaning(d.def, DescriptionText(d.description), m), "")
  {
    hide GoodDef, ParseDefinition, DefMeaning, DefTokens, TrimSpace;
    DefStep(d.def, DescriptionText(d.description), m, c);
    if d.description.None? {
      assert DescriptionTokens(d.description) + DefTokens(d.def) == DefTokens(d.def);
    } else {
      BeforeCons(S(d.description.value), DefTokens(d.def), c);
    }
  }

  lemma {:induction false} DocumentParsed(ds: seq<Described>, m: Model)
    requires GoodDocument(ds)
    ensures ParseDocument(Cursor(DocumentTokens(ds), false), m, "") == (DocumentMeaning(ds, m), Cursor([], false))
    decreases |ds|
  {
    hide GoodDef, DefMeaning, DefTokens, DescriptionTokens, DescriptionText;
    if ds != [] {
      var rest := Cursor(DocumentTokens(ds[1..]), false);
      var head := DescriptionTokens(ds[0].description) + DefTokens(ds[0].def);
      assert DocumentTokens(ds) == head + DocumentTokens(ds[1..]);
      DescribedStep(ds[0], m, rest);
      DocumentStarts(ds, m);
      DocumentParsed(ds[1..], DefMeaning(ds[0].def, DescriptionText(ds[0].description), m));
    }
  }

  lemma DocumentStarts(ds: seq<Described>, m: Model)
    requires ds != []
    ensures DocumentMeaning(ds, m)
         == DocumentMeaning(ds[1..], DefMeaning(ds[0].def, DescriptionText(ds[0].description), m))
  {
    hide DefMeaning;
  }

  // ---------------------------------------------------------------- distinct names

  ghost predicate DistinctNames(types: seq<Type>) {
    forall i, j :: 0 <= i < j < |types| ==> types[i].name != types[j].name
  }

  lemma {:induction false} MergeNew(types: seq<Type>, t: Type)
    requires forall u <- types :: u.name != t.name
    ensures MergeInto(types, t) == types + [t]
  {
    hide Merged;
    if types != [] {
      MergeNew(types[1..], t);
    }
  }

  /** Distinctly named types are not merged. */
  lemma {:induction false} CompactKeeps(types: seq<Type>)
    requires DistinctNames(types) && forall t <- types :: TrimSpace(t.name) != ""
    ensures CompactTypes(types) == types
    decreases |types|
  {
    hide TrimSpace, MergeInto;
    if types != [] {
      var before, t := types[..|types| - 1], types[|types| - 1];
      assert types == before + [t];
      CompactKeeps(before);
      forall u <- before ensures u.name != t.name {
        var i :| 0 <= i < |before| && before[i] == u;
        assert types[i] == u;
      }
      MergeNew(before, t);
    }
  }

  /** parseGraphQLText */
  function ParseGraphQLText(input: string): Outcome {
    match Lex(input, Start)
    case None => Refused
    case Some(tokens) => ParseTokens(tokens)
  }

  lemma TypesNamed(ds: seq<Described>, m: Model)
    requires GoodDocument(ds) && forall t <- m.types :: TrimSpace(t.name) != ""
    ensures forall t <- DocumentMeaning(ds, m).types :: TrimSpace(t.name) != ""
    ensures DocumentMeaning(ds, m).operations == m.operations
    decreases |ds|
  {
    hide TrimSpace, IsName, FieldsMeaning, InputsMeaning, ValuesMeaning, EntriesMeaning, GoodFields, GoodInputs,
         GoodValues, GoodEntries;
    if ds != [] {
      var n := DefMeaning(ds[0].def, DescriptionText(ds[0].description), m);
      DefNamed(ds[0].def, DescriptionText(ds[0].description), m);
      TypesNamed(ds[1..], n);
    }
  }

  lemma DefNamed(d: DefSrc, description: string, m: Model)
    requires GoodDef(d) && forall t <- m.types :: TrimSpace(t.name) != ""
    ensures (var n := DefMeaning(d, description, m);
             n.operations == m.operations && forall t <- n.types :: TrimSpace(t.name) != "")
  {
    hide TrimSpace, IsName, FieldsMeaning, InputsMeaning, ValuesMeaning, EntriesMeaning, GoodFields, GoodInputs,
         GoodValues, GoodEntries;
    match d {
      case ObjectDef(_, name, _) => NamePlain(name);
      case InputDef(name, _) => NamePlain(name);
      case EnumDef(name, _) => NamePlain(name);
      case ScalarDef(name) => NamePlain(name);
      case SchemaDef(_) =>
    }
  }

  // ---------------------------------------------------------------- the lexer knows the tokens

  lemma PrintableJoin(a: seq<Token>, b: seq<Token>)
    requires AllPrintable(a) && AllPrintable(b)
    ensures AllPrintable(a + b)
  {
    hide Printable;
  }

  lemma PrintableNames(name: string, text: string)
    ensures IsName(name) ==> AllPrintable([N(name)])
    ensures AllPrintable([S(text)]) && AllPrintable([])
  {
  }

  /** The punctuation of the grammar, and its keywords. */
  lemma PrintablePunct(p: string, keyword: string)
    ensures p in {"!", "(", ")", ":", "[", "]", "{", "}"} ==> AllPrintable([P(p)])
    ensures keyword in {"type", "interface", "input", "enum", "scalar", "schema"} ==> AllPrintable([N(keyword)])
  {
  }

  lemma {:induction false} TypePrintable(t: TypeExpr)
    requires GoodType(t)
    ensures AllPrintable(TypeTokens(t))
  {
    hide AllPrintable, IsName;
    match t {
      case Named(name) => PrintableNames(name, "");
      case ListOf(of) =>
        TypePrintable(of);
        PrintablePunct("[", "");
        PrintablePunct("]", "");
        PrintableJoin(TypeTokens(of), [P("]")]);
        PrintableJoin([P("[")], TypeTokens(of) + [P("]")]);
      case NonNull(of) =>
        TypePrintable(of);
        PrintablePunct("!", "");
        PrintableJoin(TypeTokens(of), [P("!")]);
    }
  }

  lemma TypedPrintable(name: string, t: TypeExpr)
    requires IsName(name) && GoodType(t)
    ensures AllPrintable([N(name)]) && AllPrintable([P(":")] + TypeTokens(t))
            && AllPrintable([N(name)] + ([P(":")] + TypeTokens(t)))
  {
    hide AllPrintable, IsName, GoodType;
    PrintableNames(name, "");
    PrintablePunct(":", "");
    TypePrintable(t);
    PrintableJoin([P(":")], TypeTokens(t));
    PrintableJoin([N(name)], [P(":")] + TypeTokens(t));
  }

  lemma DescriptionPrintable(d: Option<string>)
    ensures AllPrintable(DescriptionTokens(d))
  {
  }

  lemma {:induction false} ArgsPrintable(args: seq<ArgSrc>)
    requires GoodArgs(args)
    ensures AllPrintable(ArgsTokens(args))
  {
    hide AllPrintable, IsName, GoodType;
    PrintableNames("", "");
    if args != [] {
      TypedPrintable(args[0].name, args[0].typ);
      ArgsPrintable(args[1..]);
      PrintableJoin(ArgTokens(args[0]), ArgsTokens(args[1..]));
    }
  }

  lemma FieldPrintable(f: FieldSrc)
    requires GoodField(f)
    ensures AllPrintable(FieldTokens(f))
  {
    hide AllPrintable, IsName, GoodType, GoodArgs, DescriptionTokens;
    DescriptionPrintable(f.description);
    TypedPrintable(f.name, f.typ);
    PrintableNames("", "");
    PrintablePunct("(", "");
    PrintablePunct(")", "");
    ArgsPrintable(f.args);
    PrintableJoin(ArgsTokens(f.args), [P(")")]);
    PrintableJoin([P("(")], ArgsTokens(f.args) + [P(")")]);
    var args := if f.args == [] then [] else [P("(")] + (ArgsTokens(f.args) + [P(")")]);
    PrintableJoin(args, [P(":")] + TypeTokens(f.typ));
    PrintableJoin([N(f.name)], args + ([P(":")] + TypeTokens(f.typ)));
    PrintableJoin(DescriptionTokens(f.description), [N(f.name)] + (args + ([P(":")] + TypeTokens(f.typ))));
  }

  lemma {:induction false} FieldsPrintable(fs: seq<FieldSrc>)
    requires GoodFields(fs)
    ensures AllPrintable(FieldsTokens(fs))
  {
    hide AllPrintable, GoodField, FieldTokens;
    PrintableNames("", "");
    if fs != [] {
      FieldPrintable(fs[0]);
      FieldsPrintable(fs[1..]);
      PrintableJoin(FieldTokens(fs[0]), FieldsTokens(fs[1..]));
    }
  }

  lemma {:induction false} InputsPrintable(xs: seq<InputSrc>)
    requires GoodInputs(xs)
    ensures AllPrintable(InputsTokens(xs))
  {
    hide AllPrintable, IsName, GoodType, DescriptionTokens;
    PrintableNames("", "");
    if xs != [] {
      DescriptionPrintable(xs[0].description);
      TypedPrintable(xs[0].name, xs[0].typ);
      InputsPrintable(xs[1..]);
      PrintableJoin(DescriptionTokens(xs[0].description), [N(xs[0].name)] + ([P(":")] + TypeTokens(xs[0].typ)));
      PrintableJoin(InputTokens(xs[0]), InputsTokens(xs[1..]));
    }
  }

  lemma {:induction false} ValuesPrintable(vs: seq<ValueSrc>)
    requires GoodValues(vs)
    ensures AllPrintable(ValuesTokens(vs))
  {
    hide AllPrintable, IsName, DescriptionTokens;
    PrintableNames("", "");
    if vs != [] {
      DescriptionPrintable(vs[0].description);
      PrintableNames(vs[0].name, "");
      ValuesPrintable(vs[1..]);
      PrintableJoin(DescriptionTokens(vs[0].description), [N(vs[0].name)]);
      PrintableJoin(ValueTokens(vs[0]), ValuesTokens(vs[1..]));
    }
  }

  lemma {:induction false} EntriesPrintable(es: seq<(string, string)>)
    requires GoodEntries(es)
    ensures AllPrintable(EntriesTokens(es))
  {
    hide AllPrintable, IsName;
    PrintableNames("", "");
    if es != [] {
      PrintableNames(es[0].0, "");
      PrintableNames(es[0].1, "");
      PrintablePunct(":", "");
      EntriesPrintable(es[1..]);
      PrintableJoin([P(":")], [N(es[0].1)]);
      PrintableJoin([N(es[0].0)], [P(":")] + [N(es[0].1)]);
      PrintableJoin(EntryTokens(es[0]), EntriesTokens(es[1..]));
    }
  }

  lemma BlockPrintable(body: seq<Token>)
    requires AllPrintable(body)
    ensures AllPrintable(Block(body))
  {
    hide AllPrintable;
    PrintablePunct("{", "");
    PrintablePunct("}", "");
    PrintableJoin(body, [P("}")]);
    PrintableJoin([P("{")], body + [P("}")]);
  }

  lemma NamedBlockPrintable(keyword: string, name: string, body: seq<Token>)
    requires keyword in {"type", "interface", "input", "enum"} && IsName(name) && AllPrintable(body)
    ensures AllPrintable([N(keyword)] + ([N(name)] + Block(body)))
  {
    hide AllPrintable, IsName, Block;
    PrintablePunct("", keyword);
    PrintableNames(name, "");
    BlockPrintable(body);
    PrintableJoin([N(name)], Block(body));
    PrintableJoin([N(keyword)], [N(name)] + Block(body));
  }

  lemma DefPrintable(d: DefSrc)
    requires GoodDef(d)
    ensures AllPrintable(DefTokens(d))
  {
    hide AllPrintable, IsName, Block, GoodFields, GoodInputs, GoodValues, GoodEntries, FieldsTokens, InputsTokens,
         ValuesTokens, EntriesTokens;
    match d {
      case ObjectDef(keyword, name, fields) =>
        FieldsPrintable(fields);
        NamedBlockPrintable(keyword, name, FieldsTokens(fields));
      case InputDef(name, inputs) =>
        InputsPrintable(inputs);
        NamedBlockPrintable("input", name, InputsTokens(inputs));
      case EnumDef(name, values) =>
        ValuesPrintable(values);
        NamedBlockPrintable("enum", name, ValuesTokens(values));
      case ScalarDef(name) =>
        PrintablePunct("", "scalar");
        PrintableNames(name, "");
        PrintableJoin([N("scalar")], [N(name)]);
      case SchemaDef(entries) =>
        PrintablePunct("", "schema");
        EntriesPrintable(entries);
        BlockPrintable(EntriesTokens(entries));
        PrintableJoin([N("schema")], Block(EntriesTokens(entries)));
    }
  }

  lemma {:induction false} DocumentPrintable(ds: seq<Described>)
    requires GoodDocument(ds)
    ensures AllPrintable(DocumentTokens(ds))
    decreases |ds|
  {
    hide AllPrintable, GoodDef, DefTokens, DescriptionTokens;
    PrintableNames("", "");
    if ds != [] {
      DescriptionPrintable(ds[0].description);
      DefPrintable(ds[0].def);
      DocumentPrintable(ds[1..]);
      PrintableJoin(DefTokens(ds[0].def), DocumentTokens(ds[1..]));
      PrintableJoin(DescriptionTokens(ds[0].description), DefTokens(ds[0].def) + DocumentTokens(ds[1..]));
    }
  }

  /** Printing a canonical schema of distinctly named definitions, lexing and parsing it
      returns the same types, sorted by name, exactly when its tokens stay within the limits
      of the lexer; it is also refused when it defines no type. */
  lemma SchemaRoundTrip(ds: seq<Described>)
    requires GoodDocument(ds) && DistinctNames(DocumentMeaning(ds, NewModel).types)
    ensures (var m := DocumentMeaning(ds, NewModel);
             var r := ParseGraphQLText(Render(DocumentTokens(ds)));
             if Admitted(DocumentTokens(ds), Start) && m.types != []
             then r == Parsed(Finish(m)) && r.model.types == Ordering.SortBy(TypeKey, m.types)
             else r == Refused)
  {
    hide Lex, Render, DocumentTokens, DocumentMeaning, GoodDocument, ParseDocument, Admitted, AllPrintable,
         CompactTypes, Operations, NamedRoots, Ordering.SortBy, DistinctNames, TrimSpace;
    var m := DocumentMeaning(ds, NewModel);
    DocumentPrintable(ds);
    LexRendered(DocumentTokens(ds), Start);
    DocumentParsed(ds, NewModel);
    TypesNamed(ds, NewModel);
    CompactKeeps(m.types);
    NoOperations();
    if DocumentTokens(ds) == [] {
      EmptyDocument(ds);
    }
  }

  lemma NoOperations()
    ensures Compact([]) == []
  {
  }

  lemma EmptyDocument(ds: seq<Described>)
    ensures DocumentTokens(ds) == [] ==> DocumentMeaning(ds, NewModel).types == []
  {
    assert forall d: DefSrc :: |DefTokens(d)| > 0;
  }
}
