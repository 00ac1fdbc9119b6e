/** Parsing the tokens of a canonical proto file returns the metadata it stands for. */
module ProtoTextProofs {
  import opened Lexing
  import opened ProtoModel
  import opened ProtoSource
  import opened ProtoTextSpec
  import opened Text
  import opened Tokens
  import opened Wrappers

  // ---------------------------------------------------------------- numbers and names

  lemma {:induction false} DecimalValue(n: nat)
    ensures IsDigits(Decimal(n)) && DigitsValue(Decimal(n)) == n
  {
    var d := Decimal(n);
    assert forall i :: 0 <= i < |d| ==> d[i] in d;
    if n >= 10 {
      DecimalValue(n / 10);
      assert d[..|d| - 1] == Decimal(n / 10);
    } else {
      assert d[..|d| - 1] == "";
    }
  }

  lemma AtoiDecimal(n: nat)
    ensures Atoi(Decimal(n)) == Saturated(n)
  {
    hide Decimal;
    DecimalValue(n);
  }

  lemma NameTrimmed(s: string)
    requires IsName(s)
    ensures s != "" && !IsSpace(s[0]) && !IsSpace(s[|s| - 1]) && s[0] != '.' && s[|s| - 1] != '.'
  {
    assert NameContinue(s[|s| - 1]);
  }

  lemma {:induction false} JoinTrimmed(path: seq<string>)
    requires path != [] && forall i :: 0 <= i < |path| ==> IsName(path[i])
    ensures path[0] != ""
    ensures (var s := Join(path, ".");
             s != "" && s[0] == path[0][0] && s[0] != '.' && !IsSpace(s[0]) && !IsSpace(s[|s| - 1]))
  {
    hide IsName;
    NameTrimmed(path[0]);
    if |path| > 1 {
      JoinTrimmed(path[1..]);
      var rest := Join(path[1..], ".");
      assert Join(path, ".") == path[0] + "." + rest;
    }
  }

  /** A leading dot makes no difference to a type name. */
  lemma TypeNormalized(t: TypeSrc)
    requires GoodType(t)
    ensures NormalizeTypeName((if t.absolute then "." else "") + TypeText(t)) == TypeText(t) != ""
  {
    hide TrimSpace, Join;
    JoinTrimmed(t.path);
    var s := TypeText(t);
    TrimSpaceFixes(s);
    TrimSpaceFixes("." + s);
    assert ("." + s)[1..] == s;
    assert "" + s == s;
  }

  lemma {:induction false} PathParsed(path: seq<string>, c: Cursor)
    requires path != [] && (forall i :: 0 <= i < |path| ==> path[i] != "") && !c.At(".")
    ensures Parts(Before(PathTokens(path), c)) == (path, c)
  {
    if |path| == 1 {
      BeforeOne(N(path[0]), c);
      assert path == [path[0]];
    } else {
      BeforeCons(N(path[0]), [P(".")] + PathTokens(path[1..]), c);
      BeforeCons(P("."), PathTokens(path[1..]), c);
      PathParsed(path[1..], c);
      assert path == [path[0]] + path[1..];
    }
  }

  lemma TypeParsed(t: TypeSrc, c: Cursor)
    requires GoodType(t) && !c.At(".")
    ensures QualifiedName(Before(TypeTokens(t), c)) == ((if t.absolute then "." else "") + TypeText(t), c)
  {
    hide PathTokens, Parts, Join;
    forall i | 0 <= i < |t.path| ensures t.path[i] != "" {
      assert IsName(t.path[i]);
    }
    PathParsed(t.path, c);
    JoinTrimmed(t.path);
    PathFirst(t.path, c);
    if t.absolute {
      BeforeCons(P("."), PathTokens(t.path), c);
    } else {
      assert TypeTokens(t) == PathTokens(t.path);
      NotDot(t.path[0]);
      assert "" + TypeText(t) == TypeText(t);
    }
  }

  lemma NotDot(s: string)
    requires IsName(s)
    ensures s != "." && s != "{" && s != "}" && s != ";" && s != "(" && s != ")" && s != "=" && s != "[" && s != "<"
  {
  }

  lemma PathFirst(path: seq<string>, c: Cursor)
    requires path != []
    ensures (var b := Before(PathTokens(path), c); b.rest != [] && b.rest[0] == N(path[0]))
  {
  }

  /** The first token of a type. */
  lemma TypeFirst(t: TypeSrc, c: Cursor)
    requires t.path != []
    ensures (var b := Before(TypeTokens(t), c);
             b.rest != [] && b.rest[0] == if t.absolute then P(".") else N(t.path[0]))
  {
    hide PathTokens;
    PathFirst(t.path, c);
    assert !t.absolute ==> TypeTokens(t) == PathTokens(t.path);
  }

  // ---------------------------------------------------------------- statements

  lemma {:induction false} StatementSkipped(tokens: seq<Token>, c: Cursor)
    requires Plain(tokens)
    ensures SkipStatement(Before(SkippedTokens(tokens), c)) == c
  {
    if tokens == [] {
      BeforeOne(P(";"), c);
      assert SkippedTokens(tokens) == [P(";")];
    } else {
      assert tokens[0].value !in {";", "{", "}"};
      BeforeCons(tokens[0], SkippedTokens(tokens[1..]), c);
      assert SkippedTokens(tokens) == [tokens[0]] + SkippedTokens(tokens[1..]);
      StatementSkipped(tokens[1..], c);
    }
  }

  /** A skipped statement begins with its own first token, or its semicolon. */
  lemma SkippedFirst(tokens: seq<Token>, c: Cursor)
    requires Plain(tokens)
    ensures (var b := Before(SkippedTokens(tokens), c);
             && b.rest != [] && b.rest[0] == (if tokens == [] then P(";") else tokens[0])
             && !b.At("{") && !b.At("}") && SkipStatementOrBlock(b) == c)
  {
    hide SkipStatement;
    StatementSkipped(tokens, c);
    if tokens != [] {
      assert tokens[0].value !in {";", "{", "}"};
    }
  }

  lemma SemicolonSkipped(c: Cursor)
    ensures SkipStatement(Before([P(";")], c)) == c
  {
    StatementSkipped([], c);
    assert SkippedTokens([]) == [P(";")];
  }

  // ---------------------------------------------------------------- fields

  lemma OptionsSkipped(options: Option<seq<Token>>, c: Cursor)
    requires GoodOptions(options) && !c.At("[")
    ensures SkipBalanced(Before(OptionTokens(options), c), "[", "]") == c
  {
    hide Close;
    if options.None? {
      BeforeNone(c);
    } else {
      SkipsBlock(options.value, "[", "]", P("["), P("]"), c);
    }
  }

  lemma NumberedParsed(name: string, number: nat, options: Option<seq<Token>>, cardinality: string, typ: string,
                       c: Cursor)
    requires name != "" && GoodOptions(options)
    ensures FieldEnd(Before(NumberedTokens(name, number, options), c), cardinality, typ)
         == (Some(FieldOf(name, Saturated(number), cardinality, typ)), c)
  {
    hide SkipStatement, SkipBalanced, Atoi, Decimal, Saturated, FieldOf, GoodOptions, OptionTokens;
    var end := [P(";")];
    BeforeCons(N(name), [P("=")] + ([Num(number)] + (OptionTokens(options) + end)), c);
    BeforeCons(P("="), [Num(number)] + (OptionTokens(options) + end), c);
    BeforeCons(Num(number), OptionTokens(options) + end, c);
    BeforeJoin(OptionTokens(options), end, c);
    BeforeOne(P(";"), c);
    OptionsSkipped(options, Before(end, c));
    SemicolonSkipped(c);
    AtoiDecimal(number);
  }

  lemma NumberedFirst(name: string, number: nat, options: Option<seq<Token>>, c: Cursor)
    requires IsName(name)
    ensures (var b := Before(NumberedTokens(name, number, options), c); !b.At(".") && !b.At("<"))
  {
    hide OptionTokens, Decimal;
    NotDot(name);
    BeforeCons(N(name), [P("=")] + ([Num(number)] + (OptionTokens(options) + [P(";")])), c);
  }

  lemma FieldTypeParsed(t: TypeSrc, c: Cursor)
    requires GoodType(t) && !c.At(".") && (t.absolute || t.path[0] != "map")
    ensures FieldType(Before(TypeTokens(t), c)) == (TypeText(t), c) && TypeText(t) != ""
  {
    hide TypeTokens, QualifiedName, GoodType, NormalizeTypeName, TypeText;
    GoodTypeNamed(t);
    TypeParsed(t, c);
    TypeNormalized(t);
    TypeFirst(t, c);
  }

  lemma GoodTypeNamed(t: TypeSrc)
    requires GoodType(t)
    ensures t.path != [] && IsName(t.path[0])
  {
  }

  /** A field is parsed as it stands, and starts no other statement. */
  lemma FieldParsed(f: FieldSrc, c: Cursor)
    requires GoodField(f)
    ensures ParseField(Before(FieldTokens(f), c)) == (Some(FieldMeaning(f)), c)
  {
    hide TypeTokens, NumberedTokens, FieldType, FieldEnd, GoodType, GoodOptions, IsName, TypeText, FieldOf;
    match f {
      case FieldSrc(cardinality, typ, name, number, options) =>
        var rest := NumberedTokens(name, number, options);
        var after := Before(rest, c);
        GoodNameNotEmpty(name);
        GoodTypeNamed(typ);
        NumberedFirst(name, number, options, c);
        BeforeJoin(TypeTokens(typ), rest, c);
        FieldTypeParsed(typ, after);
        TypeFirst(typ, after);
        NumberedParsed(name, number, options, cardinality, TypeText(typ), c);
        if cardinality == "" {
          assert FieldTokens(f) == TypeTokens(typ) + rest;
        } else {
          BeforeCons(N(cardinality), TypeTokens(typ) + rest, c);
        }
      case MapSrc(types, name, number, options) =>
        var rest := NumberedTokens(name, number, options);
        var block := [P("<")] + types + [P(">")];
        GoodNameNotEmpty(name);
        BeforeCons(N("map"), block + rest, c);
        BeforeJoin(block, rest, c);
        MapTypeParsed(types, block + rest, Before(rest, c), c);
        NumberedParsed(name, number, options, "", "map", c);
    }
  }

  lemma GoodNameNotEmpty(name: string)
    requires IsName(name)
    ensures name != ""
  {
  }

  lemma MapTypeParsed(types: seq<Token>, tokens: seq<Token>, after: Cursor, c: Cursor)
    requires Free(types, "<", ">")
    requires Before(tokens, c) == Before([P("<")] + types + [P(">")], after)
    ensures FieldType(Before([N("map")] + tokens, c)) == ("map", after)
  {
    hide SkipBalanced;
    BeforeCons(N("map"), tokens, c);
    SkipsBlock(types, "<", ">", P("<"), P(">"), after);
  }

  lemma FieldFirst(f: FieldSrc, c: Cursor)
    requires GoodField(f)
    ensures (var b := Before(FieldTokens(f), c);
             b.rest != [] && !b.At("}") && forall k :: k in BODY_KEYWORDS ==> !b.At(k))
  {
    hide TypeTokens, NumberedTokens, GoodOptions, GoodType, IsName;
    match f {
      case FieldSrc(cardinality, typ, name, number, options) =>
        var rest := NumberedTokens(name, number, options);
        GoodTypeNamed(typ);
        NotDot(typ.path[0]);
        BeforeJoin(TypeTokens(typ), rest, c);
        TypeFirst(typ, Before(rest, c));
        if cardinality == "" {
          assert FieldTokens(f) == TypeTokens(typ) + rest;
        } else {
          BeforeCons(N(cardinality), TypeTokens(typ) + rest, c);
        }
      case MapSrc(types, name, number, options) =>
        BeforeCons(N("map"), ([P("<")] + types + [P(">")]) + NumberedTokens(name, number, options), c);
    }
  }

  lemma {:induction false} OneofParsed(fs: seq<FieldSrc>, fields: seq<Field>, c: Cursor)
    requires GoodFields(fs)
    ensures OneofBody(Before(FieldsTokens(fs) + [P("}")], c), fields) == (fields + FieldsMeaning(fs), c)
  {
    hide GoodField, FieldTokens, ParseField, FieldMeaning;
    if fs == [] {
      BeforeOne(P("}"), c);
      assert FieldsTokens(fs) + [P("}")] == [P("}")];
      assert fields + [] == fields;
    } else {
      var rest := FieldsTokens(fs[1..]) + [P("}")];
      assert FieldsTokens(fs) + [P("}")] == FieldTokens(fs[0]) + rest;
      BeforeJoin(FieldTokens(fs[0]), rest, c);
      FieldParsed(fs[0], Before(rest, c));
      FieldFirst(fs[0], Before(rest, c));
      OneofParsed(fs[1..], fields + [FieldMeaning(fs[0])], c);
      assert (fields + [FieldMeaning(fs[0])]) + FieldsMeaning(fs[1..])
          == fields + ([FieldMeaning(fs[0])] + FieldsMeaning(fs[1..]));
    }
  }

  // ---------------------------------------------------------------- enums

  lemma ValueParsed(v: ValueSrc, tail: seq<Token>, e: Enum, c: Cursor)
    requires GoodValue(v)
    ensures (var b := Before(ValueTokens(v) + tail, c);
             EnumBody(b, e) == EnumBody(Before(tail, c), e.(values := e.values + ValueMeaning(v))))
  {
    hide SkipStatementOrBlock, IsName, Plain, SkippedTokens, SkipStatement;
    BeforeJoin(ValueTokens(v), tail, c);
    var end := Before(tail, c);
    match v {
      case ValueSrc(name, number) =>
        NumberParsed(name, number, end, e);
      case ValueSkip(keyword, tokens) =>
        KeywordPlain(keyword, tokens);
        SkippedFirst([N(keyword)] + tokens, end);
        assert e.(values := e.values + []) == e;
    }
  }

  lemma NumberParsed(name: string, number: int, c: Cursor, e: Enum)
    requires IsName(name) && name !in {"option", "reserved"}
    ensures (var v := ValueSrc(name, number);
             EnumBody(Before(ValueTokens(v), c), e) == EnumBody(c, e.(values := e.values + ValueMeaning(v))))
  {
    hide EnumBody, Before, Decimal, IsName, Saturated;
    if number < 0 {
      NegativeParsed(name, -number, c, e);
    } else {
      PlainParsed(name, number, c, e);
    }
  }

  lemma NegativeParsed(name: string, n: nat, c: Cursor, e: Enum)
    requires IsName(name) && name !in {"option", "reserved"}
    ensures (var tail := [P("-")] + ([Num(n)] + [P(";")]);
             EnumBody(Before([N(name)] + ([P("=")] + tail), c), e)
             == EnumBody(c, e.(values := e.values + [EnumValue(name, 0)])))
  {
    hide SkipStatement, IsName, Decimal, Atoi, Before, EnumBody;
    var tail := [P("-")] + ([Num(n)] + [P(";")]);
    ValueStart(name, tail, c, e);
    BeforeCons(P("-"), [Num(n)] + [P(";")], c);
    SignSkipped(n, c);
  }

  lemma PlainParsed(name: string, n: nat, c: Cursor, e: Enum)
    requires IsName(name) && name !in {"option", "reserved"}
    ensures EnumBody(Before([N(name)] + ([P("=")] + ([Num(n)] + [P(";")])), c), e)
         == EnumBody(c, e.(values := e.values + [EnumValue(name, Saturated(n))]))
  {
    hide SkipStatement, IsName, Decimal, Atoi, Before, EnumBody;
    ValueStart(name, [Num(n)] + [P(";")], c, e);
    BeforeCons(Num(n), [P(";")], c);
    SemicolonSkipped(c);
    AtoiDecimal(n);
  }

  /** A value up to its number. */
  lemma ValueStart(name: string, tail: seq<Token>, c: Cursor, e: Enum)
    requires IsName(name) && name !in {"option", "reserved"}
    ensures (var number := Before(tail, c);
             EnumBody(Before([N(name)] + ([P("=")] + tail), c), e)
             == EnumBody(SkipStatement(number.Next()),
                         e.(values := e.values
                              + [EnumValue(name, Atoi(if number.Done() then "" else number.rest[0].value))])))
  {
    hide SkipStatement, SkipStatementOrBlock, IsName, Atoi, Before;
    NotDot(name);
    GoodNameNotEmpty(name);
    BeforeCons(N(name), [P("=")] + tail, c);
    BeforeCons(P("="), tail, c);
  }

  lemma KeywordPlain(keyword: string, tokens: seq<Token>)
    requires Plain(tokens) && keyword !in {";", "{", "}"}
    ensures Plain([N(keyword)] + tokens)
  {
  }

  /** What follows a sign is skipped with the statement, and the sign itself is no number. */
  lemma SignSkipped(n: nat, c: Cursor)
    ensures SkipStatement(Before([Num(n)] + [P(";")], c)) == c && Atoi("-") == 0
  {
    hide Decimal;
    var d := Decimal(n);
    DecimalValue(n);
    assert d != ";" && d != "{" && d != "}" by { assert '0' <= d[0] <= '9'; }
    assert Plain([Num(n)]);
    StatementSkipped([Num(n)], c);
    assert "-"[0] == '-';
  }

  lemma {:induction false} ValuesParsed(vs: seq<ValueSrc>, e: Enum, c: Cursor)
    requires GoodValues(vs)
    ensures EnumBody(Before(ValuesTokens(vs) + [P("}")], c), e) == (e.(values := e.values + ValuesMeaning(vs)), c)
    decreases |vs|
  {
    hide GoodValue, ValueTokens, ValueMeaning, EnumBody, Before;
    if vs == [] {
      ValuesEnd(e, c);
      assert ValuesTokens(vs) + [P("}")] == [P("}")];
      assert e.values + [] == e.values;
    } else {
      var rest := ValuesTokens(vs[1..]) + [P("}")];
      assert ValuesTokens(vs) + [P("}")] == ValueTokens(vs[0]) + rest;
      var e' := e.(values := e.values + ValueMeaning(vs[0]));
      ValueParsed(vs[0], rest, e, c);
      ValuesParsed(vs[1..], e', c);
      assert e'.values + ValuesMeaning(vs[1..]) == e.values + ValuesMeaning(vs);
    }
  }

  lemma ValuesEnd(e: Enum, c: Cursor)
    ensures EnumBody(Before([P("}")], c), e) == (e, c)
  {
    BeforeOne(P("}"), c);
  }

  /** A block opened after a name. */
  lemma NamedBlock(name: string, body: seq<Token>, c: Cursor)
    requires IsName(name)
    ensures (var b := Before([N(name)] + ([P("{")] + body), c);
             b.NameHere() == name != "" && b.AfterName().At("{") && b.AfterName().Next() == Before(body, c))
  {
    BeforeCons(N(name), [P("{")] + body, c);
    BeforeCons(P("{"), body, c);
  }

  lemma EnumParsed(e: EnumSrc, pkg: string, parent: string, c: Cursor)
    requires GoodEnum(e)
    ensures ParseEnum(Before(EnumTokens(e), c), pkg, parent) == (Some(EnumMeaning(e, pkg, parent)), c)
  {
    hide IsName, EnumBody, GoodValues, ValuesTokens, JoinName;
    NamedBlock(e.name, ValuesTokens(e.items) + [P("}")], c);
    var start := Enum(e.name, JoinName(pkg, JoinName(parent, e.name)), []);
    ValuesParsed(e.items, start, c);
    assert [] + ValuesMeaning(e.items) == ValuesMeaning(e.items);
  }

  // ---------------------------------------------------------------- messages

  function WithItem(m: Message, i: BodySrc, pkg: string, path: string): Message {
    m.(fields := m.fields + ItemFields(i), messages := m.messages + ItemMessages(i, pkg, path),
       enums := m.enums + ItemEnums(i, pkg, path))
  }

  /** One statement of a message body other than a nested message. */
  lemma ItemParsed(i: BodySrc, tail: seq<Token>, m: Message, pkg: string, path: string, depth: nat, c: Cursor)
    requires GoodItem(i, depth + 1) && !i.NestedItem?
    ensures MessageBody(Before(ItemTokens(i) + tail, c), m, pkg, path, depth)
         == MessageBody(Before(tail, c), WithItem(m, i, pkg, path), pkg, path, depth)
  {
    hide FieldTokens, EnumTokens, ParseField, ParseEnum, ParseOneof, SkipStatementOrBlock, GoodField, GoodEnum,
         GoodFields, FieldMeaning, EnumMeaning, FieldsMeaning, Plain, SkippedTokens, FieldsTokens;
    BeforeJoin(ItemTokens(i), tail, c);
    var end := Before(tail, c);
    assert m.fields + [] == m.fields && m.messages + [] == m.messages && m.enums + [] == m.enums;
    match i {
      case FieldItem(f) =>
        FieldParsed(f, end);
        FieldFirst(f, end);
      case OneofItem(name, fields) =>
        OneofItemParsed(name, fields, end);
      case EnumItem(e) =>
        BeforeCons(N("enum"), EnumTokens(e), end);
        EnumParsed(e, pkg, path, end);
      case BodySkip(keyword, tokens) =>
        KeywordPlain(keyword, tokens);
        SkippedFirst([N(keyword)] + tokens, end);
    }
  }

  lemma OneofItemParsed(name: string, fields: seq<FieldSrc>, c: Cursor)
    requires IsName(name) && GoodFields(fields)
    ensures (var b := Before(ItemTokens(OneofItem(name, fields)), c);
             b.At("oneof") && ParseOneof(b.Next()) == (FieldsMeaning(fields), c))
  {
    hide IsName, GoodFields, FieldsTokens, OneofBody, FieldsMeaning;
    var body := FieldsTokens(fields) + [P("}")];
    BeforeCons(N("oneof"), [N(name)] + ([P("{")] + body), c);
    NamedBlock(name, body, c);
    OneofParsed(fields, [], c);
    assert [] + FieldsMeaning(fields) == FieldsMeaning(fields);
  }

  lemma WithItems(m: Message, i: BodySrc, rest: seq<BodySrc>, pkg: string, path: string)
    ensures (var n := WithItem(m, i, pkg, path);
             n.(fields := n.fields + ItemsFields(rest), messages := n.messages + ItemsMessages(rest, pkg, path),
                enums := n.enums + ItemsEnums(rest, pkg, path))
             == m.(fields := m.fields + ItemsFields([i] + rest),
                   messages := m.messages + ItemsMessages([i] + rest, pkg, path),
                   enums := m.enums + ItemsEnums([i] + rest, pkg, path)))
  {
    hide ItemFields, ItemMessages, ItemEnums;
    assert ([i] + rest)[1..] == rest;
    assert (m.fields + ItemFields(i)) + ItemsFields(rest) == m.fields + (ItemFields(i) + ItemsFields(rest));
    assert (m.messages + ItemMessages(i, pkg, path)) + ItemsMessages(rest, pkg, path)
        == m.messages + (ItemMessages(i, pkg, path) + ItemsMessages(rest, pkg, path));
    assert (m.enums + ItemEnums(i, pkg, path)) + ItemsEnums(rest, pkg, path)
        == m.enums + (ItemEnums(i, pkg, path) + ItemsEnums(rest, pkg, path));
  }

  lemma NestedParsed(n: MessageSrc, tail: seq<Token>, m: Message, pkg: string, path: string, depth: nat, c: Cursor)
    requires ParseMessage(Before(MessageTokens(n), Before(tail, c)), pkg, path, depth + 1)
          == (Some(MessageMeaning(n, pkg, path)), Before(tail, c))
    ensures MessageBody(Before(ItemTokens(NestedItem(n)) + tail, c), m, pkg, path, depth)
         == MessageBody(Before(tail, c), WithItem(m, NestedItem(n), pkg, path), pkg, path, depth)
  {
    hide MessageTokens, ParseMessage, MessageMeaning;
    BeforeJoin(ItemTokens(NestedItem(n)), tail, c);
    BeforeCons(N("message"), MessageTokens(n), Before(tail, c));
    assert m.fields + [] == m.fields && m.enums + [] == m.enums;
  }

  lemma {:induction false} ItemsParsed(items: seq<BodySrc>, m: Message, pkg: string, path: string, depth: nat,
                                       c: Cursor)
    requires GoodItems(items, depth + 1)
    ensures MessageBody(Before(ItemsTokens(items) + [P("}")], c), m, pkg, path, depth)
         == (m.(fields := m.fields + ItemsFields(items), messages := m.messages + ItemsMessages(items, pkg, path),
                enums := m.enums + ItemsEnums(items, pkg, path)), c)
    decreases items
  {
    hide ItemTokens, MessageMeaning, ParseMessage, MessageTokens, WithItem, MessageBody, GoodItem;
    if items == [] {
      BodyEnds(m, pkg, path, depth, c);
      assert ItemsTokens(items) + [P("}")] == [P("}")];
      assert m.fields + [] == m.fields && m.messages + [] == m.messages && m.enums + [] == m.enums;
    } else {
      var rest := ItemsTokens(items[1..]) + [P("}")];
      assert ItemsTokens(items) + [P("}")] == ItemTokens(items[0]) + rest;
      AnyItemParsed(items[0], rest, m, pkg, path, depth, c);
      ItemsParsed(items[1..], WithItem(m, items[0], pkg, path), pkg, path, depth, c);
      WithItems(m, items[0], items[1..], pkg, path);
      assert [items[0]] + items[1..] == items;
    }
  }

  lemma {:induction false} AnyItemParsed(i: BodySrc, tail: seq<Token>, m: Message, pkg: string, path: string,
                                         depth: nat, c: Cursor)
    requires GoodItem(i, depth + 1)
    ensures MessageBody(Before(ItemTokens(i) + tail, c), m, pkg, path, depth)
         == MessageBody(Before(tail, c), WithItem(m, i, pkg, path), pkg, path, depth)
    decreases i
  {
    hide ItemTokens, MessageMeaning, ParseMessage, MessageTokens, WithItem, MessageBody, GoodMessage;
    match i {
      case NestedItem(n) =>
        MessageParsed(n, pkg, path, depth + 1, Before(tail, c));
        NestedParsed(n, tail, m, pkg, path, depth, c);
      case _ =>
        ItemParsed(i, tail, m, pkg, path, depth, c);
    }
  }

  lemma BodyEnds(m: Message, pkg: string, path: string, depth: nat, c: Cursor)
    ensures MessageBody(Before([P("}")], c), m, pkg, path, depth) == (m, c)
  {
    BeforeOne(P("}"), c);
  }

  /** A message of any nesting within the limit is parsed as it stands. */
  lemma {:induction false} MessageParsed(m: MessageSrc, pkg: string, parent: string, depth: nat, c: Cursor)
    requires GoodMessage(m, depth)
    ensures ParseMessage(Before(MessageTokens(m), c), pkg, parent, depth) == (Some(MessageMeaning(m, pkg, parent)), c)
    decreases m
  {
    hide IsName, ItemsTokens, MessageBody, JoinName, GoodItems;
    NamedBlock(m.name, ItemsTokens(m.items) + [P("}")], c);
    var path := JoinName(parent, m.name);
    ItemsParsed(m.items, Message(m.name, JoinName(pkg, path), [], [], []), pkg, path, depth, c);
    assert [] + ItemsFields(m.items) == ItemsFields(m.items);
    assert [] + ItemsMessages(m.items, pkg, path) == ItemsMessages(m.items, pkg, path);
    assert [] + ItemsEnums(m.items, pkg, path) == ItemsEnums(m.items, pkg, path);
  }

  // ---------------------------------------------------------------- services

  lemma SideParsed(streaming: bool, t: TypeSrc, c: Cursor)
    requires GoodSide(streaming, t)
    ensures (var b := Before(SideTokens(streaming, t), c);
             b.At("(") && ParseSide(b.Next()) == (streaming, TypeText(t), c))
  {
    hide TypeTokens, QualifiedName, GoodType, NormalizeTypeName, TypeText;
    var close := Before([P(")")], c);
    var inner := TypeTokens(t) + [P(")")];
    GoodTypeNamed(t);
    BeforeOne(P(")"), c);
    BeforeJoin(TypeTokens(t), [P(")")], c);
    TypeParsed(t, close);
    TypeNormalized(t);
    TypeFirst(t, close);
    if streaming {
      BeforeCons(P("("), [N("stream")] + inner, c);
      BeforeCons(N("stream"), inner, c);
    } else {
      BeforeCons(P("("), inner, c);
      assert [] + inner == inner;
    }
  }

  lemma CallEnd(body: Option<seq<Token>>, c: Cursor)
    requires body.Some? ==> Free(body.value, "{", "}")
    ensures (var b := Before(if body.None? then [P(";")] else [P("{")] + body.value + [P("}")], c);
             SkipStatementOrBlock(b) == c)
  {
    hide SkipStatement, SkipBalanced;
    if body.None? {
      BeforeOne(P(";"), c);
      SemicolonSkipped(c);
    } else {
      SkipsBlock(body.value, "{", "}", P("{"), P("}"), c);
      BeforeCons(P("{"), body.value + [P("}")], c);
      assert [P("{")] + body.value + [P("}")] == [P("{")] + (body.value + [P("}")]);
    }
  }

  lemma CallParsed(m: CallSrc, s: Service, c: Cursor)
    requires GoodCall(m) && m.CallSrc?
    ensures (var b := Before(CallTokens(m), c);
             b.At("rpc") && (var r := ParseCall(b.Next(), s);
                             r.0.Some? && [r.0.value] == CallMeaning(m, s.fullName, s.pkg) && r.1 == c))
  {
    hide SideTokens, ParseSide, GoodSide, IsName, SkipStatementOrBlock, TypeText;
    var end := if m.body.None? then [P(";")] else [P("{")] + m.body.value + [P("}")];
    var answer := SideTokens(m.serverStreaming, m.response) + end;
    var ask := SideTokens(m.clientStreaming, m.request) + ([N("returns")] + answer);
    GoodNameNotEmpty(m.name);
    BeforeCons(N("rpc"), [N(m.name)] + ask, c);
    BeforeCons(N(m.name), ask, c);
    BeforeJoin(SideTokens(m.clientStreaming, m.request), [N("returns")] + answer, c);
    SideParsed(m.clientStreaming, m.request, Before([N("returns")] + answer, c));
    BeforeCons(N("returns"), answer, c);
    BeforeJoin(SideTokens(m.serverStreaming, m.response), end, c);
    SideParsed(m.serverStreaming, m.response, Before(end, c));
    CallEnd(m.body, c);
  }

  lemma {:induction false} CallsParsed(ms: seq<CallSrc>, s: Service, c: Cursor)
    requires forall i :: 0 <= i < |ms| ==> GoodCall(ms[i])
    ensures ServiceBody(Before(CallsTokens(ms) + [P("}")], c), s)
         == (s.(methods := s.methods + CallsMeaning(ms, s.fullName, s.pkg)), c)
    decreases |ms|
  {
    hide GoodCall, CallTokens, CallMeaning, ParseCall, SkipStatementOrBlock;
    if ms == [] {
      BeforeOne(P("}"), c);
      assert CallsTokens(ms) + [P("}")] == [P("}")];
      assert s.methods + [] == s.methods;
    } else {
      var rest := CallsTokens(ms[1..]) + [P("}")];
      assert CallsTokens(ms) + [P("}")] == CallTokens(ms[0]) + rest;
      BeforeJoin(CallTokens(ms[0]), rest, c);
      CallStep(ms[0], s, Before(rest, c));
      var s' := s.(methods := s.methods + CallMeaning(ms[0], s.fullName, s.pkg));
      CallsParsed(ms[1..], s', c);
      assert (s.methods + CallMeaning(ms[0], s.fullName, s.pkg)) + CallsMeaning(ms[1..], s.fullName, s.pkg)
          == s.methods + (CallMeaning(ms[0], s.fullName, s.pkg) + CallsMeaning(ms[1..], s.fullName, s.pkg));
    }
  }

  lemma CallStep(m: CallSrc, s: Service, c: Cursor)
    requires GoodCall(m)
    ensures ServiceBody(Before(CallTokens(m), c), s)
         == ServiceBody(c, s.(methods := s.methods + CallMeaning(m, s.fullName, s.pkg)))
  {
    hide ParseCall, SkipStatementOrBlock, Plain, SkippedTokens;
    match m {
      case CallSkip(tokens) =>
        SkippedFirst(tokens, c);
        assert s.methods + [] == s.methods;
      case CallSrc(_, _, _, _, _, _) =>
        CallParsed(m, s, c);
    }
  }

  lemma ServiceParsed(s: ServiceSrc, pkg: string, c: Cursor)
    requires GoodService(s)
    ensures ParseService(Before(ServiceTokens(s), c), pkg) == (Some(ServiceMeaning(s, pkg)), c)
  {
    hide IsName, CallsTokens, ServiceBody, JoinName, GoodCall, CallsMeaning;
    NamedBlock(s.name, CallsTokens(s.items) + [P("}")], c);
    CallsParsed(s.items, Service(s.name, JoinName(pkg, s.name), pkg, []), c);
    assert [] + CallsMeaning(s.items, JoinName(pkg, s.name), pkg) == CallsMeaning(s.items, JoinName(pkg, s.name), pkg);
  }

  // ---------------------------------------------------------------- files

  lemma TextStatements(s: StatementSrc, f: File, c: Cursor)
    requires GoodStatement(s) && (s.SyntaxStmt? || s.ImportStmt?)
    ensures Before(StatementTokens(s), c).rest != []
            && ParseStatement(Before(StatementTokens(s), c), f) == (StatementMeaning(s, f), c)
  {
    hide SkipStatement, SkipStatementOrBlock, QualifiedName, ParseMessage, ParseEnum, ParseService;
    SemicolonSkipped(c);
    match s {
      case SyntaxStmt(text) =>
        BeforeCons(N("syntax"), [P("=")] + ([S(text)] + [P(";")]), c);
        BeforeCons(P("="), [S(text)] + [P(";")], c);
        BeforeCons(S(text), [P(";")], c);
      case ImportStmt(modifier, path) =>
        var end := [S(path)] + [P(";")];
        BeforeCons(N("import"), (if modifier == "" then [] else [N(modifier)]) + end, c);
        BeforeCons(S(path), [P(";")], c);
        if modifier == "" {
          assert [] + end == end;
        } else {
          BeforeCons(N(modifier), end, c);
        }
    }
  }

  /** An import without a modifier is recorded exactly when its path is not a modifier's
      word; otherwise the parser takes the string for the modifier and drops the import. */
  lemma ImportExactly(path: string, f: File, c: Cursor)
    ensures (var s := ImportStmt("", path); var at := Before(StatementTokens(s), c);
             && at.rest != []
             && (ParseStatement(at, f) == (StatementMeaning(s, f), c) <==> path != "public" && path != "weak")
             && (path == "public" || path == "weak" ==> ParseStatement(at, f) == (f, c)))
  {
    hide SkipStatement, SkipStatementOrBlock, QualifiedName, ParseMessage, ParseEnum, ParseService, Before, Join,
         TypeTokens;
    var s, end := ImportStmt("", path), [S(path)] + [P(";")];
    SemicolonSkipped(c);
    assert [] + end == end;
    BeforeCons(N("import"), end, c);
    BeforeCons(S(path), [P(";")], c);
    BeforeOne(P(";"), c);
    assert |StatementMeaning(s, f).imports| == |f.imports| + 1;
  }

  lemma PackageStatement(pkg: TypeSrc, f: File, c: Cursor)
    requires GoodType(pkg)
    ensures (var s := PackageStmt(pkg);
             Before(StatementTokens(s), c).rest != []
             && ParseStatement(Before(StatementTokens(s), c), f) == (StatementMeaning(s, f), c))
  {
    hide SkipStatement, SkipStatementOrBlock, QualifiedName, ParseMessage, ParseEnum, ParseService, GoodType,
         TypeTokens, TypeText;
    SemicolonSkipped(c);
    BeforeCons(N("package"), TypeTokens(pkg) + [P(";")], c);
    BeforeJoin(TypeTokens(pkg), [P(";")], c);
    BeforeOne(P(";"), c);
    TypeParsed(pkg, Before([P(";")], c));
  }

  lemma BlockStatements(s: StatementSrc, f: File, c: Cursor)
    requires GoodStatement(s) && (s.MessageStmt? || s.EnumStmt? || s.ServiceStmt? || s.SkipStmt?)
    ensures Before(StatementTokens(s), c).rest != []
            && ParseStatement(Before(StatementTokens(s), c), f) == (StatementMeaning(s, f), c)
  {
    hide SkipStatement, SkipStatementOrBlock, QualifiedName, ParseMessage, ParseEnum, ParseService, MessageTokens,
         EnumTokens, ServiceTokens, MessageMeaning, EnumMeaning, ServiceMeaning, GoodMessage, GoodEnum, GoodService,
         Plain, SkippedTokens;
    match s {
      case MessageStmt(m) =>
        BeforeCons(N("message"), MessageTokens(m), c);
        MessageParsed(m, f.pkg, "", 0, c);
      case EnumStmt(e) =>
        BeforeCons(N("enum"), EnumTokens(e), c);
        EnumParsed(e, f.pkg, "", c);
      case ServiceStmt(service) =>
        BeforeCons(N("service"), ServiceTokens(service), c);
        ServiceParsed(service, f.pkg, c);
      case SkipStmt(tokens) =>
        SkippedFirst(tokens, c);
    }
  }

  lemma StatementParsed(s: StatementSrc, f: File, c: Cursor)
    requires GoodStatement(s)
    ensures Before(StatementTokens(s), c).rest != []
            && ParseStatement(Before(StatementTokens(s), c), f) == (StatementMeaning(s, f), c)
  {
    hide StatementTokens, ParseStatement, StatementMeaning, GoodType;
    match s {
      case SyntaxStmt(_) => TextStatements(s, f, c);
      case ImportStmt(_, _) => TextStatements(s, f, c);
      case PackageStmt(pkg) => PackageStatement(pkg, f, c);
      case _ => BlockStatements(s, f, c);
    }
  }

  lemma {:induction false} FileParsed(ss: seq<StatementSrc>, f: File)
    requires GoodFile(ss)
    ensures ParseFile(Cursor(FileTokens(ss), false), f) == (FileMeaning(ss, f), Cursor([], false))
    decreases |ss|
  {
    hide StatementTokens, ParseStatement, StatementMeaning, GoodStatement;
    if ss != [] {
      var rest := Cursor(FileTokens(ss[1..]), false);
      StatementParsed(ss[0], f, rest);
      assert Before(StatementTokens(ss[0]), rest) == Cursor(FileTokens(ss), false);
      FileParsed(ss[1..], StatementMeaning(ss[0], f));
    }
  }

  /** Parsing the tokens of a canonical file returns the metadata it stands for, finalized;
      it is refused only when there is none. */
  lemma TokensRoundTrip(ss: seq<StatementSrc>)
    requires GoodFile(ss)
    ensures (var file := FileMeaning(ss, NewFile);
             ParseTokens(FileTokens(ss)) == if HasMetadata([file]) then Parsed(Finalize([file])) else Refused)
  {
    hide ParseFile, FileTokens, FileMeaning, GoodFile, Finalize;
    FileParsed(ss, NewFile);
    if FileTokens(ss) == [] {
      EmptyFile(ss);
    }
  }

  lemma EmptyFile(ss: seq<StatementSrc>)
    requires FileTokens(ss) == []
    ensures !HasMetadata([FileMeaning(ss, NewFile)])
  {
    hide MessageTokens, EnumTokens, ServiceTokens;
  }
}
