/** A field with a JSON name of its own, read by both front ends of grpcproto: the descriptor
    keeps the name, the text parser skips the options of a field. */
module JsonNames {
  import opened DescriptorProofs
  import opened EncodedSizes
  import opened Lexing
  import opened ProtoAgreement
  import opened ProtoLexer
  import opened ProtoModel
  import opened ProtoSource
  import opened ProtoTextSpec
  import opened Text
  import opened Tokens
  import opened WireFormat
  import opened Wrappers
  import Compiled = Descriptors
  import WireModel

  const OPTIONS := [N("json_name"), P("="), S("b")]
  const FIELD := FieldSrc("", TypeSrc(false, ["string"]), "a", 1, Some(OPTIONS))
  const HOLDER := MessageSrc("M", [FieldItem(FIELD)])
  const JSON := [MessageStmt(HOLDER)]
  const FIELD_DESC := Compiled.FieldDesc("a", 1, 1, 9, "", "b")
  const HOLDER_DESC := Compiled.MessageDesc("M", [FIELD_DESC], [], [])
  const JSON_FILE := Compiled.FileDesc("", "", [], [HOLDER_DESC], [], [], "")

  // ---------------------------------------------------------------- the text

  lemma JsonGood()
    ensures GoodFile(JSON)
  {
    assert IsName("M") && IsName("a") && IsName("string");
    assert GoodField(FIELD);
    assert GoodItems([FieldItem(FIELD)], 1) by { assert [FieldItem(FIELD)][1..] == []; }
  }

  lemma FieldTokensHere()
    ensures FieldTokens(FIELD) == [N("string"), N("a"), P("="), Token(Number, "1"), P("[")] + OPTIONS + [P("]"), P(";")]
  {
    assert Decimal(1) == "1";
    assert PathTokens(["string"]) == [N("string")];
    assert TypeTokens(FIELD.typ) == [N("string")];
    assert OptionTokens(FIELD.options) == [P("[")] + OPTIONS + [P("]")];
  }

  lemma JsonTokens()
    ensures FileTokens(JSON)
         == [N("message"), N("M"), P("{")]
            + ([N("string"), N("a"), P("="), Token(Number, "1"), P("[")] + OPTIONS + [P("]"), P(";")]) + [P("}")]
  {
    hide FieldTokens;
    FieldTokensHere();
    assert ItemsTokens([FieldItem(FIELD)]) == FieldTokens(FIELD) + [];
    assert StatementTokens(JSON[0]) == [N("message"), N("M"), P("{")] + FieldTokens(FIELD) + [P("}")];
    assert FileTokens(JSON) == StatementTokens(JSON[0]) + [];
  }

  lemma JsonPrintable()
    ensures AllPrintable(FileTokens(JSON))
  {
    hide FileTokens;
    JsonTokens();
  }

  lemma EndText()
    ensures (var rest := [P("]")] + ([P(";")] + ([P("}")] + []));
             Render(rest) == "] ; } " && Admitted(rest, Nesting(11, 2)))
  {
    hide Render, Admitted;
    RenderMore(P("]"), [P(";")] + ([P("}")] + []), Nesting(11, 2));
    RenderMore(P(";"), [P("}")] + [], Nesting(12, 1));
    RenderMore(P("}"), [], Nesting(13, 1));
    NothingLeft(Nesting(14, 0));
  }

  lemma OptionText(end: seq<Token>)
    requires Render(end) == "] ; } " && Admitted(end, Nesting(11, 2))
    ensures (var rest := [P("[")] + ([N("json_name")] + ([P("=")] + ([S("b")] + end)));
             Render(rest) == "[ json_name = \"b\" ] ; } " && Admitted(rest, Nesting(7, 1)))
  {
    hide Render, Admitted, RenderToken;
    var t2 := [S("b")] + end;
    var t1 := [P("=")] + t2;
    QuotedB();
    RenderMore(P("["), [N("json_name")] + t1, Nesting(7, 1));
    RenderMore(N("json_name"), t1, Nesting(8, 2));
    RenderMore(P("="), t2, Nesting(9, 2));
    RenderMore(S("b"), end, Nesting(10, 2));
    OptionLiteral("] ; } ");
    EndLiteral();
  }

  lemma OptionLiteral(rest: string)
    ensures "[" + (" " + ("json_name" + (" " + ("=" + (" " + ("\"b\"" + (" " + rest)))))))
         == "[ json_name = \"b\" " + rest
  {
  }

  lemma EndLiteral()
    ensures "[ json_name = \"b\" " + "] ; } " == "[ json_name = \"b\" ] ; } "
  {
  }

  lemma QuotedB()
    ensures RenderToken(S("b")) == "\"b\"" && RenderToken(P("[")) == "[" && RenderToken(P("=")) == "="
            && RenderToken(N("json_name")) == "json_name"
  {
    assert Quote("b") == "b";
  }

  lemma FieldText(options: seq<Token>)
    requires Admitted(options, Nesting(7, 1))
    ensures (var rest := [N("string")] + ([N("a")] + ([P("=")] + ([Token(Number, "1")] + options)));
             Render(rest) == "string a = 1 " + Render(options) && Admitted(rest, Nesting(3, 1)))
  {
    hide Render, Admitted, RenderToken;
    var t3 := [Token(Number, "1")] + options;
    var t2 := [P("=")] + t3;
    var t1 := [N("a")] + t2;
    RenderWord(N("string"), t1, Nesting(3, 1));
    RenderWord(N("a"), t2, Nesting(4, 1));
    RenderWord(P("="), t3, Nesting(5, 1));
    RenderWord(Token(Number, "1"), options, Nesting(6, 1));
    FieldLiteral(Render(options));
  }

  lemma FieldLiteral(rest: string)
    ensures "string" + (" " + ("a" + (" " + ("=" + (" " + ("1" + (" " + rest))))))) == "string a = 1 " + rest
  {
  }

  lemma MessageText(field: seq<Token>)
    requires Admitted(field, Nesting(3, 1))
    ensures (var tokens := [N("message")] + ([N("M")] + ([P("{")] + field));
             Render(tokens) == "message M { " + Render(field) && Admitted(tokens, Start))
  {
    hide Render, Admitted, RenderToken;
    RenderWord(N("message"), [N("M")] + ([P("{")] + field), Start);
    RenderWord(N("M"), [P("{")] + field, Nesting(1, 0));
    RenderWord(P("{"), field, Nesting(2, 0));
    MessageLiteral(Render(field));
  }

  lemma MessageLiteral(rest: string)
    ensures "message" + (" " + ("M" + (" " + ("{" + (" " + rest))))) == "message M { " + rest
  {
  }

  lemma BodyLiteral()
    ensures "string a = 1 " + "[ json_name = \"b\" ] ; } " == "string a = 1 [ json_name = \"b\" ] ; } "
  {
  }

  lemma WholeLiteral()
    ensures "message M { " + "string a = 1 [ json_name = \"b\" ] ; } "
         == "message M { string a = 1 [ json_name = \"b\" ] ; } "
  {
  }

  lemma JsonText()
    ensures Render(FileTokens(JSON)) == "message M { string a = 1 [ json_name = \"b\" ] ; } "
            && Admitted(FileTokens(JSON), Start)
  {
    hide Render, Admitted, FileTokens;
    JsonTokens();
    EndText();
    var end := [P("]")] + ([P(";")] + ([P("}")] + []));
    OptionText(end);
    var options := [P("[")] + ([N("json_name")] + ([P("=")] + ([S("b")] + end)));
    FieldText(options);
    var field := [N("string")] + ([N("a")] + ([P("=")] + ([Token(Number, "1")] + options)));
    MessageText(field);
    BodyLiteral();
    WholeLiteral();
    assert FileTokens(JSON) == [N("message")] + ([N("M")] + ([P("{")] + field));
  }

  // ---------------------------------------------------------------- the descriptor set

  lemma JsonItems()
    ensures (var field := [Item(1, TextP("a")), Item(3, IntP(1)), Item(4, IntP(1)), Item(5, IntP(9)),
                           Item(10, TextP("b"))];
             var holder := [Item(1, TextP("M")), Item(2, SubP(field))];
             Compiled.SetItems([JSON_FILE]) == [Item(1, SubP([Item(4, SubP(holder))]))])
  {
    var field := [Item(1, TextP("a")), Item(3, IntP(1)), Item(4, IntP(1)), Item(5, IntP(9)), Item(10, TextP("b"))];
    assert Compiled.FieldItems(FIELD_DESC) == field;
    assert Compiled.FieldsItems([FIELD_DESC]) == [Item(2, SubP(field))];
    var holder := [Item(1, TextP("M")), Item(2, SubP(field))];
    assert Compiled.MessageItems(HOLDER_DESC) == holder;
    assert Compiled.MessagesItems(4, [HOLDER_DESC]) == [Item(4, SubP(holder))];
    assert Compiled.FileItems(JSON_FILE) == [Item(4, SubP(holder))];
    assert [JSON_FILE][1..] == [];
  }

  lemma FieldSmall(depth: nat)
    ensures (var field := [Item(1, TextP("a")), Item(3, IntP(1)), Item(4, IntP(1)), Item(5, IntP(9)),
                           Item(10, TextP("b"))];
             Bulk(field) <= 200 && Tags(field) <= 5 && Known(field) && Shallow(FieldK, depth, field))
  {
    hide Bulk, Known, Tags, Shallow;
    var name, number, card, typ, json := Item(1, TextP("a")), Item(3, IntP(1)), Item(4, IntP(1)), Item(5, IntP(9)),
                                         Item(10, TextP("b"));
    TwoItems(typ, json, FieldK, depth);
    MoreItems(card, [typ, json], FieldK, depth);
    MoreItems(number, [card, typ, json], FieldK, depth);
    MoreItems(name, [number, card, typ, json], FieldK, depth);
    assert [name] + [number, card, typ, json] == [name, number, card, typ, json];
    assert [number] + [card, typ, json] == [number, card, typ, json] && [card] + [typ, json] == [card, typ, json];
  }

  lemma JsonSmall()
    ensures |EncodeSet([JSON_FILE])| <= MAX_DOCUMENT_BYTES && WithinLimits([JSON_FILE])
  {
    hide EncodeItems, Compiled.SetItems, Bulk, Known, Tags, Shallow;
    JsonItems();
    FieldSmall(0);
    FieldSmall(1);
    var field := [Item(1, TextP("a")), Item(3, IntP(1)), Item(4, IntP(1)), Item(5, IntP(9)), Item(10, TextP("b"))];
    var title, body := Item(1, TextP("M")), Item(2, SubP(field));
    var holder := Item(4, SubP([title, body]));
    TwoItems(title, body, MessageK, 0);
    TwoItems(title, body, MessageK, 1);
    OneItem(holder, FileK, 0);
    OneItem(Item(1, SubP([holder])), SetK, 0);
    Encodable([JSON_FILE]);
    EncodedAtMost(Compiled.SetItems([JSON_FILE]));
  }

  // ---------------------------------------------------------------- what is read

  lemma HolderNamed()
    ensures JoinName("", JoinName("", "M")) == "M" && JoinName("", "M") == "M"
  {
    assert NamePart("") == "" && NamePart("M") == "M";
  }

  lemma FieldsHere()
    ensures ItemsFields([FieldItem(FIELD)]) == [Field("a", 1, "", "string", "", "", false, false)]
    ensures Compiled.FieldsMeaning([FIELD_DESC]) == [Field("a", 1, "optional", "string", "", "b", false, false)]
  {
    assert TypeText(FIELD.typ) == "string" && !NamesType("string");
    assert FieldMeaning(FIELD) == Field("a", 1, "", "string", "", "", false, false);
    assert [FieldItem(FIELD)][1..] == [];
    assert NormalizeTypeName("") == "";
    assert Compiled.FieldMeaning(FIELD_DESC) == [Field("a", 1, "optional", "string", "", "b", false, false)];
    assert [FIELD_DESC][1..] == [];
  }

  lemma TextMeaning()
    ensures FileMeaning(JSON, NewFile).messages
         == [Message("M", "M", [Field("a", 1, "", "string", "", "", false, false)], [], [])]
  {
    hide JoinName, ItemsFields;
    HolderNamed();
    FieldsHere();
    assert JSON[1..] == [] && [FieldItem(FIELD)][1..] == [];
    assert ItemsMessages([FieldItem(FIELD)], "", "M") == [] && ItemsEnums([FieldItem(FIELD)], "", "M") == [];
    assert [] + [MessageMeaning(HOLDER, "", "")] == [MessageMeaning(HOLDER, "", "")];
  }

  lemma CompiledMeaning()
    ensures Compiled.FileMeaning(JSON_FILE).messages
         == [Message("M", "M", [Field("a", 1, "optional", "string", "", "b", false, false)], [], [])]
  {
    hide JoinName, Compiled.ServicesMeaning, Compiled.NonEmptyTexts, Compiled.FieldsMeaning;
    HolderNamed();
    FieldsHere();
    assert Compiled.MessagesMeaning([], "", "M") == [] && Compiled.EnumsMeaning([], "", "M") == [];
    var m := Message("M", "M", [Field("a", 1, "optional", "string", "", "b", false, false)], [], []);
    assert Compiled.MessageMeaning(HOLDER_DESC, "", "") == [m];
    assert [HOLDER_DESC][1..] == [] && Compiled.MessagesMeaning([], "", "") == [];
  }

  lemma OneMessage(f: File, name: string, field: Field)
    requires f.messages == [Message(name, name, [field], [], [])]
    ensures (var g := FinalizeFile(f);
             && |g.messages| == 1 && g.messages[0].fields == NamedInJson([field])
             && HasMetadata([f]) && HasMetadata([g]))
  {
    hide FinalizeService;
    var m := f.messages[0];
    assert f.messages[1..] == [] && FinalizeMessages(f.messages) == [FinalizeMessage(m)];
    assert f in [f] && FinalizeFile(f) in [FinalizeFile(f)];
  }

  lemma NamedA()
    ensures NamedInJson([Field("a", 1, "", "string", "", "", false, false)])
         == [Field("a", 1, "", "string", "", "a", false, false)]
    ensures NamedInJson([Field("a", 1, "optional", "string", "", "b", false, false)])
         == [Field("a", 1, "optional", "string", "", "b", false, false)]
  {
    assert LowerCamel("a") == "a";
  }

  /** The text of a field with the JSON name "b" is accepted and read with the name "a"; the
      descriptor set compiled from it is accepted and read with the name "b". */
  lemma JsonNameMissed()
    ensures (var r := ParseProtoText("message M { string a = 1 [ json_name = \"b\" ] ; } ");
             r.Parsed? && |r.files| == 1 && |r.files[0].messages| == 1
             && r.files[0].messages[0].fields == [Field("a", 1, "", "string", "", "a", false, false)])
    ensures (var r := WireModel.ParseDescriptorSet(EncodeSet([JSON_FILE]));
             r.Model? && |r.files| == 1 && |r.files[0].messages| == 1
             && r.files[0].messages[0].fields == [Field("a", 1, "optional", "string", "", "b", false, false)])
  {
    hide *;
    var text, compiled := FileMeaning(JSON, NewFile), Compiled.FileMeaning(JSON_FILE);
    JsonText();
    JsonGood();
    JsonPrintable();
    TextMeaning();
    CompiledMeaning();
    NamedA();
    OneMessage(text, "M", Field("a", 1, "", "string", "", "", false, false));
    OneMessage(compiled, "M", Field("a", 1, "optional", "string", "", "b", false, false));
    OneFile(text);
    OneFile(compiled);
    TextRoundTrip(JSON);
    JsonSmall();
    SetRoundTrip([JSON_FILE]);
    OneCompiled(JSON_FILE);
    OneConcluded(compiled);
  }
}
