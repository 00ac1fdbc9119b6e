/** An enum with a negative number, read by both front ends of grpcproto: the descriptor keeps
    the number, the text parser reads 0. */
module SignedEnums {
  import opened DescriptorProofs
  import opened EncodedSizes
  import opened Lexing
  import opened ProtoAgreement
  import opened ProtoLexer
  import opened ProtoModel
  import opened ProtoSource
  import opened ProtoTextSpec
  import opened Text
  import opened Tokens
  import opened Wrappers
  import Compiled = Descriptors
  import opened WireFormat
  import WireModel

  // ---------------------------------------------------------------- the instance

  const MINUS := ValueSrc("MINUS", -1)
  const SIGN := EnumSrc("Sign", [MINUS])
  const SIGN_FILE := Compiled.FileDesc("", "", [], [], [Compiled.EnumDesc("Sign", [Compiled.ValueDesc("MINUS", -1)])],
                                       [], "")

  lemma SignItems()
    ensures (var values := [Item(1, TextP("MINUS")), Item(2, IntP(-1))];
             var fields := [Item(1, TextP("Sign")), Item(2, SubP(values))];
             var file := [Item(5, SubP(fields))];
             Compiled.SetItems([SIGN_FILE]) == [Item(1, SubP(file))])
  {
    var v := Compiled.ValueDesc("MINUS", -1);
    var e := Compiled.EnumDesc("Sign", [v]);
    assert Compiled.ValueItems(v) == [Item(1, TextP("MINUS")), Item(2, IntP(-1))];
    assert Compiled.ValuesItems([v]) == [Item(2, SubP(Compiled.ValueItems(v)))];
    assert Compiled.EnumItems(e) == [Item(1, TextP("Sign")), Item(2, SubP(Compiled.ValueItems(v)))];
    assert Compiled.EnumsItems(5, [e]) == [Item(5, SubP(Compiled.EnumItems(e)))];
    assert Compiled.FileItems(SIGN_FILE) == Compiled.EnumsItems(5, [e]);
  }

  lemma SignSmall()
    ensures |EncodeSet([SIGN_FILE])| <= MAX_DOCUMENT_BYTES && WithinLimits([SIGN_FILE])
  {
    hide EncodeItems, Compiled.SetItems, Bulk, Known, Tags, Shallow;
    SignItems();
    var name, number := Item(1, TextP("MINUS")), Item(2, IntP(-1));
    var value := Item(2, SubP([name, number]));
    var title := Item(1, TextP("Sign"));
    var sign := Item(5, SubP([title, value]));
    var file := Item(1, SubP([sign]));
    TwoItems(name, number, ValueK, 0);
    TwoItems(title, value, EnumK, 0);
    OneItem(sign, FileK, 0);
    OneItem(file, SetK, 0);
    Encodable([SIGN_FILE]);
    EncodedAtMost(Compiled.SetItems([SIGN_FILE]));
  }

  lemma MinusTokens()
    ensures ValuesTokens([MINUS]) == [N("MINUS"), P("="), P("-"), Token(Number, "1"), P(";")]
  {
    assert Decimal(1) == "1";
    assert ValueTokens(MINUS) == [N("MINUS"), P("="), P("-"), Token(Number, "1"), P(";")];
    assert ValuesTokens([MINUS]) == ValueTokens(MINUS) + [];
  }

  lemma SignTokens()
    ensures FileTokens([EnumStmt(SIGN)])
         == [N("enum"), N("Sign"), P("{"), N("MINUS"), P("="), P("-"), Token(Number, "1"), P(";"), P("}")]
  {
    hide ValuesTokens;
    MinusTokens();
    assert StatementTokens(EnumStmt(SIGN)) == [N("enum"), N("Sign"), P("{")] + ValuesTokens([MINUS]) + [P("}")];
    assert FileTokens([EnumStmt(SIGN)]) == StatementTokens(EnumStmt(SIGN)) + [];
  }

  lemma SignGood()
    ensures GoodFile([EnumStmt(SIGN)])
  {
    assert IsName("Sign") && IsName("MINUS");
  }

  lemma ValueText()
    ensures (var rest := [P("-")] + ([Token(Number, "1")] + ([P(";")] + ([P("}")] + [])));
             Render(rest) == "- 1 ; } " && Admitted(rest, Nesting(5, 1)))
  {
    hide Render, Admitted;
    RenderMore(P("-"), [Token(Number, "1")] + ([P(";")] + ([P("}")] + [])), Nesting(5, 1));
    RenderMore(Token(Number, "1"), [P(";")] + ([P("}")] + []), Nesting(6, 1));
    RenderMore(P(";"), [P("}")] + [], Nesting(7, 1));
    RenderMore(P("}"), [], Nesting(8, 1));
    NothingLeft(Nesting(9, 0));
  }

  lemma SignText()
    ensures (var tokens := FileTokens([EnumStmt(SIGN)]);
             Render(tokens) == "enum Sign { MINUS = - 1 ; } " && Admitted(tokens, Start))
  {
    hide Render, Admitted, FileTokens;
    SignTokens();
    ValueText();
    var value := [P("-")] + ([Token(Number, "1")] + ([P(";")] + ([P("}")] + [])));
    var t4 := [P("=")] + value;
    var t3 := [N("MINUS")] + t4;
    var t2 := [P("{")] + t3;
    var t1 := [N("Sign")] + t2;
    assert FileTokens([EnumStmt(SIGN)]) == [N("enum")] + t1;
    RenderMore(N("enum"), t1, Start);
    RenderMore(N("Sign"), t2, Nesting(1, 0));
    RenderMore(P("{"), t3, Nesting(2, 0));
    RenderMore(N("MINUS"), t4, Nesting(3, 1));
    RenderMore(P("="), value, Nesting(4, 1));
    SignLiteral();
  }

  lemma SignPrintable()
    ensures AllPrintable(FileTokens([EnumStmt(SIGN)]))
  {
    hide FileTokens;
    SignTokens();
  }

  lemma SignLiteral()
    ensures "enum" + (" " + ("Sign" + (" " + ("{" + (" " + ("MINUS" + (" " + ("=" + (" " + "- 1 ; } ")))))))))
         == "enum Sign { MINUS = - 1 ; } "
  {
  }

  lemma SignNamed()
    ensures JoinName("", JoinName("", "Sign")) == "Sign"
  {
    assert NamePart("") == "" && NamePart("Sign") == "Sign";
  }

  lemma TextMeaning()
    ensures FileMeaning([EnumStmt(SIGN)], NewFile).enums == [Enum("Sign", "Sign", [EnumValue("MINUS", 0)])]
  {
    hide JoinName;
    SignNamed();
    assert [MINUS][1..] == [] && [EnumStmt(SIGN)][1..] == [];
    assert ValuesMeaning([MINUS]) == [EnumValue("MINUS", 0)];
    assert [] + [EnumMeaning(SIGN, "", "")] == [EnumMeaning(SIGN, "", "")];
  }

  lemma CompiledMeaning()
    ensures Compiled.FileMeaning(SIGN_FILE).enums == [Enum("Sign", "Sign", [EnumValue("MINUS", -1)])]
  {
    hide JoinName, Compiled.MessagesMeaning, Compiled.ServicesMeaning, Compiled.NonEmptyTexts;
    SignNamed();
    var v := Compiled.ValueDesc("MINUS", -1);
    assert Compiled.ValuesMeaning([v]) == [EnumValue("MINUS", -1)];
    var e := Compiled.EnumDesc("Sign", [v]);
    assert Compiled.EnumsMeaning([e], "", "") == Compiled.EnumMeaning(e, "", "");
  }

  lemma KeepsEnums(f: File)
    ensures Finalize([f]) == [FinalizeFile(f)] && FinalizeFile(f).enums == f.enums
    ensures HasMetadata([f]) <== f.enums != []
    ensures HasMetadata([FinalizeFile(f)]) <== f.enums != []
  {
    hide FinalizeService, FinalizeMessages;
    OneFile(f);
    assert f in [f] && FinalizeFile(f) in [FinalizeFile(f)];
  }

  /** The text of an enum with the value -1 is accepted and read with the value 0; the
      descriptor set compiled from it is accepted and read with the value -1. */
  lemma NegativeNumberLost()
    ensures (var r := ParseProtoText("enum Sign { MINUS = - 1 ; } ");
             r.Parsed? && |r.files| == 1 && r.files[0].enums == [Enum("Sign", "Sign", [EnumValue("MINUS", 0)])])
    ensures (var r := WireModel.ParseDescriptorSet(EncodeSet([SIGN_FILE]));
             r.Model? && |r.files| == 1 && r.files[0].enums == [Enum("Sign", "Sign", [EnumValue("MINUS", -1)])])
  {
    hide *;
    SignText();
    SignGood();
    SignPrintable();
    TextMeaning();
    CompiledMeaning();
    TextRoundTrip([EnumStmt(SIGN)]);
    KeepsEnums(FileMeaning([EnumStmt(SIGN)], NewFile));
    SignSmall();
    SetRoundTrip([SIGN_FILE]);
    OneCompiled(SIGN_FILE);
    KeepsEnums(Compiled.FileMeaning(SIGN_FILE));
    OneConcluded(Compiled.FileMeaning(SIGN_FILE));
  }
}
