/** A call that names its types relative to the package, read by both front ends of grpcproto:
    the descriptor has them in full, the text parser keeps them as they are written. */
module RelativeNames {
  import opened DescriptorProofs
  import opened EncodedSizes
  import opened Lexing
  import opened ProtoAgreement
  import opened ProtoLexer
  import opened ProtoModel
  import opened ProtoSource
  import opened ProtoTextSpec
  import opened Text
  import opened Tokens
  import opened WireFormat
  import opened Wrappers
  import Compiled = Descriptors
  import WireModel

  const R := TypeSrc(false, ["R"])
  const GET := CallSrc("G", false, R, false, R, None)
  const GETTER := ServiceSrc("S", [GET])
  const PLAIN := MessageSrc("R", [])
  const NAMING := [PackageStmt(TypeSrc(false, ["p"])), MessageStmt(PLAIN), ServiceStmt(GETTER)]
  const GET_DESC := Compiled.MethodDesc("G", ".p.R", ".p.R", false, false)
  const NAMING_FILE := Compiled.FileDesc("", "p", [], [Compiled.MessageDesc("R", [], [], [])], [],
                                         [Compiled.ServiceDesc("S", [GET_DESC])], "")

  // ---------------------------------------------------------------- the text

  lemma NamingGood()
    ensures GoodFile(NAMING)
  {
    assert IsName("p") && IsName("R") && IsName("S") && IsName("G");
    assert GoodItems([], 1);
    assert GoodCall(GET);
  }

  lemma CallTokensHere()
    ensures CallTokens(GET) == [N("rpc"), N("G"), P("("), N("R"), P(")"), N("returns"), P("("), N("R"), P(")"), P(";")]
  {
    assert PathTokens(["R"]) == [N("R")];
    assert TypeTokens(R) == [N("R")];
    assert SideTokens(false, R) == [P("("), N("R"), P(")")];
  }

  lemma PackageHere()
    ensures StatementTokens(NAMING[0]) == [N("package"), N("p"), P(";")]
    ensures StatementTokens(NAMING[1]) == [N("message"), N("R"), P("{"), P("}")]
  {
    assert PathTokens(["p"]) == [N("p")];
    assert TypeTokens(TypeSrc(false, ["p"])) == [N("p")];
    assert ItemsTokens([]) == [];
  }

  lemma ServiceHere()
    ensures StatementTokens(NAMING[2]) == [N("service"), N("S"), P("{")] + CallTokens(GET) + [P("}")]
  {
    hide CallTokens;
    assert [GET][1..] == [];
    assert CallsTokens([GET]) == CallTokens(GET) + [];
  }

  lemma NamingTokens()
    ensures FileTokens(NAMING)
         == [N("package"), N("p"), P(";")] + ([N("message"), N("R"), P("{"), P("}")]
            + ([N("service"), N("S"), P("{")] + CallTokens(GET) + [P("}")]))
  {
    hide StatementTokens, CallTokens;
    PackageHere();
    ServiceHere();
    assert NAMING[1..] == [NAMING[1], NAMING[2]] && NAMING[1..][1..] == [NAMING[2]] && [NAMING[2]][1..] == [];
    assert FileTokens([NAMING[2]]) == StatementTokens(NAMING[2]) + [];
    assert FileTokens([NAMING[1], NAMING[2]]) == StatementTokens(NAMING[1]) + FileTokens([NAMING[2]]) by {
      assert [NAMING[1], NAMING[2]][1..] == [NAMING[2]];
    }
  }

  lemma NamingPrintable()
    ensures AllPrintable(FileTokens(NAMING))
  {
    hide FileTokens, CallTokens;
    NamingTokens();
    CallTokensHere();
  }

  lemma ReturnsText()
    ensures (var rest := [N("returns")] + ([P("(")] + ([N("R")] + ([P(")")] + ([P(";")] + ([P("}")] + [])))));
             Render(rest) == "returns ( R ) ; } " && Admitted(rest, Nesting(15, 1)))
  {
    hide Render, Admitted, RenderToken;
    var t3 := [P(")")] + ([P(";")] + ([P("}")] + []));
    var t2 := [N("R")] + t3;
    RenderWord(N("returns"), [P("(")] + t2, Nesting(15, 1));
    RenderWord(P("("), t2, Nesting(16, 1));
    RenderWord(N("R"), t3, Nesting(17, 2));
    RenderWord(P(")"), [P(";")] + ([P("}")] + []), Nesting(18, 2));
    RenderWord(P(";"), [P("}")] + [], Nesting(19, 1));
    RenderWord(P("}"), [], Nesting(20, 1));
    NothingLeft(Nesting(21, 0));
  }

  lemma CallText(rest: seq<Token>)
    requires Admitted(rest, Nesting(15, 1))
    ensures (var tokens := [N("rpc")] + ([N("G")] + ([P("(")] + ([N("R")] + ([P(")")] + rest))));
             Render(tokens) == "rpc G ( R ) " + Render(rest) && Admitted(tokens, Nesting(10, 1)))
  {
    hide Render, Admitted, RenderToken;
    var t3 := [P(")")] + rest;
    var t2 := [N("R")] + t3;
    var t1 := [P("(")] + t2;
    RenderWord(N("rpc"), [N("G")] + t1, Nesting(10, 1));
    RenderWord(N("G"), t1, Nesting(11, 1));
    RenderWord(P("("), t2, Nesting(12, 1));
    RenderWord(N("R"), t3, Nesting(13, 2));
    RenderWord(P(")"), rest, Nesting(14, 2));
    CallLiteral(Render(rest));
  }

  lemma CallLiteral(rest: string)
    ensures "rpc" + (" " + ("G" + (" " + ("(" + (" " + ("R" + (" " + (")" + (" " + rest)))))))))
         == "rpc G ( R ) " + rest
  {
  }

  lemma ServiceText(rest: seq<Token>)
    requires Admitted(rest, Nesting(10, 1))
    ensures (var tokens := [N("service")] + ([N("S")] + ([P("{")] + rest));
             Render(tokens) == "service S { " + Render(rest) && Admitted(tokens, Nesting(7, 0)))
  {
    hide Render, Admitted, RenderToken;
    RenderWord(N("service"), [N("S")] + ([P("{")] + rest), Nesting(7, 0));
    RenderWord(N("S"), [P("{")] + rest, Nesting(8, 0));
    RenderWord(P("{"), rest, Nesting(9, 0));
    ServiceLiteral(Render(rest));
  }

  lemma ServiceLiteral(rest: string)
    ensures "service" + (" " + ("S" + (" " + ("{" + (" " + rest))))) == "service S { " + rest
  {
  }

  lemma MessageText(rest: seq<Token>)
    requires Admitted(rest, Nesting(7, 0))
    ensures (var tokens := [N("message")] + ([N("R")] + ([P("{")] + ([P("}")] + rest)));
             Render(tokens) == "message R { } " + Render(rest) && Admitted(tokens, Nesting(3, 0)))
  {
    hide Render, Admitted, RenderToken;
    var t2 := [P("{")] + ([P("}")] + rest);
    RenderWord(N("message"), [N("R")] + t2, Nesting(3, 0));
    RenderWord(N("R"), t2, Nesting(4, 0));
    RenderWord(P("{"), [P("}")] + rest, Nesting(5, 0));
    RenderWord(P("}"), rest, Nesting(6, 1));
    MessageLiteral(Render(rest));
  }

  lemma MessageLiteral(rest: string)
    ensures "message" + (" " + ("R" + (" " + ("{" + (" " + ("}" + (" " + rest))))))) == "message R { } " + rest
  {
  }

  lemma PackageText(rest: seq<Token>)
    requires Admitted(rest, Nesting(3, 0))
    ensures (var tokens := [N("package")] + ([N("p")] + ([P(";")] + rest));
             Render(tokens) == "package p ; " + Render(rest) && Admitted(tokens, Start))
  {
    hide Render, Admitted, RenderToken;
    RenderWord(N("package"), [N("p")] + ([P(";")] + rest), Start);
    RenderWord(N("p"), [P(";")] + rest, Nesting(1, 0));
    RenderWord(P(";"), rest, Nesting(2, 0));
    PackageLiteral(Render(rest));
  }

  lemma PackageLiteral(rest: string)
    ensures "package" + (" " + ("p" + (" " + (";" + (" " + rest))))) == "package p ; " + rest
  {
  }

  /** The text in four parts. */
  const WRITTEN := "package p ; " + ("message R { } " + ("service S { " + ("rpc G ( R ) " + "returns ( R ) ; } ")))

  lemma NamingText()
    ensures Render(FileTokens(NAMING)) == WRITTEN && Admitted(FileTokens(NAMING), Start)
  {
    hide Render, Admitted, FileTokens, CallTokens;
    NamingTokens();
    CallTokensHere();
    ReturnsText();
    var end := [N("returns")] + ([P("(")] + ([N("R")] + ([P(")")] + ([P(";")] + ([P("}")] + [])))));
    CallText(end);
    var call := [N("rpc")] + ([N("G")] + ([P("(")] + ([N("R")] + ([P(")")] + end))));
    ServiceText(call);
    var service := [N("service")] + ([N("S")] + ([P("{")] + call));
    MessageText(service);
    var message := [N("message")] + ([N("R")] + ([P("{")] + ([P("}")] + service)));
    PackageText(message);
    assert FileTokens(NAMING) == [N("package")] + ([N("p")] + ([P(";")] + message));
  }

  // ---------------------------------------------------------------- the descriptor set

  lemma NamingItems()
    ensures (var call := [Item(1, TextP("G")), Item(2, TextP(".p.R")), Item(3, TextP(".p.R"))];
             var service := [Item(1, TextP("S")), Item(2, SubP(call))];
             Compiled.SetItems([NAMING_FILE])
             == [Item(1, SubP([Item(2, TextP("p")), Item(4, SubP([Item(1, TextP("R"))])), Item(6, SubP(service))]))])
  {
    var call := [Item(1, TextP("G")), Item(2, TextP(".p.R")), Item(3, TextP(".p.R"))];
    var service := [Item(1, TextP("S")), Item(2, SubP(call))];
    assert Compiled.MethodItems(GET_DESC) == call;
    assert Compiled.MethodsItems([GET_DESC]) == [Item(2, SubP(call))];
    assert Compiled.ServiceItems(NAMING_FILE.services[0]) == service;
    assert Compiled.ServicesItems(NAMING_FILE.services) == [Item(6, SubP(service))];
    assert Compiled.MessageItems(NAMING_FILE.messages[0]) == [Item(1, TextP("R"))];
    assert Compiled.MessagesItems(4, NAMING_FILE.messages) == [Item(4, SubP([Item(1, TextP("R"))]))];
    assert Compiled.FileItems(NAMING_FILE)
        == [Item(2, TextP("p")), Item(4, SubP([Item(1, TextP("R"))])), Item(6, SubP(service))];
    assert [NAMING_FILE][1..] == [];
  }

  lemma NamingSmall()
    ensures |EncodeSet([NAMING_FILE])| <= MAX_DOCUMENT_BYTES && WithinLimits([NAMING_FILE])
  {
    hide EncodeItems, Compiled.SetItems, Bulk, Known, Tags, Shallow;
    NamingItems();
    var name, request, response := Item(1, TextP("G")), Item(2, TextP(".p.R")), Item(3, TextP(".p.R"));
    var title, call := Item(1, TextP("S")), Item(2, SubP([name, request, response]));
    var pkg, message := Item(2, TextP("p")), Item(4, SubP([Item(1, TextP("R"))]));
    var service := Item(6, SubP([title, call]));
    TwoItems(request, response, MethodK, 0);
    MoreItems(name, [request, response], MethodK, 0);
    assert [name] + [request, response] == [name, request, response];
    TwoItems(title, call, ServiceK, 0);
    OneItem(Item(1, TextP("R")), MessageK, 0);
    TwoItems(message, service, FileK, 0);
    MoreItems(pkg, [message, service], FileK, 0);
    assert [pkg] + [message, service] == [pkg, message, service];
    OneItem(Item(1, SubP([pkg, message, service])), SetK, 0);
    Encodable([NAMING_FILE]);
    EncodedAtMost(Compiled.SetItems([NAMING_FILE]));
  }

  // ---------------------------------------------------------------- what is read

  lemma CallsHere(service: string, pkg: string)
    ensures CallsMeaning([GET], service, pkg) == [Method("G", "", service, pkg, "R", "R", false, false, "", "")]
    ensures Compiled.MethodsMeaning([GET_DESC], pkg) == [Method("G", "", "", pkg, "p.R", "p.R", false, false, "", "")]
  {
    hide NormalizeTypeName;
    assert TypeText(R) == "R";
    FullName();
    assert [GET][1..] == [] && [GET_DESC][1..] == [];
  }

  lemma FullName()
    ensures NormalizeTypeName(".p.R") == "p.R"
  {
    TrimSpaceFixes(".p.R");
  }

  lemma TextMeaning()
    ensures (var f := FileMeaning(NAMING, NewFile);
             |f.services| == 1 && |f.services[0].methods| == 1 && f.services[0].methods[0].requestType == "R")
  {
    hide FileMeaning;
    ServicesListed(NAMING, NewFile);
    ServicesHere();
    CallsHere(JoinName("p", "S"), "p");
    GetterMeans();
    assert [] + [ServiceMeaning(GETTER, "p")] == [ServiceMeaning(GETTER, "p")];
  }

  lemma GetterMeans()
    ensures ServiceMeaning(GETTER, "p").methods == CallsMeaning([GET], JoinName("p", "S"), "p")
  {
    hide JoinName, CallsMeaning;
  }

  lemma ServicesHere()
    ensures TextServices(NAMING, "") == [ServiceMeaning(GETTER, "p")]
  {
    hide ServiceMeaning;
    var a, b, c := NAMING[0], NAMING[1], NAMING[2];
    assert TypeText(a.pkg) == "p" && "" + "p" == "p";
    assert [a, b, c][1..] == [b, c] && [b, c][1..] == [c] && [c][1..] == [];
    assert TextServices([c], "p") == [ServiceMeaning(GETTER, "p")] + [];
    assert TextServices([b, c], "p") == [] + TextServices([c], "p");
    assert TextServices([a, b, c], "") == [] + TextServices([b, c], "p");
  }

  lemma CompiledMeaning()
    ensures (var f := Compiled.FileMeaning(NAMING_FILE);
             |f.services| == 1 && |f.services[0].methods| == 1 && f.services[0].methods[0].requestType == "p.R")
  {
    hide JoinName, Compiled.MessagesMeaning, Compiled.EnumsMeaning, Compiled.NonEmptyTexts, Compiled.MethodsMeaning;
    CallsHere("", "p");
    assert NAMING_FILE.services[1..] == [] && Compiled.ServicesMeaning([], "p") == [];
  }

  lemma CallKept(x: Service, pkg: string)
    requires |x.methods| == 1
    ensures (var s := FinalizeService(x, pkg);
             |s.methods| == 1 && s.methods[0].requestType == x.methods[0].requestType)
  {
    hide JoinName, MethodSelector, FirstNonEmpty;
    var y := x.(pkg := if x.pkg == "" then pkg else x.pkg);
    var t := y.(fullName := if y.fullName == "" then JoinName(y.pkg, y.name) else y.fullName);
    assert FinalizeService(x, pkg).methods[0] == FinalizeMethod(t.methods[0], t);
  }

  lemma OneCall(f: File)
    requires |f.services| == 1 && |f.services[0].methods| == 1
    ensures (var g := FinalizeFile(f);
             |g.services| == 1 && |g.services[0].methods| == 1
             && g.services[0].methods[0].requestType == f.services[0].methods[0].requestType
             && HasMetadata([f]) && HasMetadata([g]))
  {
    hide FinalizeMessages, FinalizeService;
    ServicesOfFile(f);
    CallKept(f.services[0], f.pkg);
    var s, one := FinalizeService(f.services[0], f.pkg), Finalized(f.services, f.pkg);
    assert one == [s] && one[1..] == [];
    assert f in [f] && FinalizeFile(f) in [FinalizeFile(f)];
  }

  /** The text of a call with a relative type name is accepted and read with that name; the
      descriptor set compiled from it is accepted and read with the full name. */
  lemma RelativeNameKept()
    ensures (var r := ParseProtoText(WRITTEN);
             r.Parsed? && |r.files| == 1 && |r.files[0].services| == 1 && |r.files[0].services[0].methods| == 1
             && r.files[0].services[0].methods[0].requestType == "R")
    ensures (var r := WireModel.ParseDescriptorSet(EncodeSet([NAMING_FILE]));
             r.Model? && |r.files| == 1 && |r.files[0].services| == 1 && |r.files[0].services[0].methods| == 1
             && r.files[0].services[0].methods[0].requestType == "p.R")
  {
    hide *;
    var text, compiled := FileMeaning(NAMING, NewFile), Compiled.FileMeaning(NAMING_FILE);
    NamingText();
    NamingGood();
    NamingPrintable();
    TextMeaning();
    CompiledMeaning();
    OneCall(text);
    OneCall(compiled);
    OneFile(text);
    OneFile(compiled);
    TextRoundTrip(NAMING);
    NamingSmall();
    SetRoundTrip([NAMING_FILE]);
    OneCompiled(NAMING_FILE);
    OneConcluded(compiled);
  }
}
