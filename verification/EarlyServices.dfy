/** A service that stands before the package statement, read by both front ends of grpcproto:
    the descriptor puts it in the package, the text parser leaves it outside. */
module EarlyServices {
  import opened DescriptorProofs
  import opened EncodedSizes
  import opened Lexing
  import opened ProtoAgreement
  import opened ProtoLexer
  import opened ProtoModel
  import opened ProtoSource
  import opened ProtoTextSpec
  import opened Text
  import opened Tokens
  import opened WireFormat
  import opened Wrappers
  import Compiled = Descriptors
  import WireModel

  const LONE := ServiceSrc("S", [])
  const LATE := TypeSrc(false, ["p"])
  const EARLY := [ServiceStmt(LONE), PackageStmt(LATE)]
  const EARLY_FILE := Compiled.FileDesc("", "p", [], [], [], [Compiled.ServiceDesc("S", [])], "")

  lemma EarlyShape()
    ensures GoodFile(EARLY) && Relative(EARLY) && OnePackage(EARLY) && ServiceEarly(EARLY)
    ensures SameServices(EARLY, EARLY_FILE.services)
  {
    assert IsName("S") && IsName("p");
    assert EARLY[0].ServiceStmt? && EARLY[1].PackageStmt?;
    assert EARLY[1..] == [PackageStmt(LATE)] && EARLY[1..][1..] == [];
    assert EARLY_FILE.services[1..] == [];
  }

  lemma TwoStatements(a: StatementSrc, b: StatementSrc, f: File, here: string)
    ensures FileTokens([a, b]) == StatementTokens(a) + StatementTokens(b)
    ensures FileMeaning([a, b], f) == StatementMeaning(b, StatementMeaning(a, f))
    ensures !a.PackageStmt? && b.PackageStmt? ==> FilePackage([a, b], here) == PackageText(b.pkg)
  {
    hide StatementTokens, StatementMeaning, PackageText;
    assert [a, b][1..] == [b] && [b][1..] == [];
    assert StatementTokens(b) + [] == StatementTokens(b);
    assert FileTokens([b]) == StatementTokens(b);
    assert forall g :: FileMeaning([], g) == g;
    assert forall g :: FileMeaning([b], g) == StatementMeaning(b, g);
    assert FilePackage([b], here) == if b.PackageStmt? then PackageText(b.pkg) else here;
  }

  lemma LateText()
    ensures PackageText(LATE) == "p" && TypeText(LATE) == "p"
  {
    assert "" + "p" == "p";
  }

  lemma EarlyPackage()
    ensures FilePackage(EARLY, "") == "p"
  {
    hide FilePackage, PackageText;
    TwoStatements(EARLY[0], EARLY[1], NewFile, "");
    LateText();
  }

  lemma ServiceTokensHere()
    ensures StatementTokens(ServiceStmt(LONE)) == [N("service"), N("S"), P("{"), P("}")]
  {
    assert CallsTokens([]) == [];
    assert ServiceTokens(LONE) == [N("S")] + ([P("{")] + ([] + [P("}")]));
  }

  lemma PackageTokensHere()
    ensures StatementTokens(PackageStmt(LATE)) == [N("package"), N("p"), P(";")]
  {
    assert PathTokens(["p"]) == [N("p")];
    assert TypeTokens(LATE) == [N("p")];
  }

  lemma EarlyTokens()
    ensures FileTokens(EARLY) == [N("service"), N("S"), P("{"), P("}"), N("package"), N("p"), P(";")]
  {
    hide FileTokens, StatementTokens;
    TwoStatements(EARLY[0], EARLY[1], NewFile, "");
    ServiceTokensHere();
    PackageTokensHere();
  }

  lemma EarlyPrintable()
    ensures AllPrintable(FileTokens(EARLY))
  {
    hide FileTokens;
    EarlyTokens();
  }

  lemma PackageRendered()
    ensures (var rest := [N("package")] + ([N("p")] + ([P(";")] + []));
             Render(rest) == "package p ; " && Admitted(rest, Nesting(4, 0)))
  {
    hide Render, Admitted;
    RenderMore(N("package"), [N("p")] + ([P(";")] + []), Nesting(4, 0));
    RenderMore(N("p"), [P(";")] + [], Nesting(5, 0));
    RenderMore(P(";"), [], Nesting(6, 0));
    NothingLeft(Nesting(7, 0));
  }

  lemma EarlyText()
    ensures Render(FileTokens(EARLY)) == "service S { } package p ; " && Admitted(FileTokens(EARLY), Start)
  {
    hide Render, Admitted, FileTokens;
    EarlyTokens();
    PackageRendered();
    var rest := [N("package")] + ([N("p")] + ([P(";")] + []));
    var t3 := [P("}")] + rest;
    var t2 := [P("{")] + t3;
    var t1 := [N("S")] + t2;
    assert FileTokens(EARLY) == [N("service")] + t1;
    RenderMore(N("service"), t1, Start);
    RenderMore(N("S"), t2, Nesting(1, 0));
    RenderMore(P("{"), t3, Nesting(2, 0));
    RenderMore(P("}"), rest, Nesting(3, 1));
    EarlyLiteral();
  }

  lemma EarlyLiteral()
    ensures "service" + (" " + ("S" + (" " + ("{" + (" " + ("}" + (" " + "package p ; ")))))))
         == "service S { } package p ; "
  {
  }

  lemma EarlyItems()
    ensures (var service := [Item(1, TextP("S"))];
             Compiled.SetItems([EARLY_FILE]) == [Item(1, SubP([Item(2, TextP("p")), Item(6, SubP(service))]))])
  {
    var s := Compiled.ServiceDesc("S", []);
    assert Compiled.ServiceItems(s) == [Item(1, TextP("S"))];
    assert Compiled.ServicesItems([s]) == [Item(6, SubP(Compiled.ServiceItems(s)))];
    assert Compiled.FileItems(EARLY_FILE) == [Item(2, TextP("p")), Item(6, SubP([Item(1, TextP("S"))]))];
    assert [EARLY_FILE][1..] == [];
  }

  lemma EarlySmall()
    ensures |EncodeSet([EARLY_FILE])| <= MAX_DOCUMENT_BYTES && WithinLimits([EARLY_FILE])
  {
    hide EncodeItems, Compiled.SetItems, Bulk, Known, Tags, Shallow;
    EarlyItems();
    var title, pkg := Item(1, TextP("S")), Item(2, TextP("p"));
    var service := Item(6, SubP([title]));
    OneItem(title, ServiceK, 0);
    TwoItems(pkg, service, FileK, 0);
    OneItem(Item(1, SubP([pkg, service])), SetK, 0);
    Encodable([EARLY_FILE]);
    EncodedAtMost(Compiled.SetItems([EARLY_FILE]));
  }

  lemma Joined()
    ensures JoinName("", "S") == "S" && JoinName("p", "S") == "p.S"
  {
    hide JoinName, Plainly;
    NoDotsToTrim("");
    NoDotsToTrim("p");
    assert IsName("S");
    PlainJoined("", "S");
    PlainJoined("p", "S");
    assert "p" + ['.'] + "S" == "p.S";
  }

  lemma TextService()
    ensures (var f := FileMeaning(EARLY, NewFile); |f.services| == 1 && f.services[0].fullName == "S")
  {
    hide CallsMeaning, TypeText, JoinName, FileMeaning;
    TwoStatements(EARLY[0], EARLY[1], NewFile, "");
    Joined();
  }

  lemma CompiledService()
    ensures (var f := Compiled.FileMeaning(EARLY_FILE); |f.services| == 1 && f.services[0].fullName == "p.S")
  {
    hide Compiled.MethodsMeaning, Compiled.MessagesMeaning, Compiled.EnumsMeaning, Compiled.NonEmptyTexts, JoinName;
    Joined();
    assert EARLY_FILE.services[1..] == [];
    assert Compiled.ServicesMeaning([], "p") == [];
  }

  lemma OneService(f: File)
    requires |f.services| == 1 && f.services[0].fullName != ""
    ensures (var g := FinalizeFile(f);
             |g.services| == 1 && g.services[0].fullName == f.services[0].fullName && HasMetadata([f])
               && HasMetadata([g]))
  {
    hide FinalizeMethod, FinalizeMessages, FinalizeService;
    NameFinalized(f.services[0], f.pkg);
    ServicesOfFile(f);
    var one := Finalized(f.services, f.pkg);
    assert one == [FinalizeService(f.services[0], f.pkg)] && one[1..] == [];
    assert f in [f] && FinalizeFile(f) in [FinalizeFile(f)];
  }

  /** The text of a service before its package is accepted and read outside the package; the
      descriptor set compiled from it is accepted and read inside. */
  lemma PackageMissed()
    ensures (var r := ParseProtoText("service S { } package p ; ");
             r.Parsed? && |r.files| == 1 && |r.files[0].services| == 1 && r.files[0].services[0].fullName == "S")
    ensures (var r := WireModel.ParseDescriptorSet(EncodeSet([EARLY_FILE]));
             r.Model? && |r.files| == 1 && |r.files[0].services| == 1 && r.files[0].services[0].fullName == "p.S")
    ensures !SameServicesRead(ParseProtoText("service S { } package p ; "),
                              WireModel.ParseDescriptorSet(EncodeSet([EARLY_FILE])))
  {
    hide *;
    var text, compiled := FileMeaning(EARLY, NewFile), Compiled.FileMeaning(EARLY_FILE);
    EarlyShape();
    EarlyPackage();
    EarlyText();
    EarlyPrintable();
    TextService();
    CompiledService();
    OneService(text);
    OneService(compiled);
    OneFile(text);
    OneFile(compiled);
    TextRoundTrip(EARLY);
    EarlySmall();
    SetRoundTrip([EARLY_FILE]);
    OneCompiled(EARLY_FILE);
    Concluded(compiled);
    NotEmptyName();
    EarlyFilePackage();
    FrontEndsAgreeExactly(EARLY, EARLY_FILE);
  }

  lemma NotEmptyName()
    ensures "S" != "" && "p.S" != ""
  {
  }

  lemma EarlyFilePackage()
    ensures EARLY_FILE.pkg == "p"
  {
  }
}
