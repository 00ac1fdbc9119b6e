/** When the two front ends of grpcproto agree: what .proto text and the descriptor set
    compiled from it say about services. */
module ProtoAgreement {
  import opened Lexing
  import opened ProtoLexer
  import opened ProtoModel
  import opened ProtoSource
  import opened ProtoTextProofs
  import opened ProtoTextSpec
  import opened Ordering
  import opened Text
  import opened Wrappers
  import Compiled = Descriptors
  import DescriptorProofs
  import WireFormat
  import WireModel

  // ---------------------------------------------------------------- text

  /** parseProtoText */
  function ParseProtoText(input: string): Outcome {
    match Lex(input, Start)
    case None => Refused
    case Some(tokens) => ParseTokens(tokens)
  }

  /** Printing a canonical proto file, lexing and parsing it returns its metadata, exactly
      when its tokens stay within the limits of the lexer. */
  lemma TextRoundTrip(ss: seq<StatementSrc>)
    requires GoodFile(ss)
    requires AllPrintable(FileTokens(ss))
    ensures (var file := FileMeaning(ss, NewFile);
             ParseProtoText(Render(FileTokens(ss)))
             == if Admitted(FileTokens(ss), Start) && HasMetadata([file]) then Parsed(Finalize([file])) else Refused)
  {
    hide Lex, Render, FileTokens, FileMeaning, GoodFile, Finalize, ParseTokens, Admitted, AllPrintable;
    LexRendered(FileTokens(ss), Start);
    TokensRoundTrip(ss);
  }

  lemma OneFile(file: File)
    ensures Finalize([file]) == [FinalizeFile(file)]
  {
    hide FinalizeFile;
    assert FinalizeFile(file) == FinalizeFile([file][0]);
  }

  // ---------------------------------------------------------------- one source, two forms

  /** A descriptor names a type in full, with a leading dot; a relative name ends like it. */
  predicate Names(n: string, t: TypeSrc) {
    var end := "." + TypeText(t);
    && |n| >= |end| && n[|n| - |end|..] == end && n[0] == '.'
    && (t.absolute ==> n == end)
  }

  /** The call that a compiled method descriptor describes. */
  predicate SameCall(m: CallSrc, d: Compiled.MethodDesc) {
    && m.CallSrc? && d.name == m.name && Names(d.input, m.request) && Names(d.output, m.response)
    && d.clientStreaming == m.clientStreaming && d.serverStreaming == m.serverStreaming
  }

  predicate SameCalls(ms: seq<CallSrc>, ds: seq<Compiled.MethodDesc>) {
    if ms == [] then ds == []
    else if ms[0].CallSkip? then SameCalls(ms[1..], ds)
    else ds != [] && SameCall(ms[0], ds[0]) && SameCalls(ms[1..], ds[1..])
  }

  predicate SameService(s: ServiceSrc, d: Compiled.ServiceDesc) {
    d.name == s.name && SameCalls(s.items, d.methods)
  }

  /** The descriptors are those of the services in the file, in order. */
  predicate SameServices(ss: seq<StatementSrc>, ds: seq<Compiled.ServiceDesc>) {
    if ss == [] then ds == []
    else if !ss[0].ServiceStmt? then SameServices(ss[1..], ds)
    else ds != [] && SameService(ss[0].service, ds[0]) && SameServices(ss[1..], ds[1..])
  }

  /** The type names of a call, or of all calls of a service or file, are written in full. */
  predicate CallInFull(m: CallSrc, d: Compiled.MethodDesc) {
    m.CallSrc? && d.input == "." + TypeText(m.request) && d.output == "." + TypeText(m.response)
  }

  predicate CallsInFull(ms: seq<CallSrc>, ds: seq<Compiled.MethodDesc>)
    requires SameCalls(ms, ds)
  {
    if ms == [] then true
    else if ms[0].CallSkip? then CallsInFull(ms[1..], ds)
    else CallInFull(ms[0], ds[0]) && CallsInFull(ms[1..], ds[1..])
  }

  predicate ServicesInFull(ss: seq<StatementSrc>, ds: seq<Compiled.ServiceDesc>)
    requires SameServices(ss, ds)
  {
    if ss == [] then true
    else if !ss[0].ServiceStmt? then ServicesInFull(ss[1..], ds)
    else CallsInFull(ss[0].service.items, ds[0].methods) && ServicesInFull(ss[1..], ds[1..])
  }

  lemma CompiledType(t: TypeSrc, n: string)
    requires GoodType(t) && Names(n, t)
    ensures NormalizeTypeName(n) == n[1..] != ""
    ensures NormalizeTypeName(n) == TypeText(t) <==> n == "." + TypeText(t)
  {
    hide TrimSpace, Join;
    JoinTrimmed(t.path);
    var end := "." + TypeText(t);
    assert n[|n| - 1] == end[|end| - 1] && n[1] == n[1..][0];
    TrimSpaceFixes(n);
    assert n == [n[0]] + n[1..] && end == "." + end[1..];
  }

  /** Two methods of one package that finalization makes equal. */
  predicate Alike(a: Method, b: Method) {
    && a.name == b.name && a.requestType == b.requestType && a.responseType == b.responseType
    && a.clientStreaming == b.clientStreaming && a.serverStreaming == b.serverStreaming
  }

  predicate AllAlike(a: seq<Method>, b: seq<Method>) {
    |a| == |b| && forall i :: 0 <= i < |a| ==> Alike(a[i], b[i])
  }

  predicate AllIn(pkg: string, methods: seq<Method>) {
    forall m <- methods :: m.pkg == pkg
  }

  lemma CallAlike(m: CallSrc, d: Compiled.MethodDesc, service: string, pkg: string)
    requires GoodCall(m) && SameCall(m, d)
    ensures (var a, b := CallMeaning(m, service, pkg), Compiled.MethodMeaning(d, pkg);
             |a| == |b| == 1 && a[0].pkg == b[0].pkg == pkg && (Alike(a[0], b[0]) <==> CallInFull(m, d)))
  {
    hide NormalizeTypeName, TypeText, GoodType, IsName, Names;
    GoodNameNotEmpty(m.name);
    CompiledType(m.request, d.input);
    CompiledType(m.response, d.output);
  }

  lemma {:induction false} CallsAlike(ms: seq<CallSrc>, ds: seq<Compiled.MethodDesc>, service: string, pkg: string)
    requires (forall i :: 0 <= i < |ms| ==> GoodCall(ms[i])) && SameCalls(ms, ds)
    ensures (var a, b := CallsMeaning(ms, service, pkg), Compiled.MethodsMeaning(ds, pkg);
             |a| == |b| && AllIn(pkg, a) && AllIn(pkg, b) && (AllAlike(a, b) <==> CallsInFull(ms, ds)))
    decreases |ms|
  {
    hide GoodCall, SameCall, CallInFull, CallMeaning, Compiled.MethodMeaning, Alike;
    if ms != [] {
      if ms[0].CallSkip? {
        CallsAlike(ms[1..], ds, service, pkg);
        SkipMeansNothing(ms[0], service, pkg);
        assert [] + CallsMeaning(ms[1..], service, pkg) == CallsMeaning(ms[1..], service, pkg);
      } else {
        CallAlike(ms[0], ds[0], service, pkg);
        CallsAlike(ms[1..], ds[1..], service, pkg);
        AlikeCons(CallMeaning(ms[0], service, pkg), CallsMeaning(ms[1..], service, pkg),
                  Compiled.MethodMeaning(ds[0], pkg), Compiled.MethodsMeaning(ds[1..], pkg));
      }
    }
  }

  lemma AlikeCons(x: seq<Method>, a: seq<Method>, y: seq<Method>, b: seq<Method>)
    requires |x| == |y| == 1 && |a| == |b|
    ensures AllAlike(x + a, y + b) <==> Alike(x[0], y[0]) && AllAlike(a, b)
  {
    hide Alike;
    assert (x + a)[0] == x[0] && (y + b)[0] == y[0];
    assert forall i :: 0 <= i < |a| ==> (x + a)[i + 1] == a[i] && (y + b)[i + 1] == b[i];
  }

  lemma SkipMeansNothing(m: CallSrc, service: string, pkg: string)
    requires m.CallSkip?
    ensures CallMeaning(m, service, pkg) == []
  {
  }

  /** After finalization the service of the text is the service of the descriptor, exactly when
      its calls write their types in full. */
  lemma ServiceAgrees(s: ServiceSrc, d: Compiled.ServiceDesc, pkg: string)
    requires GoodService(s) && SameService(s, d)
    ensures |Compiled.ServiceMeaning(d, pkg)| == 1
    ensures FinalizeService(ServiceMeaning(s, pkg), pkg) == FinalizeService(Compiled.ServiceMeaning(d, pkg)[0], pkg)
       <==> CallsInFull(s.items, d.methods)
  {
    hide GoodCall, SameCalls, CallsInFull, IsName, JoinName, Alike, CallsMeaning, Compiled.MethodsMeaning,
         FinalizeMethod;
    GoodNameNotEmpty(s.name);
    CallsAlike(s.items, d.methods, JoinName(pkg, s.name), pkg);
    MethodsFinalized(ServiceMeaning(s, pkg), Compiled.ServiceMeaning(d, pkg)[0], pkg);
  }

  lemma MethodsFinalized(a: Service, b: Service, pkg: string)
    requires a.(methods := b.methods) == b && |a.methods| == |b.methods|
    requires AllIn(a.pkg, a.methods) && AllIn(a.pkg, b.methods)
    ensures FinalizeService(a, pkg) == FinalizeService(b, pkg) <==> AllAlike(a.methods, b.methods)
  {
    hide FinalizeMethod, JoinName, Alike;
    var x, y := FinalizeService(a, pkg), FinalizeService(b, pkg);
    var s := a.(pkg := if a.pkg == "" then pkg else a.pkg);
    var t := s.(fullName := if s.fullName == "" then JoinName(s.pkg, s.name) else s.fullName);
    forall i | 0 <= i < |a.methods| ensures x.methods[i] == y.methods[i] <==> Alike(a.methods[i], b.methods[i]) {
      assert a.methods[i] in a.methods && b.methods[i] in b.methods;
      AlikeFinalized(a.methods[i], b.methods[i], t, t.(methods := b.methods));
    }
    assert x.(methods := y.methods) == y;
    assert (forall i :: 0 <= i < |a.methods| ==> x.methods[i] == y.methods[i]) <==> x.methods == y.methods;
  }

  lemma AlikeFinalized(a: Method, b: Method, s: Service, t: Service)
    requires a.pkg == b.pkg && t == s.(methods := t.methods)
    ensures FinalizeMethod(a, s) == FinalizeMethod(b, t) <==> Alike(a, b)
  {
    hide JoinName, MethodSelector, FirstNonEmpty;
  }

  function Finalized(services: seq<Service>, pkg: string): seq<Service> {
    seq(|services|, i requires 0 <= i < |services| => FinalizeService(services[i], pkg))
  }

  // ---------------------------------------------------------------- packages

  function PackageText(t: TypeSrc): string {
    (if t.absolute then "." else "") + TypeText(t)
  }

  /** The package the statements leave the file in. */
  function FilePackage(ss: seq<StatementSrc>, here: string): string
    decreases |ss|
  {
    if ss == [] then here else FilePackage(ss[1..], if ss[0].PackageStmt? then PackageText(ss[0].pkg) else here)
  }

  /** Every service stands where the package is already that of the file. */
  predicate Scoped(ss: seq<StatementSrc>, here: string, pkg: string)
    decreases |ss|
  {
    if ss == [] then true
    else
      && (ss[0].ServiceStmt? ==> here == pkg)
      && Scoped(ss[1..], if ss[0].PackageStmt? then PackageText(ss[0].pkg) else here, pkg)
  }

  /** A compiler accepts no leading dot in a package. */
  predicate Relative(ss: seq<StatementSrc>) {
    forall i :: 0 <= i < |ss| && ss[i].PackageStmt? ==> !ss[i].pkg.absolute
  }

  /** A service statement before a package statement. */
  predicate ServiceEarly(ss: seq<StatementSrc>) {
    exists i, j :: 0 <= i < j < |ss| && ss[i].ServiceStmt? && ss[j].PackageStmt?
  }

  predicate OnePackage(ss: seq<StatementSrc>) {
    forall i, j :: 0 <= i < j < |ss| && ss[i].PackageStmt? ==> !ss[j].PackageStmt?
  }

  lemma StatementServices(s: StatementSrc, f: File)
    ensures (var g := StatementMeaning(s, f);
             && g.pkg == (if s.PackageStmt? then PackageText(s.pkg) else f.pkg)
             && g.services == f.services + if s.ServiceStmt? then [ServiceMeaning(s.service, f.pkg)] else [])
  {
    hide ServiceMeaning, MessageMeaning, EnumMeaning;
    assert f.services + [] == f.services;
  }

  /** The services that the statements add in the packages they name. */
  function TextServices(ss: seq<StatementSrc>, here: string): seq<Service>
    decreases |ss|
  {
    if ss == [] then []
    else
      (if ss[0].ServiceStmt? then [ServiceMeaning(ss[0].service, here)] else [])
      + TextServices(ss[1..], if ss[0].PackageStmt? then PackageText(ss[0].pkg) else here)
  }

  lemma {:induction false} ServicesListed(ss: seq<StatementSrc>, f: File)
    ensures FileMeaning(ss, f).services == f.services + TextServices(ss, f.pkg)
    decreases |ss|
  {
    hide StatementMeaning, ServiceMeaning, PackageText;
    if ss == [] {
      assert f.services + [] == f.services;
    } else {
      var g := StatementMeaning(ss[0], f);
      var here := if ss[0].ServiceStmt? then [ServiceMeaning(ss[0].service, f.pkg)] else [];
      StatementServices(ss[0], f);
      ServicesListed(ss[1..], g);
      assert (f.services + here) + TextServices(ss[1..], g.pkg) == f.services + (here + TextServices(ss[1..], g.pkg));
    }
  }

  // ---------------------------------------------------------------- full names tell packages apart

  lemma {:induction false} JoinEnds(path: seq<string>)
    requires path != [] && forall i :: 0 <= i < |path| ==> IsName(path[i])
    ensures (var s := Join(path, "."); s != "" && s[|s| - 1] != '.')
  {
    hide IsName;
    NameTrimmed(path[|path| - 1]);
    if |path| > 1 {
      JoinEnds(path[1..]);
    }
  }

  /** A package that joinName leaves as it is. */
  predicate Plainly(pkg: string) {
    NamePart(pkg) == pkg
  }

  lemma NoDotsToTrim(s: string)
    requires s != "" ==> s[0] != '.' && s[|s| - 1] != '.' && !IsSpace(s[0]) && !IsSpace(s[|s| - 1])
    ensures Plainly(s)
  {
    hide TrimSpace;
    TrimSpaceFixes(s);
  }

  lemma PackagePlain(t: TypeSrc)
    requires GoodType(t) && !t.absolute
    ensures Plainly(PackageText(t)) && PackageText(t) != ""
  {
    hide Plainly, Join;
    JoinTrimmed(t.path);
    JoinEnds(t.path);
    assert "" + TypeText(t) == TypeText(t);
    NoDotsToTrim(TypeText(t));
  }

  lemma NamePlain(name: string)
    requires IsName(name)
    ensures Plainly(name) && name != "" && '.' !in name
  {
    NameTrimmed(name);
    NoDotsToTrim(name);
  }

  lemma PlainJoined(pkg: string, name: string)
    requires Plainly(pkg) && IsName(name)
    ensures JoinName(pkg, name) == (if pkg == "" then name else pkg + ['.'] + name) != ""
  {
    hide NamePart;
    NamePlain(name);
  }

  lemma JoinedApart(p: string, m: string, q: string, n: string)
    requires Plainly(p) && Plainly(q) && IsName(m) && IsName(n) && p != q
    ensures JoinName(p, m) != JoinName(q, n)
  {
    hide JoinName, Plainly, IsName;
    PlainJoined(p, m);
    PlainJoined(q, n);
    NamePlain(m);
    NamePlain(n);
    if p != "" && q != "" && p + ['.'] + m == q + ['.'] + n {
      SplitUniqueRight(p, m, q, n, '.');
    }
    assert p != "" ==> (p + ['.'] + m)[|p|] == '.';
    assert q != "" ==> (q + ['.'] + n)[|q|] == '.';
  }

  /** The full name of something declared in the package. */
  ghost predicate InPackage(n: string, pkg: string) {
    exists name: string :: IsName(name) && n == JoinName(pkg, name)
  }

  ghost function Home(pkg: string): string -> bool {
    n => InPackage(n, pkg)
  }

  /** A name is joined to its package, and then is in no other. */
  lemma DeclaredIn(here: string, pkg: string, name: string)
    requires Plainly(here) && Plainly(pkg) && IsName(name)
    ensures Home(here)(JoinName(here, name)) && JoinName(here, name) != ""
    ensures here != pkg ==> !Home(pkg)(JoinName(here, name)) && JoinName(here, name) != JoinName(pkg, name)
  {
    hide JoinName, Plainly, IsName;
    PlainJoined(here, name);
    if here != pkg {
      forall n: string | IsName(n) ensures JoinName(here, name) != JoinName(pkg, n) {
        JoinedApart(here, name, pkg, n);
      }
    }
  }

  lemma PackageGood(s: StatementSrc)
    requires GoodStatement(s) && s.PackageStmt?
    ensures GoodType(s.pkg)
  {
  }

  lemma NameFinalized(x: Service, pkg: string)
    requires x.fullName != ""
    ensures FinalizeService(x, pkg).fullName == x.fullName
  {
    hide FinalizeMethod;
  }

  /** A service read in another package keeps that in its full name. */
  lemma ServiceMatches(s: StatementSrc, d: Compiled.ServiceDesc, here: string, pkg: string)
    requires GoodStatement(s) && s.ServiceStmt? && SameService(s.service, d) && Plainly(here) && Plainly(pkg)
    ensures |Compiled.ServiceMeaning(d, pkg)| == 1
    ensures (var x := FinalizeService(ServiceMeaning(s.service, here), pkg);
             var y := FinalizeService(Compiled.ServiceMeaning(d, pkg)[0], pkg);
             && Home(pkg)(y.fullName) && (x.fullName == y.fullName || !Home(pkg)(x.fullName))
             && (x == y <==> here == pkg && CallsInFull(s.service.items, d.methods)))
  {
    hide JoinName, Plainly, SameCalls, CallsInFull, CallsMeaning, Compiled.MethodsMeaning, FinalizeService, Home,
         GoodCall, IsName;
    ServiceAgrees(s.service, d, pkg);
    DeclaredIn(here, pkg, s.service.name);
    DeclaredIn(pkg, pkg, s.service.name);
    NameFinalized(ServiceMeaning(s.service, here), pkg);
    NameFinalized(Compiled.ServiceMeaning(d, pkg)[0], pkg);
  }

  lemma FinalizedCons(x: Service, a: seq<Service>, pkg: string)
    ensures Finalized([x] + a, pkg) == [FinalizeService(x, pkg)] + Finalized(a, pkg)
  {
    hide FinalizeService;
  }

  /** The services of the text are those of the descriptor exactly when they are in scope and
      their calls write their types in full. */
  lemma {:induction false} ServicesMatch(ss: seq<StatementSrc>, ds: seq<Compiled.ServiceDesc>, here: string,
                                         pkg: string)
    requires GoodFile(ss) && Relative(ss) && SameServices(ss, ds) && Plainly(here) && Plainly(pkg)
    ensures (var a, b := Finalized(TextServices(ss, here), pkg), Finalized(Compiled.ServicesMeaning(ds, pkg), pkg);
             && Placed(ServiceKey, a, b, Home(pkg))
             && (a == b <==> Scoped(ss, here, pkg) && ServicesInFull(ss, ds)))
    decreases |ss|
  {
    hide ServiceMeaning, Compiled.ServiceMeaning, FinalizeService, SameService, CallsInFull, GoodStatement, Plainly,
         PackageText, Home, Finalized, Placed;
    if ss == [] {
      NothingPlaced(pkg);
    } else {
      assert GoodStatement(ss[0]);
      var next := if ss[0].PackageStmt? then PackageText(ss[0].pkg) else here;
      if ss[0].PackageStmt? {
        PackageGood(ss[0]);
        PackagePlain(ss[0].pkg);
      }
      if ss[0].ServiceStmt? {
        ServiceMatches(ss[0], ds[0], here, pkg);
        ServicesMatch(ss[1..], ds[1..], here, pkg);
        var x, y := ServiceMeaning(ss[0].service, here), Compiled.ServiceMeaning(ds[0], pkg);
        var a, b := TextServices(ss[1..], here), Compiled.ServicesMeaning(ds[1..], pkg);
        assert y == [y[0]];
        FinalizedCons(x, a, pkg);
        FinalizedCons(y[0], b, pkg);
        PlacedCons(ServiceKey, FinalizeService(x, pkg), Finalized(a, pkg), FinalizeService(y[0], pkg),
                   Finalized(b, pkg), Home(pkg));
      } else {
        ServicesMatch(ss[1..], ds, next, pkg);
        assert [] + TextServices(ss[1..], next) == TextServices(ss[1..], next);
      }
    }
  }

  lemma NothingPlaced(pkg: string)
    ensures Finalized([], pkg) == [] && Placed(ServiceKey, [], [], Home(pkg))
  {
  }

  lemma ServicesOfFile(f: File)
    ensures FinalizeFile(f).services == SortBy(ServiceKey, Finalized(f.services, f.pkg))
  {
    hide FinalizeService, FinalizeMessages, SortBy;
    var services := seq(|f.services|, i requires 0 <= i < |f.services| => FinalizeService(f.services[i], f.pkg));
    assert services == Finalized(f.services, f.pkg);
  }

  lemma {:induction false} PackageOfFile(ss: seq<StatementSrc>, f: File)
    requires GoodFile(ss) && Relative(ss) && Plainly(f.pkg)
    ensures FileMeaning(ss, f).pkg == FilePackage(ss, f.pkg) && Plainly(FilePackage(ss, f.pkg))
    decreases |ss|
  {
    hide StatementMeaning, GoodStatement, Plainly, PackageText;
    if ss != [] {
      StatementServices(ss[0], f);
      assert GoodStatement(ss[0]);
      if ss[0].PackageStmt? {
        PackageGood(ss[0]);
        PackagePlain(ss[0].pkg);
      }
      PackageOfFile(ss[1..], StatementMeaning(ss[0], f));
    }
  }

  /** A file and the descriptor compiled from it have the same services, in the same order,
      with the same method IDs, selectors, types and streaming flags, exactly when every
      service stands where the package is already that of the file and every call writes its
      types in full. */
  lemma FilesAgreeExactly(ss: seq<StatementSrc>, d: Compiled.FileDesc)
    requires GoodFile(ss) && Relative(ss)
    requires d.pkg == FilePackage(ss, "") && SameServices(ss, d.services)
    ensures FinalizeFile(FileMeaning(ss, NewFile)).services == FinalizeFile(Compiled.FileMeaning(d)).services
       <==> Scoped(ss, "", d.pkg) && ServicesInFull(ss, d.services)
  {
    hide FileMeaning, GoodFile, SameServices, FinalizeService, SortBy, Compiled.ServicesMeaning, ServicesInFull,
         Compiled.MessagesMeaning, Compiled.EnumsMeaning, Scoped, FilePackage, Relative, Plainly, Placed, Home;
    var text, compiled := FileMeaning(ss, NewFile), Compiled.FileMeaning(d);
    NoDotsToTrim("");
    PackageOfFile(ss, NewFile);
    ServicesOfFile(text);
    ServicesOfFile(compiled);
    ServicesListed(ss, NewFile);
    assert [] + TextServices(ss, "") == TextServices(ss, "");
    ServicesMatch(ss, d.services, "", d.pkg);
    SortedAgree(ServiceKey, Finalized(text.services, d.pkg), Finalized(compiled.services, d.pkg), Home(d.pkg));
  }

  lemma {:induction false} ScopedFrom(ss: seq<StatementSrc>, here: string)
    requires forall i :: 0 <= i < |ss| ==> !ss[i].PackageStmt?
    ensures FilePackage(ss, here) == here && Scoped(ss, here, here)
    decreases |ss|
  {
    if ss != [] {
      ScopedFrom(ss[1..], here);
    }
  }

  lemma {:induction false} FirstPackage(ss: seq<StatementSrc>, here: string, i: nat)
    requires i < |ss| && ss[i].PackageStmt? && forall j :: 0 <= j < |ss| && j != i ==> !ss[j].PackageStmt?
    ensures FilePackage(ss, here) == PackageText(ss[i].pkg)
    ensures here != PackageText(ss[i].pkg) ==>
              (Scoped(ss, here, PackageText(ss[i].pkg)) <==> forall j :: 0 <= j < i ==> !ss[j].ServiceStmt?)
    decreases |ss|
  {
    hide PackageText;
    if i == 0 {
      ScopedFrom(ss[1..], PackageText(ss[0].pkg));
    } else {
      assert ss[1..][i - 1] == ss[i];
      FirstPackage(ss[1..], here, i - 1);
      assert (forall j :: 0 <= j < i ==> !ss[j].ServiceStmt?)
        <==> !ss[0].ServiceStmt? && forall j :: 0 <= j < i - 1 ==> !ss[1..][j].ServiceStmt? by {
        if !ss[0].ServiceStmt? && forall j :: 0 <= j < i - 1 ==> !ss[1..][j].ServiceStmt? {
          forall j | 0 <= j < i ensures !ss[j].ServiceStmt? {
            assert j > 0 ==> ss[j] == ss[1..][j - 1];
          }
        }
      }
    }
  }

  /** In a file with at most one package statement, every service is in scope exactly when
      none stands before it: `syntax`, imports, options and types may. */
  lemma ScopedExactly(ss: seq<StatementSrc>)
    requires GoodFile(ss) && Relative(ss) && OnePackage(ss)
    ensures Scoped(ss, "", FilePackage(ss, "")) <==> !ServiceEarly(ss)
  {
    hide GoodStatement, PackageText, Scoped, FilePackage;
    if i :| 0 <= i < |ss| && ss[i].PackageStmt? {
      assert GoodStatement(ss[i]);
      PackageGood(ss[i]);
      PackagePlain(ss[i].pkg);
      FirstPackage(ss, "", i);
    } else {
      ScopedFrom(ss, "");
    }
  }

  /** One file each, with the same services; the descriptor set is refused only when there
      are none. */
  predicate SameServicesRead(text: Outcome, binary: WireModel.Parsed) {
    && text.Parsed? && |text.files| == 1
    && (binary.Model? ==> |binary.files| == 1 && text.files[0].services == binary.files[0].services)
    && (text.files[0].services != [] ==> binary.Model?)
  }

  /** Reading the text of a file and reading the descriptor set compiled from it give the
      same services exactly when no service stands before the package statement and every call
      writes its types in full. */
  lemma FrontEndsAgreeExactly(ss: seq<StatementSrc>, d: Compiled.FileDesc)
    requires GoodFile(ss) && Relative(ss) && OnePackage(ss) && AllPrintable(FileTokens(ss))
    requires d.pkg == FilePackage(ss, "") && SameServices(ss, d.services)
    requires ParseProtoText(Render(FileTokens(ss))).Parsed?
    requires |DescriptorProofs.EncodeSet([d])| <= WireFormat.MAX_DOCUMENT_BYTES && DescriptorProofs.WithinLimits([d])
    ensures SameServicesRead(ParseProtoText(Render(FileTokens(ss))),
                             WireModel.ParseDescriptorSet(DescriptorProofs.EncodeSet([d])))
       <==> !ServiceEarly(ss) && ServicesInFull(ss, d.services)
  {
    hide *;
    var text, compiled := FileMeaning(ss, NewFile), Compiled.FileMeaning(d);
    TextRoundTrip(ss);
    OneFile(text);
    DescriptorProofs.SetRoundTrip([d]);
    OneCompiled(d);
    OneFile(compiled);
    FilesAgreeExactly(ss, d);
    ScopedExactly(ss);
    Concluded(compiled);
    if ServiceEarly(ss) || !ServicesInFull(ss, d.services) {
      HasServices(ss, d);
    }
    ReadMeans(ParseProtoText(Render(FileTokens(ss))), WireModel.ParseDescriptorSet(DescriptorProofs.EncodeSet([d])));
  }

  lemma ReadMeans(text: Outcome, binary: WireModel.Parsed)
    requires text.Parsed? && |text.files| == 1 && (binary.Model? ==> |binary.files| == 1)
    ensures SameServicesRead(text, binary) <==>
              && (binary.Model? ==> text.files[0].services == binary.files[0].services)
              && (text.files[0].services != [] ==> binary.Model?)
  {
  }

  lemma Concluded(f: File)
    ensures (var r := WireModel.Conclude([f]);
             && (r.Model? ==> r.files == Finalize([f]))
             && (!r.Model? ==> FinalizeFile(f).services == []))
  {
    hide FinalizeService, FinalizeMessages;
    OneFile(f);
    assert FinalizeFile(f) in Finalize([f]);
  }

  lemma OneConcluded(f: File)
    requires HasMetadata(Finalize([f]))
    ensures WireModel.Conclude([f]) == WireModel.Model(Finalize([f]))
  {
  }

  /** A file with a service compiles to a descriptor with one. */
  lemma HasServices(ss: seq<StatementSrc>, d: Compiled.FileDesc)
    requires GoodFile(ss) && SameServices(ss, d.services) && (ServiceEarly(ss) || !ServicesInFull(ss, d.services))
    ensures FinalizeFile(Compiled.FileMeaning(d)).services != []
  {
    hide Compiled.ServicesMeaning, FinalizeService, FinalizeMessages, Compiled.MessagesMeaning, Compiled.EnumsMeaning,
         GoodFile, SameServices, ServicesInFull, SortBy;
    var i: nat;
    if ServiceEarly(ss) {
      var j: nat;
      i, j :| 0 <= i < j < |ss| && ss[i].ServiceStmt? && ss[j].PackageStmt?;
    } else {
      i := SomeService(ss, d.services);
    }
    CompiledSome(ss, d.services, d.pkg, i);
    var f := Compiled.FileMeaning(d);
    ServicesOfFile(f);
    SortBySorts(ServiceKey, Finalized(f.services, f.pkg));
    assert |multiset(SortBy(ServiceKey, Finalized(f.services, f.pkg)))| == |multiset(Finalized(f.services, f.pkg))|
        == |f.services|;
  }

  lemma {:induction false} SomeService(ss: seq<StatementSrc>, ds: seq<Compiled.ServiceDesc>) returns (i: nat)
    requires SameServices(ss, ds) && !ServicesInFull(ss, ds)
    ensures i < |ss| && ss[i].ServiceStmt?
    decreases |ss|
  {
    hide SameService, CallsInFull;
    if ss[0].ServiceStmt? {
      i := 0;
    } else {
      i := SomeService(ss[1..], ds);
      i := i + 1;
    }
  }

  lemma {:induction false} CompiledSome(ss: seq<StatementSrc>, ds: seq<Compiled.ServiceDesc>, pkg: string, i: nat)
    requires GoodFile(ss) && SameServices(ss, ds) && i < |ss| && ss[i].ServiceStmt?
    ensures Compiled.ServicesMeaning(ds, pkg) != []
    decreases |ss|
  {
    hide GoodStatement, SameService, Compiled.ServiceMeaning, GoodService;
    if ss[0].ServiceStmt? {
      assert GoodStatement(ss[0]);
      ServiceNamed(ss[0], ds[0], pkg);
    } else {
      assert ss[1..][i - 1] == ss[i];
      CompiledSome(ss[1..], ds, pkg, i - 1);
    }
  }

  lemma ServiceNamed(s: StatementSrc, d: Compiled.ServiceDesc, pkg: string)
    requires GoodStatement(s) && s.ServiceStmt? && SameService(s.service, d)
    ensures Compiled.ServiceMeaning(d, pkg) != []
  {
    hide SameCalls, JoinName;
    GoodNameNotEmpty(s.service.name);
  }

  lemma OneCompiled(d: Compiled.FileDesc)
    ensures Compiled.SetMeaning([d]) == [Compiled.FileMeaning(d)]
  {
    hide Compiled.FileMeaning;
  }

  // ---------------------------------------------------------------- enums

  predicate SameValues(vs: seq<ValueSrc>, ds: seq<Compiled.ValueDesc>) {
    if vs == [] then ds == []
    else if vs[0].ValueSkip? then SameValues(vs[1..], ds)
    else ds != [] && ds[0].name == vs[0].name && ds[0].number == vs[0].number && SameValues(vs[1..], ds[1..])
  }

  predicate NonNegative(vs: seq<ValueSrc>) {
    forall i :: 0 <= i < |vs| ==> vs[i].ValueSrc? ==> vs[i].number >= 0
  }

  lemma {:induction false} ValuesAgree(vs: seq<ValueSrc>, ds: seq<Compiled.ValueDesc>)
    requires GoodValues(vs) && SameValues(vs, ds)
    ensures |ValuesMeaning(vs)| == |Compiled.ValuesMeaning(ds)|
    ensures ValuesMeaning(vs) == Compiled.ValuesMeaning(ds) <==> NonNegative(vs)
    decreases |vs|
  {
    hide IsName, Plain;
    if vs != [] {
      var rest := vs[1..];
      assert NonNegative(vs) <==> (vs[0].ValueSrc? ==> vs[0].number >= 0) && NonNegative(rest);
      assert GoodValue(vs[0]);
      if vs[0].ValueSkip? {
        ValuesAgree(rest, ds);
        assert ValuesMeaning(vs) == ValuesMeaning(rest);
      } else {
        GoodNameNotEmpty(vs[0].name);
        ValuesAgree(rest, ds[1..]);
        var a, b := ValueMeaning(vs[0]), Compiled.ValueMeaning(ds[0]);
        assert a == b <==> vs[0].number >= 0;
        ConsAgree(a[0], ValuesMeaning(rest), b[0], Compiled.ValuesMeaning(ds[1..]));
      }
    }
  }

  lemma ConsAgree(x: EnumValue, a: seq<EnumValue>, y: EnumValue, b: seq<EnumValue>)
    ensures [x] + a == [y] + b <==> x == y && a == b
  {
    if [x] + a == [y] + b {
      assert ([x] + a)[0] == ([y] + b)[0];
      assert ([x] + a)[1..] == ([y] + b)[1..];
    }
  }

  /** The front ends agree on an enum exactly when none of its numbers is negative: the
      descriptor keeps a negative number, the text parser reads it as 0. */
  lemma EnumsAgreeExactly(e: EnumSrc, d: Compiled.EnumDesc, pkg: string, parent: string)
    requires GoodEnum(e) && d.name == e.name && SameValues(e.items, d.values)
    ensures Compiled.EnumMeaning(d, pkg, parent) == [EnumMeaning(e, pkg, parent)] <==> NonNegative(e.items)
  {
    hide IsName, JoinName, GoodValues, ValuesMeaning, Compiled.ValuesMeaning, SameValues, NonNegative;
    GoodNameNotEmpty(e.name);
    ValuesAgree(e.items, d.values);
  }
}
