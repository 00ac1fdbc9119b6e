/** Malformed statements of .proto text: what the parser passes over, and what goes with it. */
module ProtoRecovery {
  import opened Lexing
  import opened ProtoModel
  import opened ProtoSource
  import opened ProtoTextProofs
  import opened ProtoTextSpec
  import opened Text
  import opened Tokens
  import opened Wrappers

  // ---------------------------------------------------------------- the end of a statement

  /** A semicolon, or a block whose braces match. */
  datatype End = Semicolon | Braces(body: seq<Token>)

  predicate GoodEnd(e: End) {
    e.Braces? ==> Closed(e.body, "{", "}", 0)
  }

  function EndTokens(e: End): seq<Token> {
    match e
    case Semicolon => [P(";")]
    case Braces(body) => [P("{")] + (body + [P("}")])
  }

  /** The rest of a statement: anything without braces and semicolons, and its end. */
  function TailTokens(tokens: seq<Token>, e: End): seq<Token> {
    tokens + EndTokens(e)
  }

  lemma EndSkipped(e: End, c: Cursor)
    requires GoodEnd(e)
    ensures (var b := Before(EndTokens(e), c);
             && SkipStatement(b) == c && SkipStatementOrBlock(b) == c
             && b.rest != [] && b.rest[0] == (if e.Semicolon? then P(";") else P("{")))
  {
    hide Close, Closed;
    match e {
      case Semicolon => BeforeOne(P(";"), c);
      case Braces(body) =>
        BeforeCons(P("{"), body + [P("}")], c);
        ClosesAfter(body, "{", P("}"), 0, c);
    }
  }

  /** The rest of a statement is passed over, with nested blocks in it. */
  lemma {:induction false} TailSkipped(tokens: seq<Token>, e: End, c: Cursor)
    requires Plain(tokens) && GoodEnd(e)
    ensures (var b := Before(TailTokens(tokens, e), c);
             && SkipStatement(b) == c && SkipStatementOrBlock(b) == c && b.rest != []
             && b.rest[0] == if tokens != [] then tokens[0] else if e.Semicolon? then P(";") else P("{"))
    decreases |tokens|
  {
    hide EndTokens, GoodEnd;
    if tokens == [] {
      EndSkipped(e, c);
      assert TailTokens(tokens, e) == EndTokens(e);
    } else {
      assert tokens[0].value !in {";", "{", "}"};
      BeforeCons(tokens[0], TailTokens(tokens[1..], e), c);
      assert TailTokens(tokens, e) == [tokens[0]] + TailTokens(tokens[1..], e);
      TailSkipped(tokens[1..], e, c);
    }
  }

  // ---------------------------------------------------------------- fields

  /** A field that lacks its name, its equals sign or its number. */
  datatype BrokenField = Nameless | Unequal(name: string) | Numberless(name: string, instead: Token)

  function BrokenTokens(cardinality: string, typ: TypeSrc, broken: BrokenField): seq<Token> {
    (if cardinality == "" then [] else [N(cardinality)])
    + (TypeTokens(typ) + (match broken
                          case Nameless => []
                          case Unequal(name) => [N(name)]
                          case Numberless(name, instead) => [N(name)] + ([P("=")] + [instead])))
  }

  predicate GoodTypeHere(cardinality: string, typ: TypeSrc) {
    && GoodType(typ) && (cardinality == "" || IsLabel(cardinality))
    && (typ.absolute || (typ.path[0] != "map"
                           && (cardinality == "" ==> typ.path[0] !in BODY_KEYWORDS && !IsLabel(typ.path[0]))))
  }

  /** What follows cannot be taken for what is missing. */
  predicate IsBroken(broken: BrokenField, next: Token) {
    match broken
    case Nameless => next.kind != Name && next.value != "."
    case Unequal(name) => IsName(name) && next.value != "="
    case Numberless(name, instead) =>
      IsName(name) && instead.kind != Number && instead.kind != Name && instead.value !in {";", "{", "}"}
  }

  function FirstOf(tokens: seq<Token>, e: End): Token {
    if tokens != [] then tokens[0] else if e.Semicolon? then P(";") else P("{")
  }

  /** The statement is no field, and its type is read before that is found out. */
  lemma BrokenRead(cardinality: string, typ: TypeSrc, broken: BrokenField, c: Cursor)
    requires GoodTypeHere(cardinality, typ) && c.rest != [] && IsBroken(broken, c.rest[0])
    ensures ParseField(Before(BrokenTokens(cardinality, typ, broken), c)) == (None, c)
  {
    hide GoodType, IsName, TypeTokens, NormalizeTypeName, QualifiedName, FieldEnd, SkipBalanced;
    var rest := match broken
                case Nameless => []
                case Unequal(name) => [N(name)]
                case Numberless(name, instead) => [N(name)] + ([P("=")] + [instead]);
    var typed := Before(TypeTokens(typ) + rest, c);
    BrokenEnds(broken, rest, cardinality, TypeText(typ), c);
    TypeRead(typ, Before(rest, c));
    BeforeJoin(TypeTokens(typ), rest, c);
    if cardinality == "" {
      assert BrokenTokens(cardinality, typ, broken) == TypeTokens(typ) + rest;
    } else {
      BeforeCons(N(cardinality), TypeTokens(typ) + rest, c);
    }
  }

  lemma BrokenEnds(broken: BrokenField, rest: seq<Token>, cardinality: string, typ: string, c: Cursor)
    requires c.rest != [] && IsBroken(broken, c.rest[0])
    requires rest == match broken
                     case Nameless => []
                     case Unequal(name) => [N(name)]
                     case Numberless(name, instead) => [N(name)] + ([P("=")] + [instead])
    ensures !Before(rest, c).At(".") && FieldEnd(Before(rest, c), cardinality, typ) == (None, c)
  {
    hide IsName, Atoi, SkipStatement, SkipBalanced, FieldOf;
    match broken {
      case Nameless => BeforeNone(c);
      case Unequal(name) =>
        NotDot(name);
        BeforeOne(N(name), c);
        NonEmpty(name);
      case Numberless(name, instead) =>
        NotDot(name);
        NonEmpty(name);
        BeforeCons(N(name), [P("=")] + [instead], c);
        BeforeCons(P("="), [instead], c);
        BeforeOne(instead, c);
    }
  }

  lemma NonEmpty(name: string)
    requires IsName(name)
    ensures name != ""
  {
  }

  lemma TypeRead(t: TypeSrc, c: Cursor)
    requires GoodType(t) && !c.At(".") && (t.absolute || t.path[0] != "map")
    ensures FieldType(Before(TypeTokens(t), c)) == (TypeText(t), c) && TypeText(t) != ""
    ensures (var b := Before(TypeTokens(t), c);
             b.rest != [] && b.rest[0] == if t.absolute then P(".") else N(t.path[0]))
  {
    hide GoodType, QualifiedName, NormalizeTypeName, SkipBalanced, TypeTokens;
    TypeParsed(t, c);
    TypeNormalized(t);
    PathNotEmpty(t);
    ProtoTextProofs.TypeFirst(t, c);
  }

  lemma PathNotEmpty(t: TypeSrc)
    requires GoodType(t)
    ensures t.path != []
  {
  }

  /** A malformed field in a message is passed over up to its semicolon or block; what stands
      before and after it is read as if it were not there. */
  lemma BrokenFieldIgnored(cardinality: string, typ: TypeSrc, broken: BrokenField, tokens: seq<Token>, e: End,
                           m: Message, pkg: string, path: string, depth: nat, c: Cursor)
    requires GoodTypeHere(cardinality, typ) && IsBroken(broken, FirstOf(tokens, e)) && Plain(tokens) && GoodEnd(e)
    ensures MessageBody(Before(BrokenTokens(cardinality, typ, broken) + TailTokens(tokens, e), c), m, pkg, path, depth)
         == MessageBody(c, m, pkg, path, depth)
  {
    hide ParseField, BrokenTokens, TailTokens, SkipStatementOrBlock, ParseEnum, ParseOneof, IsBroken, GoodEnd, Plain;
    var at := Before(TailTokens(tokens, e), c);
    TailSkipped(tokens, e, c);
    BeforeJoin(BrokenTokens(cardinality, typ, broken), TailTokens(tokens, e), c);
    BrokenRead(cardinality, typ, broken, at);
    BrokenStarts(cardinality, typ, broken, at);
  }

  /** The same in a oneof. */
  lemma BrokenChoiceIgnored(cardinality: string, typ: TypeSrc, broken: BrokenField, tokens: seq<Token>, e: End,
                            fields: seq<Field>, c: Cursor)
    requires GoodTypeHere(cardinality, typ) && IsBroken(broken, FirstOf(tokens, e)) && Plain(tokens) && GoodEnd(e)
    ensures OneofBody(Before(BrokenTokens(cardinality, typ, broken) + TailTokens(tokens, e), c), fields)
         == OneofBody(c, fields)
  {
    hide ParseField, BrokenTokens, TailTokens, SkipStatementOrBlock, IsBroken, GoodEnd, Plain;
    var at := Before(TailTokens(tokens, e), c);
    TailSkipped(tokens, e, c);
    BeforeJoin(BrokenTokens(cardinality, typ, broken), TailTokens(tokens, e), c);
    BrokenRead(cardinality, typ, broken, at);
    BrokenStarts(cardinality, typ, broken, at);
  }

  lemma BrokenStarts(cardinality: string, typ: TypeSrc, broken: BrokenField, c: Cursor)
    requires GoodTypeHere(cardinality, typ)
    ensures (var b := Before(BrokenTokens(cardinality, typ, broken), c);
             && b.rest != [] && b.rest[0].value !in BODY_KEYWORDS && !b.At("}"))
  {
    hide TypeTokens, IsName;
    var rest := match broken
                case Nameless => []
                case Unequal(name) => [N(name)]
                case Numberless(name, instead) => [N(name)] + ([P("=")] + [instead]);
    BeforeJoin(TypeTokens(typ), rest, c);
    ProtoTextProofs.TypeFirst(typ, Before(rest, c));
    if cardinality == "" {
      assert BrokenTokens(cardinality, typ, broken) == TypeTokens(typ) + rest;
      if !typ.absolute {
        NotDot(typ.path[0]);
      }
    } else {
      BeforeCons(N(cardinality), TypeTokens(typ) + rest, c);
    }
  }

  /** An option in a oneof. */
  lemma OptionInChoiceIgnored(tokens: seq<Token>, e: End, fields: seq<Field>, c: Cursor)
    requires Plain(tokens) && GoodEnd(e)
    ensures OneofBody(Before(TailTokens([N("option")] + tokens, e), c), fields) == OneofBody(c, fields)
  {
    hide ParseField, TailTokens, SkipStatementOrBlock, SkipStatement, GoodEnd;
    KeywordPlain("option", tokens);
    TailSkipped([N("option")] + tokens, e, c);
  }

  // ---------------------------------------------------------------- enums, services and files

  /** An enum value without an equals sign, or none at all. */
  lemma BrokenValueIgnored(tokens: seq<Token>, e: End, enumeration: Enum, c: Cursor)
    requires Plain(tokens) && GoodEnd(e) && (e.Braces? ==> tokens != [])
    requires tokens != [] ==> tokens[0].value !in {"option", "reserved", ""}
    requires tokens != [] && tokens[0].kind == Name ==> FirstOf(tokens[1..], e).value != "="
    ensures EnumBody(Before(TailTokens(tokens, e), c), enumeration) == EnumBody(c, enumeration)
  {
    hide TailTokens, SkipStatement, SkipStatementOrBlock, GoodEnd, Atoi;
    TailSkipped(tokens, e, c);
    if tokens != [] {
      assert tokens[0].value !in {";", "{", "}"};
      TailSkipped(tokens[1..], e, c);
      TailMore(tokens, e, c);
    }
  }

  lemma TailMore(tokens: seq<Token>, e: End, c: Cursor)
    requires tokens != []
    ensures Before(TailTokens(tokens, e), c).Next() == Before(TailTokens(tokens[1..], e), c)
  {
    hide EndTokens;
    BeforeCons(tokens[0], TailTokens(tokens[1..], e), c);
    assert TailTokens(tokens, e) == [tokens[0]] + TailTokens(tokens[1..], e);
  }

  /** A call without a name, or another statement of a service. */
  lemma BrokenCallIgnored(rpc: bool, tokens: seq<Token>, e: End, s: Service, c: Cursor)
    requires Plain(tokens) && GoodEnd(e)
    requires if rpc then FirstOf(tokens, e).kind != Name else tokens != [] ==> tokens[0].value != "rpc"
    ensures ServiceBody(Before((if rpc then [N("rpc")] else []) + TailTokens(tokens, e), c), s) == ServiceBody(c, s)
  {
    hide TailTokens, SkipStatementOrBlock, SkipStatement, ParseSide, GoodEnd;
    TailSkipped(tokens, e, c);
    if tokens != [] {
      assert tokens[0].value !in {";", "{", "}"};
    }
    if rpc {
      BeforeCons(N("rpc"), TailTokens(tokens, e), c);
      NamelessCall(Before(TailTokens(tokens, e), c), s);
    } else {
      assert [] + TailTokens(tokens, e) == TailTokens(tokens, e);
    }
  }

  lemma NamelessCall(c: Cursor, s: Service)
    requires c.rest != [] && c.rest[0].kind != Name
    ensures ParseCall(c, s) == (None, SkipStatementOrBlock(c))
  {
    hide SkipStatementOrBlock, ParseSide;
  }

  /** A statement of a file that is not known. */
  lemma UnknownStatementIgnored(tokens: seq<Token>, e: End, f: File, c: Cursor)
    requires Plain(tokens) && GoodEnd(e) && (tokens != [] ==> tokens[0].value !in FILE_KEYWORDS)
    ensures ParseFile(Before(TailTokens(tokens, e), c), f) == ParseFile(c, f)
  {
    hide TailTokens, SkipStatementOrBlock, SkipStatement, ParseMessage, ParseEnum, ParseService, GoodEnd,
         QualifiedName;
    TailSkipped(tokens, e, c);
  }

  /** A syntax statement without an equals sign and an import without a path. */
  lemma BrokenHeaderIgnored(keyword: string, tokens: seq<Token>, e: End, f: File, c: Cursor)
    requires Plain(tokens) && GoodEnd(e)
    requires keyword == "syntax" ==> FirstOf(tokens, e).value != "="
    requires keyword == "import" ==>
               FirstOf(tokens, e).kind != Tokens.Kind.Text && FirstOf(tokens, e).value !in {"public", "weak"}
    requires keyword == "syntax" || keyword == "import"
    ensures ParseFile(Before([N(keyword)] + TailTokens(tokens, e), c), f) == ParseFile(c, f)
  {
    hide TailTokens, SkipStatementOrBlock, SkipStatement, ParseMessage, ParseEnum, ParseService, GoodEnd,
         QualifiedName;
    BeforeCons(N(keyword), TailTokens(tokens, e), c);
    TailSkipped(tokens, e, c);
  }

  // ---------------------------------------------------------------- what a missing number takes along

  /** A field with a semicolon in place of its number: the statement after it is lost as well. */
  lemma MissingNumberTakesNext(typ: TypeSrc, name: string, tokens: seq<Token>, e: End, m: Message, pkg: string,
                               path: string, depth: nat, c: Cursor)
    requires GoodTypeHere("", typ) && IsName(name) && Plain(tokens) && GoodEnd(e)
    ensures MessageBody(Before(TypeTokens(typ) + ([N(name)] + ([P("=")] + ([P(";")] + TailTokens(tokens, e)))), c),
                        m, pkg, path, depth)
         == MessageBody(c, m, pkg, path, depth)
  {
    hide ParseField, TailTokens, SkipStatementOrBlock, ParseEnum, ParseOneof, GoodEnd, Plain, TypeTokens, IsName;
    var rest := [N(name)] + ([P("=")] + ([P(";")] + TailTokens(tokens, e)));
    var at := Before(TailTokens(tokens, e), c);
    TailSkipped(tokens, e, c);
    BeforeJoin(TypeTokens(typ), rest, c);
    ProtoTextProofs.TypeFirst(typ, Before(rest, c));
    NumberTaken(typ, name, TailTokens(tokens, e), c);
    if !typ.absolute {
      NotDot(typ.path[0]);
    }
  }

  lemma NumberTaken(typ: TypeSrc, name: string, tail: seq<Token>, c: Cursor)
    requires GoodTypeHere("", typ) && IsName(name)
    ensures ParseField(Before(TypeTokens(typ) + ([N(name)] + ([P("=")] + ([P(";")] + tail))), c))
         == (None, Before(tail, c))
  {
    hide GoodType, IsName, TypeTokens, QualifiedName, SkipStatement, SkipBalanced, Atoi, NormalizeTypeName, FieldOf;
    var rest := [N(name)] + ([P("=")] + ([P(";")] + tail));
    NotDot(name);
    NonEmpty(name);
    BeforeJoin(TypeTokens(typ), rest, c);
    BeforeCons(N(name), [P("=")] + ([P(";")] + tail), c);
    BeforeCons(P("="), [P(";")] + tail, c);
    BeforeCons(P(";"), tail, c);
    TypeRead(typ, Before(rest, c));
  }

  // ---------------------------------------------------------------- errors are kept

  /** A closing brace where a statement should stand: the file is refused, whatever follows. */
  lemma StrayBraceRefused(ss: seq<StatementSrc>, rest: seq<Token>)
    requires GoodFile(ss)
    ensures ParseTokens(FileTokens(ss) + ([P("}")] + rest)) == Refused
  {
    hide FileTokens, ParseFile, GoodFile, Finalize;
    var c := Cursor(rest, false);
    var stray := Before([P("}")], c);
    assert Before(FileTokens(ss), stray) == Cursor(FileTokens(ss) + ([P("}")] + rest), false);
    StatementsRead(ss, NewFile, stray);
    StrayFails(FileMeaning(ss, NewFile), c);
  }

  lemma StrayFails(f: File, c: Cursor)
    ensures ParseFile(Before([P("}")], c), f).1.failed
  {
    hide ParseMessage, ParseEnum, ParseService, QualifiedName;
    BeforeOne(P("}"), c);
  }

  lemma {:induction false} StatementsRead(ss: seq<StatementSrc>, f: File, c: Cursor)
    requires GoodFile(ss)
    ensures ParseFile(Before(FileTokens(ss), c), f) == ParseFile(c, FileMeaning(ss, f))
    decreases |ss|
  {
    hide GoodStatement, StatementTokens, StatementMeaning, ParseFile, ParseStatement;
    if ss == [] {
      BeforeNone(c);
    } else {
      BeforeJoin(StatementTokens(ss[0]), FileTokens(ss[1..]), c);
      var rest := Before(FileTokens(ss[1..]), c);
      StatementParsed(ss[0], f, rest);
      StatementsRead(ss[1..], StatementMeaning(ss[0], f), c);
      StatementTaken(Before(StatementTokens(ss[0]), rest), f);
      MeaningStarts(ss, f);
    }
  }

  lemma StatementTaken(c: Cursor, f: File)
    requires c.rest != []
    ensures (var (g, end) := ParseStatement(c, f); ParseFile(c, f) == ParseFile(end, g))
  {
    hide ParseStatement;
  }

  lemma MeaningStarts(ss: seq<StatementSrc>, f: File)
    requires ss != []
    ensures FileMeaning(ss, f) == FileMeaning(ss[1..], StatementMeaning(ss[0], f))
  {
    hide StatementMeaning;
  }
}
