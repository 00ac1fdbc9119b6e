/** The recursive-descent parser of grpcproto/parse.go: methods that move the token reader
    and append to the values they build.  Each is proved to return what ProtoTextSpec says and
    to leave the reader where it says. */
module ProtoTextParser {
  import opened Lexing
  import opened ProtoAgreement
  import opened ProtoLexer
  import opened ProtoModel
  import opened ProtoTextSpec
  import opened Text
  import opened TokenReader
  import opened Tokens
  import opened Wrappers

  method ParseQualifiedName(p: Reader) returns (name: string)
    requires p.Valid()
    modifies p
    ensures p.Valid() && (name, p.Here()) == QualifiedName(old(p.Here()))
  {
    hide Join;
    ghost var start := p.Here();
    var parts: seq<string> := [];
    var leadingDot := p.Consume(".");
    ghost var first := p.Here();
    ghost var whole := Parts(first);
    var more := true;
    NoParts(whole);
    while more && !p.Done()
      invariant p.Valid()
      invariant if more then whole == WithParts(parts, Parts(p.Here())) else whole == (parts, p.Here())
      decreases more, |p.Here().rest|
    {
      var part := p.ConsumeName();
      if part == "" {
        more := false;
        assert parts + [] == parts;
      } else {
        PartsJoin(parts, part, Parts(p.Here().Next()));
        assert parts + [part] + [] == parts + [part];
        parts := parts + [part];
        more := p.Consume(".");
      }
    }
    assert parts + [] == parts;
    name := Join(parts, ".");
    if leadingDot && name != "" {
      name := "." + name;
    }
  }

  ghost function WithParts(before: seq<string>, r: (seq<string>, Cursor)): (seq<string>, Cursor) {
    (before + r.0, r.1)
  }

  lemma NoParts(r: (seq<string>, Cursor))
    ensures WithParts([], r) == r
  {
    assert [] + r.0 == r.0;
  }

  lemma PartsJoin(before: seq<string>, part: string, r: (seq<string>, Cursor))
    ensures WithParts(before, ([part] + r.0, r.1)) == WithParts(before + [part], r)
    ensures WithParts(before, ([part], r.1)) == (before + [part], r.1)
  {
    assert before + ([part] + r.0) == (before + [part]) + r.0;
  }

  method SkipStatement(p: Reader)
    requires p.Valid()
    modifies p
    ensures p.Valid() && p.Here() == ProtoTextSpec.SkipStatement(old(p.Here()))
  {
    hide Tokens.SkipBalanced;
    while !p.Done()
      invariant p.Valid() && ProtoTextSpec.SkipStatement(p.Here()) == ProtoTextSpec.SkipStatement(old(p.Here()))
      decreases |p.Here().rest|
    {
      var ended := p.Consume(";");
      if ended {
        return;
      }
      if p.PeekValue("{") {
        p.SkipBalanced("{", "}");
        return;
      }
      if p.PeekValue("}") {
        p.Fail();
        var _ := p.Advance();
        return;
      }
      var _ := p.Advance();
    }
  }

  method SkipStatementOrBlock(p: Reader)
    requires p.Valid()
    modifies p
    ensures p.Valid() && p.Here() == ProtoTextSpec.SkipStatementOrBlock(old(p.Here()))
  {
    hide Tokens.SkipBalanced, ProtoTextSpec.SkipStatement;
    if p.PeekValue("{") {
      p.SkipBalanced("{", "}");
      return;
    }
    SkipStatement(p);
  }

  method ParseFieldType(p: Reader) returns (fieldType: string)
    requires p.Valid()
    modifies p
    ensures p.Valid() && (fieldType, p.Here()) == FieldType(old(p.Here()))
  {
    hide Tokens.SkipBalanced, QualifiedName, NormalizeTypeName;
    if p.PeekValue("map") {
      var _ := p.Advance();
      if p.PeekValue("<") {
        p.SkipBalanced("<", ">");
      } else {
        NotBalanced(p.Here(), "<", ">");
      }
      return "map";
    }
    var name := ParseQualifiedName(p);
    fieldType := NormalizeTypeName(name);
  }

  method ParseFieldEnd(p: Reader, cardinality: string, fieldType: string) returns (r: Option<Field>)
    requires p.Valid()
    modifies p
    ensures p.Valid() && (r, p.Here()) == FieldEnd(old(p.Here()), cardinality, fieldType)
  {
    hide Tokens.SkipBalanced, ProtoTextSpec.SkipStatement, Atoi, NamesType;
    var name := p.ConsumeName();
    if name == "" {
      return None;
    }
    var hasValue := p.Consume("=");
    if !hasValue {
      return None;
    }
    var t := p.Advance();
    if t.kind != Number && t.kind != Name {
      return None;
    }
    SkipOptions(p);
    var typeName := if NamesType(fieldType) then fieldType else "";
    return Some(Field(name, Atoi(t.value), cardinality, fieldType, typeName, "", cardinality == "repeated",
                      cardinality == "required"));
  }

  /** The bracketed options of a field, and the rest of its statement. */
  method SkipOptions(p: Reader)
    requires p.Valid()
    modifies p
    ensures p.Valid() && p.Here() == ProtoTextSpec.SkipStatement(Tokens.SkipBalanced(old(p.Here()), "[", "]"))
  {
    hide Tokens.SkipBalanced, ProtoTextSpec.SkipStatement;
    if p.PeekValue("[") {
      p.SkipBalanced("[", "]");
    } else {
      NotBalanced(p.Here(), "[", "]");
    }
    SkipStatement(p);
  }

  method ParseField(p: Reader) returns (r: Option<Field>)
    requires p.Valid()
    modifies p
    ensures p.Valid() && (r, p.Here()) == ProtoTextSpec.ParseField(old(p.Here()))
  {
    hide FieldType, FieldEnd;
    var cardinality := "";
    if p.PeekValue("optional") || p.PeekValue("required") || p.PeekValue("repeated") {
      var t := p.Advance();
      cardinality := t.value;
    }
    var fieldType := ParseFieldType(p);
    if fieldType == "" {
      return None;
    }
    r := ParseFieldEnd(p, cardinality, fieldType);
  }

  lemma NotBalanced(c: Cursor, open: string, close: string)
    requires !c.At(open)
    ensures Tokens.SkipBalanced(c, open, close) == c
  {
  }

  method ParseOneofFields(p: Reader) returns (fields: seq<Field>)
    requires p.Valid()
    modifies p
    ensures p.Valid() && (fields, p.Here()) == ParseOneof(old(p.Here()))
  {
    hide ProtoTextSpec.SkipStatementOrBlock, ProtoTextSpec.ParseField;
    fields := [];
    var _ := p.ConsumeName();
    var isBlock := p.Consume("{");
    if !isBlock {
      return;
    }
    var more := true;
    while more && !p.Done()
      invariant p.Valid()
      invariant ParseOneof(old(p.Here())) == if more then OneofBody(p.Here(), fields) else (fields, p.Here())
      decreases more, |p.Here().rest|
    {
      var ended := p.Consume("}");
      if ended {
        more := false;
      } else if p.PeekValue("option") {
        SkipStatementOrBlock(p);
      } else {
        var field := ParseField(p);
        if field.Some? {
          fields := fields + [field.value];
        } else {
          SkipStatementOrBlock(p);
        }
      }
    }
  }

  method ParseEnum(p: Reader, pkg: string, parent: string) returns (r: Option<Enum>)
    requires p.Valid()
    modifies p
    ensures p.Valid() && (r, p.Here()) == ProtoTextSpec.ParseEnum(old(p.Here()), pkg, parent)
  {
    hide ProtoTextSpec.SkipStatementOrBlock, ProtoTextSpec.SkipStatement, JoinName, Atoi;
    var name := p.ConsumeName();
    if name == "" {
      return None;
    }
    var e := Enum(name, JoinName(pkg, JoinName(parent, name)), []);
    var isBlock := p.Consume("{");
    if !isBlock {
      return Some(e);
    }
    var more := true;
    ghost var whole := EnumBody(p.Here(), e);
    while more && !p.Done()
      invariant p.Valid()
      invariant whole == if more then EnumBody(p.Here(), e) else (e, p.Here())
      decreases more, |p.Here().rest|
    {
      var ended := p.Consume("}");
      if ended {
        more := false;
      } else if p.PeekValue("option") || p.PeekValue("reserved") {
        SkipStatementOrBlock(p);
      } else {
        var valueName := p.ConsumeName();
        if valueName == "" {
          SkipStatementOrBlock(p);
        } else {
          var hasValue := p.Consume("=");
          if !hasValue {
            SkipStatementOrBlock(p);
          } else {
            var t := p.Advance();
            e := e.(values := e.values + [EnumValue(valueName, Atoi(t.value))]);
            SkipStatement(p);
          }
        }
      }
    }
    return Some(e);
  }

  method ParseMessage(p: Reader, pkg: string, parent: string, depth: nat) returns (r: Option<Message>)
    requires p.Valid()
    modifies p
    ensures p.Valid() && (r, p.Here()) == ProtoTextSpec.ParseMessage(old(p.Here()), pkg, parent, depth)
    decreases |p.Here().rest|
  {
    hide ProtoTextSpec.SkipStatementOrBlock, ProtoTextSpec.ParseEnum, ProtoTextSpec.ParseField, ParseOneof, JoinName,
         MessageBody;
    if depth >= MAX_NESTING_DEPTH {
      p.Fail();
      return None;
    }
    var name := p.ConsumeName();
    if name == "" {
      return None;
    }
    var path := JoinName(parent, name);
    var m := Message(name, JoinName(pkg, path), [], [], []);
    var isBlock := p.Consume("{");
    if !isBlock {
      return Some(m);
    }
    m := ParseBody(p, m, pkg, path, depth);
    return Some(m);
  }

  /** The loop of parseMessage. */
  method ParseBody(p: Reader, start: Message, pkg: string, path: string, depth: nat) returns (m: Message)
    requires p.Valid()
    modifies p
    ensures p.Valid() && (m, p.Here()) == MessageBody(old(p.Here()), start, pkg, path, depth)
    decreases |p.Here().rest|
  {
    hide ProtoTextSpec.SkipStatementOrBlock, ProtoTextSpec.ParseEnum, ProtoTextSpec.ParseField, ParseOneof,
         ProtoTextSpec.ParseMessage;
    m := start;
    var more := true;
    while more && !p.Done()
      invariant p.Valid() && |p.Here().rest| <= |old(p.Here()).rest|
      invariant MessageBody(old(p.Here()), start, pkg, path, depth)
             == if more then MessageBody(p.Here(), m, pkg, path, depth) else (m, p.Here())
      decreases more, |p.Here().rest|
    {
      var ended := p.Consume("}");
      if ended {
        more := false;
      } else if p.PeekValue("message") {
        var _ := p.Advance();
        var nested := ParseMessage(p, pkg, path, depth + 1);
        if nested.Some? {
          m := m.(messages := m.messages + [nested.value]);
        }
      } else if p.PeekValue("enum") {
        var _ := p.Advance();
        var e := ParseEnum(p, pkg, path);
        if e.Some? {
          m := m.(enums := m.enums + [e.value]);
        }
      } else if p.PeekValue("reserved") || p.PeekValue("extensions") || p.PeekValue("option") {
        SkipStatementOrBlock(p);
      } else if p.PeekValue("oneof") {
        var _ := p.Advance();
        var fields := ParseOneofFields(p);
        m := m.(fields := m.fields + fields);
      } else {
        var field := ParseField(p);
        if field.Some? {
          m := m.(fields := m.fields + [field.value]);
        } else {
          SkipStatementOrBlock(p);
        }
      }
    }
  }

  /** The parenthesized side of a call after its opening parenthesis. */
  method ParseCallSide(p: Reader) returns (streaming: bool, typ: string)
    requires p.Valid()
    modifies p
    ensures p.Valid() && (streaming, typ, p.Here()) == ParseSide(old(p.Here()))
  {
    hide QualifiedName, NormalizeTypeName;
    streaming := p.Consume("stream");
    var name := ParseQualifiedName(p);
    typ := NormalizeTypeName(name);
    var _ := p.Consume(")");
  }

  method ParseRPC(p: Reader, service: Service) returns (r: Option<Method>)
    requires p.Valid()
    modifies p
    ensures p.Valid() && (r, p.Here()) == ParseCall(old(p.Here()), service)
  {
    hide ProtoTextSpec.SkipStatementOrBlock, ParseSide;
    var name := p.ConsumeName();
    if name == "" {
      SkipStatementOrBlock(p);
      return None;
    }
    var m := Method(name, "", service.fullName, service.pkg, "", "", false, false, "", "");
    var asks := p.Consume("(");
    if asks {
      var streaming, typ := ParseCallSide(p);
      m := m.(clientStreaming := streaming, requestType := typ);
    }
    var hasAnswer := p.Consume("returns");
    if hasAnswer {
      var answers := p.Consume("(");
      if answers {
        var streaming, typ := ParseCallSide(p);
        m := m.(serverStreaming := streaming, responseType := typ);
      }
    }
    SkipStatementOrBlock(p);
    return Some(m);
  }

  method ParseService(p: Reader, pkg: string) returns (r: Option<Service>)
    requires p.Valid()
    modifies p
    ensures p.Valid() && (r, p.Here()) == ProtoTextSpec.ParseService(old(p.Here()), pkg)
  {
    hide ProtoTextSpec.SkipStatementOrBlock, ParseCall, JoinName;
    var name := p.ConsumeName();
    if name == "" {
      return None;
    }
    var service := Service(name, JoinName(pkg, name), pkg, []);
    var isBlock := p.Consume("{");
    if !isBlock {
      return Some(service);
    }
    var more := true;
    ghost var whole := ServiceBody(p.Here(), service);
    while more && !p.Done()
      invariant p.Valid()
      invariant whole == if more then ServiceBody(p.Here(), service) else (service, p.Here())
      decreases more, |p.Here().rest|
    {
      var ended := p.Consume("}");
      if ended {
        more := false;
      } else if p.PeekValue("rpc") {
        var _ := p.Advance();
        var m := ParseRPC(p, service);
        if m.Some? {
          service := service.(methods := service.methods + [m.value]);
        }
      } else {
        SkipStatementOrBlock(p);
      }
    }
    return Some(service);
  }

  /** The keyword statements that do not open a block. */
  method ParseHeader(p: Reader, file: File) returns (f: File)
    requires p.Valid() && (p.PeekValue("syntax") || p.PeekValue("package") || p.PeekValue("import"))
    modifies p
    ensures p.Valid() && (f, p.Here()) == ParseStatement(old(p.Here()), file)
  {
    hide ProtoTextSpec.SkipStatementOrBlock, ProtoTextSpec.SkipStatement, QualifiedName, ProtoTextSpec.ParseMessage,
         ProtoTextSpec.ParseEnum, ProtoTextSpec.ParseService;
    f := file;
    var t := p.Advance();
    if t.value == "syntax" {
      var hasValue := p.Consume("=");
      if hasValue && p.PeekKind(Tokens.Kind.Text) {
        var text := p.Advance();
        f := f.(syntax := text.value);
      }
    } else if t.value == "package" {
      var name := ParseQualifiedName(p);
      f := f.(pkg := name);
    } else {
      if p.PeekValue("public") || p.PeekValue("weak") {
        var _ := p.Advance();
      }
      if p.PeekKind(Tokens.Kind.Text) {
        var path := p.Advance();
        f := f.(imports := f.imports + [path.value]);
      }
    }
    SkipStatement(p);
  }

  /** parseFile */
  method ParseFileTokens(p: Reader) returns (file: File)
    requires p.Valid()
    modifies p
    ensures p.Valid() && (file, p.Here()) == ParseFile(old(p.Here()), NewFile)
  {
    hide ProtoTextSpec.SkipStatementOrBlock, ProtoTextSpec.SkipStatement, QualifiedName, ProtoTextSpec.ParseMessage,
         ProtoTextSpec.ParseEnum, ProtoTextSpec.ParseService;
    file := NewFile;
    while !p.Done()
      invariant p.Valid() && ParseFile(old(p.Here()), NewFile) == ParseFile(p.Here(), file)
      decreases |p.Here().rest|
    {
      if p.PeekValue("syntax") || p.PeekValue("package") || p.PeekValue("import") {
        file := ParseHeader(p, file);
      } else if p.PeekValue("message") {
        var _ := p.Advance();
        var m := ParseMessage(p, file.pkg, "", 0);
        if m.Some? {
          file := file.(messages := file.messages + [m.value]);
        }
      } else if p.PeekValue("enum") {
        var _ := p.Advance();
        var e := ParseEnum(p, file.pkg, "");
        if e.Some? {
          file := file.(enums := file.enums + [e.value]);
        }
      } else if p.PeekValue("service") {
        var _ := p.Advance();
        var s := ParseService(p, file.pkg);
        if s.Some? {
          file := file.(services := file.services + [s.value]);
        }
      } else {
        SkipStatementOrBlock(p);
      }
    }
  }

  /** parseProtoText */
  method ParseText(input: string) returns (r: Outcome)
    ensures r == ParseProtoText(input)
  {
    hide Lex, ParseFile, Finalize, HasMetadata;
    var lexed := LexProto(input);
    if lexed.None? || |lexed.value| == 0 {
      return Refused;
    }
    var p := new Reader(lexed.value);
    var file := ParseFileTokens(p);
    if p.failed || !HasMetadata([file]) {
      return Refused;
    }
    return Parsed(Finalize([file]));
  }
}
