/** The parser of .proto text (grpcproto/parse.go) as functions of the token cursor: what
    each parse function returns and where it leaves the cursor. */
module ProtoTextSpec {
  import opened Lexing
  import opened ProtoModel
  import opened Text
  import opened Tokens
  import opened Wrappers

  const MAX_INT: nat := 0x7FFF_FFFF_FFFF_FFFF

  predicate IsDigits(s: string) {
    s != "" && forall i :: 0 <= i < |s| ==> '0' <= s[i] <= '9'
  }

  function DigitsValue(s: string): nat
    requires forall i :: 0 <= i < |s| ==> '0' <= s[i] <= '9'
  {
    if s == "" then 0 else 10 * DigitsValue(s[..|s| - 1]) + (s[|s| - 1] as int - '0' as int)
  }

  function Clamped(digits: string, limit: nat): int {
    if !IsDigits(digits) then 0 else if DigitsValue(digits) > limit then limit else DigitsValue(digits)
  }

  /** strconv.Atoi without its error: 0 for what is no number, the int of largest magnitude for
      what is too large.  Only a quoted token can start with a sign. */
  function Atoi(s: string): int {
    if s != "" && s[0] == '-' then -Clamped(s[1..], MAX_INT + 1)
    else if s != "" && s[0] == '+' then Clamped(s[1..], MAX_INT)
    else Clamped(s, MAX_INT)
  }

  // ---------------------------------------------------------------- names and statements

  /** The parts of a dotted name. */
  function Parts(c: Cursor): (r: (seq<string>, Cursor))
    ensures c.failed ==> r.1.failed
    ensures |r.1.rest| <= |c.rest| && (r.0 != [] ==> |r.1.rest| < |c.rest|)
    decreases |c.rest|
  {
    var name, after := c.NameHere(), c.AfterName();
    if name == "" then ([], after)
    else if !after.At(".") then ([name], after)
    else
      var (more, end) := Parts(after.Next());
      ([name] + more, end)
  }

  /** parseQualifiedName */
  function QualifiedName(c: Cursor): (r: (string, Cursor))
    ensures c.failed ==> r.1.failed
    ensures |r.1.rest| <= |c.rest| && (r.0 != "" ==> |r.1.rest| < |c.rest|)
  {
    var (parts, end) := Parts(c.Skip("."));
    var name := Join(parts, ".");
    (if c.At(".") && name != "" then "." + name else name, end)
  }

  /** skipStatement */
  function SkipStatement(c: Cursor): (r: Cursor)
    ensures c.failed ==> r.failed
    ensures |r.rest| <= |c.rest| && (c.rest != [] ==> |r.rest| < |c.rest|)
    decreases |c.rest|
  {
    if c.Done() then c
    else if c.At(";") then c.Next()
    else if c.At("{") then SkipBalanced(c, "{", "}")
    else if c.At("}") then c.Fail().Next()
    else SkipStatement(c.Next())
  }

  /** skipStatementOrBlock */
  function SkipStatementOrBlock(c: Cursor): (r: Cursor)
    ensures c.failed ==> r.failed
    ensures |r.rest| <= |c.rest| && (c.rest != [] ==> |r.rest| < |c.rest|)
  {
    if c.At("{") then SkipBalanced(c, "{", "}") else SkipStatement(c)
  }

  // ---------------------------------------------------------------- fields

  predicate IsLabel(s: string) {
    s == "optional" || s == "required" || s == "repeated"
  }

  /** Whether a type name is taken for a message or enum: it has a dot or starts with a
      capital letter. */
  predicate NamesType(t: string) {
    '.' in t || (t != "" && 'A' <= t[0] <= 'Z')
  }

  function FieldOf(name: string, number: int, cardinality: string, typ: string): Field {
    Field(name, number, cardinality, typ, if NamesType(typ) then typ else "", "",
          cardinality == "repeated", cardinality == "required")
  }

  function LabelHere(c: Cursor): string {
    if c.rest != [] && IsLabel(c.rest[0].value) then c.rest[0].value else ""
  }

  /** The type of a field and the cursor after it; map fields have the type `map`. */
  function FieldType(c: Cursor): (r: (string, Cursor))
    ensures c.failed ==> r.1.failed
    ensures |r.1.rest| <= |c.rest| && (r.0 != "" ==> |r.1.rest| < |c.rest|)
  {
    if c.At("map") then ("map", SkipBalanced(c.Next(), "<", ">"))
    else
      var (name, end) := QualifiedName(c);
      (NormalizeTypeName(name), end)
  }

  /** The rest of a field after its type. */
  function FieldEnd(c: Cursor, cardinality: string, typ: string): (r: (Option<Field>, Cursor))
    ensures c.failed ==> r.1.failed
    ensures |r.1.rest| <= |c.rest|
  {
    var name, named := c.NameHere(), c.AfterName();
    if name == "" || !named.At("=") then (None, named)
    else
      var number := named.Next();
      var after := number.Next();
      if !number.AtKind(Number) && !number.AtKind(Name) then (None, after)
      else (Some(FieldOf(name, Atoi(number.rest[0].value), cardinality, typ)),
            SkipStatement(SkipBalanced(after, "[", "]")))
  }

  /** parseField */
  function ParseField(c: Cursor): (r: (Option<Field>, Cursor))
    ensures c.failed ==> r.1.failed
    ensures |r.1.rest| <= |c.rest| && (r.0.Some? ==> |r.1.rest| < |c.rest|)
  {
    var cardinality := LabelHere(c);
    var (typ, end) := FieldType(if cardinality == "" then c else c.Next());
    if typ == "" then (None, end) else FieldEnd(end, cardinality, typ)
  }

  /** The loop of parseOneofFields. */
  function OneofBody(c: Cursor, fields: seq<Field>): (r: (seq<Field>, Cursor))
    ensures c.failed ==> r.1.failed
    ensures |r.1.rest| <= |c.rest|
    decreases |c.rest|
  {
    if c.Done() then (fields, c)
    else if c.At("}") then (fields, c.Next())
    else if c.At("option") then OneofBody(SkipStatementOrBlock(c), fields)
    else
      var (field, end) := ParseField(c);
      if field.Some? then OneofBody(end, fields + [field.value])
      else OneofBody(SkipStatementOrBlock(end), fields)
  }

  /** parseOneofFields */
  function ParseOneof(c: Cursor): (r: (seq<Field>, Cursor))
    ensures c.failed ==> r.1.failed
    ensures |r.1.rest| <= |c.rest|
  {
    var named := c.AfterName();
    if named.At("{") then OneofBody(named.Next(), []) else ([], named)
  }

  // ---------------------------------------------------------------- enums and messages

  /** The loop of parseEnum. */
  function EnumBody(c: Cursor, e: Enum): (r: (Enum, Cursor))
    ensures c.failed ==> r.1.failed
    ensures |r.1.rest| <= |c.rest|
    decreases |c.rest|
  {
    if c.Done() then (e, c)
    else if c.At("}") then (e, c.Next())
    else if c.At("option") || c.At("reserved") then EnumBody(SkipStatementOrBlock(c), e)
    else
      var name, named := c.NameHere(), c.AfterName();
      if name == "" || !named.At("=") then EnumBody(SkipStatementOrBlock(named), e)
      else
        var number := named.Next();
        var value := if number.Done() then "" else number.rest[0].value;
        EnumBody(SkipStatement(number.Next()), e.(values := e.values + [EnumValue(name, Atoi(value))]))
  }

  /** parseEnum */
  function ParseEnum(c: Cursor, pkg: string, parent: string): (r: (Option<Enum>, Cursor))
    ensures c.failed ==> r.1.failed
    ensures |r.1.rest| <= |c.rest|
  {
    var name, named := c.NameHere(), c.AfterName();
    if name == "" then (None, named)
    else
      var e := Enum(name, JoinName(pkg, JoinName(parent, name)), []);
      if !named.At("{") then (Some(e), named)
      else
        var (full, end) := EnumBody(named.Next(), e);
        (Some(full), end)
  }

  /** The loop of parseMessage; `path` is the name of the message within the package. */
  function MessageBody(c: Cursor, m: Message, pkg: string, path: string, depth: nat): (r: (Message, Cursor))
    ensures c.failed ==> r.1.failed
    ensures |r.1.rest| <= |c.rest|
    decreases |c.rest|
  {
    if c.Done() then (m, c)
    else if c.At("}") then (m, c.Next())
    else if c.At("message") then
      var (nested, end) := ParseMessage(c.Next(), pkg, path, depth + 1);
      MessageBody(end, if nested.Some? then m.(messages := m.messages + [nested.value]) else m, pkg, path, depth)
    else if c.At("enum") then
      var (e, end) := ParseEnum(c.Next(), pkg, path);
      MessageBody(end, if e.Some? then m.(enums := m.enums + [e.value]) else m, pkg, path, depth)
    else if c.At("reserved") || c.At("extensions") || c.At("option") then
      MessageBody(SkipStatementOrBlock(c), m, pkg, path, depth)
    else if c.At("oneof") then
      var (fields, end) := ParseOneof(c.Next());
      MessageBody(end, m.(fields := m.fields + fields), pkg, path, depth)
    else
      var (field, end) := ParseField(c);
      if field.Some? then MessageBody(end, m.(fields := m.fields + [field.value]), pkg, path, depth)
      else MessageBody(SkipStatementOrBlock(end), m, pkg, path, depth)
  }

  /** parseMessage */
  function ParseMessage(c: Cursor, pkg: string, parent: string, depth: nat): (r: (Option<Message>, Cursor))
    ensures c.failed ==> r.1.failed
    ensures |r.1.rest| <= |c.rest|
    decreases |c.rest|
  {
    if depth >= MAX_NESTING_DEPTH then (None, c.Fail())
    else
      var name, named := c.NameHere(), c.AfterName();
      if name == "" then (None, named)
      else
        var path := JoinName(parent, name);
        var m := Message(name, JoinName(pkg, path), [], [], []);
        if !named.At("{") then (Some(m), named)
        else
          var (full, end) := MessageBody(named.Next(), m, pkg, path, depth);
          (Some(full), end)
  }

  // ---------------------------------------------------------------- services

  /** One side of a call: `(`, an optional `stream`, a type and `)`. */
  function ParseSide(c: Cursor): (r: (bool, string, Cursor))
    ensures c.failed ==> r.2.failed
    ensures |r.2.rest| <= |c.rest|
  {
    var (name, end) := QualifiedName(c.Skip("stream"));
    (c.At("stream"), NormalizeTypeName(name), end.Skip(")"))
  }

  /** parseRPC */
  function ParseCall(c: Cursor, service: Service): (r: (Option<Method>, Cursor))
    ensures c.failed ==> r.1.failed
    ensures |r.1.rest| <= |c.rest|
  {
    var name, named := c.NameHere(), c.AfterName();
    if name == "" then (None, SkipStatementOrBlock(named))
    else
      var m := Method(name, "", service.fullName, service.pkg, "", "", false, false, "", "");
      var (clientStreaming, requestType, asked) := if named.At("(") then ParseSide(named.Next())
        else (false, "", named);
      var m' := m.(clientStreaming := clientStreaming, requestType := requestType);
      var returned := asked.Skip("returns");
      var (serverStreaming, responseType, end) :=
        if asked.At("returns") && returned.At("(") then ParseSide(returned.Next()) else (false, "", returned);
      (Some(m'.(serverStreaming := serverStreaming, responseType := responseType)), SkipStatementOrBlock(end))
  }

  /** The loop of parseService. */
  function ServiceBody(c: Cursor, s: Service): (r: (Service, Cursor))
    ensures c.failed ==> r.1.failed
    ensures |r.1.rest| <= |c.rest|
    decreases |c.rest|
  {
    if c.Done() then (s, c)
    else if c.At("}") then (s, c.Next())
    else if c.At("rpc") then
      var (m, end) := ParseCall(c.Next(), s);
      ServiceBody(end, if m.Some? then s.(methods := s.methods + [m.value]) else s)
    else ServiceBody(SkipStatementOrBlock(c), s)
  }

  /** parseService */
  function ParseService(c: Cursor, pkg: string): (r: (Option<Service>, Cursor))
    ensures c.failed ==> r.1.failed
    ensures |r.1.rest| <= |c.rest|
  {
    var name, named := c.NameHere(), c.AfterName();
    if name == "" then (None, named)
    else
      var s := Service(name, JoinName(pkg, name), pkg, []);
      if !named.At("{") then (Some(s), named)
      else
        var (full, end) := ServiceBody(named.Next(), s);
        (Some(full), end)
  }

  // ---------------------------------------------------------------- files

  const NewFile := File("", "", "", [], [], [], [])

  /** What one top-level statement adds to the file, and the cursor after it. */
  function ParseStatement(c: Cursor, f: File): (r: (File, Cursor))
    requires c.rest != []
    ensures c.failed ==> r.1.failed
    ensures |r.1.rest| < |c.rest|
  {
    var next := c.Next();
    if c.At("syntax") then
      var value := next.Skip("=");
      if next.At("=") && value.AtKind(Tokens.Kind.Text)
        then (f.(syntax := value.rest[0].value), SkipStatement(value.Next()))
      else (f, SkipStatement(value))
    else if c.At("package") then
      var (name, end) := QualifiedName(next);
      (f.(pkg := name), SkipStatement(end))
    else if c.At("import") then
      var value := if next.At("public") || next.At("weak") then next.Next() else next;
      if value.AtKind(Tokens.Kind.Text) then (f.(imports := f.imports + [value.rest[0].value]),
                                              SkipStatement(value.Next()))
      else (f, SkipStatement(value))
    else if c.At("message") then
      var (m, end) := ParseMessage(next, f.pkg, "", 0);
      (if m.Some? then f.(messages := f.messages + [m.value]) else f, end)
    else if c.At("enum") then
      var (e, end) := ParseEnum(next, f.pkg, "");
      (if e.Some? then f.(enums := f.enums + [e.value]) else f, end)
    else if c.At("service") then
      var (s, end) := ParseService(next, f.pkg);
      (if s.Some? then f.(services := f.services + [s.value]) else f, end)
    else (f, SkipStatementOrBlock(c))
  }

  /** parseFile */
  function ParseFile(c: Cursor, f: File): (r: (File, Cursor))
    ensures c.failed ==> r.1.failed
    decreases |c.rest|
  {
    if c.Done() then (f, c)
    else
      var (g, end) := ParseStatement(c, f);
      ParseFile(end, g)
  }

  datatype Outcome = Parsed(files: seq<File>) | Refused

  /** What is left of parseProtoText after lexing. */
  function ParseTokens(tokens: seq<Token>): Outcome {
    var (file, end) := ParseFile(Cursor(tokens, false), NewFile);
    if tokens == [] || end.failed || !HasMetadata([file]) then Refused else Parsed(Finalize([file]))
  }
}
