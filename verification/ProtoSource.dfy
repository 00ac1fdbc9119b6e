/** Proto files as their authors write them, their tokens, and the metadata they stand for.
    Statements may come in any order; options, reserved ranges and unknown statements may
    stand anywhere. */
module ProtoSource {
  import opened Lexing
  import opened ProtoModel
  import opened ProtoTextSpec
  import opened Text
  import opened Tokens
  import opened Wrappers

  /** A type name: its parts, and whether it starts with a dot. */
  datatype TypeSrc = TypeSrc(absolute: bool, path: seq<string>)

  datatype FieldSrc =
    | FieldSrc(cardinality: string, typ: TypeSrc, name: string, number: nat, options: Option<seq<Token>>)
    | MapSrc(types: seq<Token>, name: string, number: nat, options: Option<seq<Token>>)

  datatype ValueSrc = ValueSrc(name: string, number: int) | ValueSkip(keyword: string, tokens: seq<Token>)
  datatype EnumSrc = EnumSrc(name: string, items: seq<ValueSrc>)

  datatype BodySrc = FieldItem(field: FieldSrc) | OneofItem(name: string, fields: seq<FieldSrc>)
                   | NestedItem(message: MessageSrc) | EnumItem(enumeration: EnumSrc)
                   | BodySkip(keyword: string, tokens: seq<Token>)
  datatype MessageSrc = MessageSrc(name: string, items: seq<BodySrc>)

  datatype CallSrc = CallSrc(name: string, clientStreaming: bool, request: TypeSrc,
                             serverStreaming: bool, response: TypeSrc, body: Option<seq<Token>>)
                   | CallSkip(tokens: seq<Token>)
  datatype ServiceSrc = ServiceSrc(name: string, items: seq<CallSrc>)

  datatype StatementSrc = SyntaxStmt(text: string) | PackageStmt(pkg: TypeSrc)
                        | ImportStmt(modifier: string, path: string)
                        | MessageStmt(message: MessageSrc) | EnumStmt(enumeration: EnumSrc)
                        | ServiceStmt(service: ServiceSrc) | SkipStmt(tokens: seq<Token>)

  // ---------------------------------------------------------------- tokens

  function N(s: string): Token { Token(Name, s) }
  function P(s: string): Token { Token(Punct, s) }
  function S(s: string): Token { Token(Tokens.Kind.Text, s) }
  function Num(n: nat): Token { Token(Number, Decimal(n)) }

  function PathTokens(path: seq<string>): seq<Token> {
    if path == [] then []
    else if |path| == 1 then [N(path[0])]
    else [N(path[0])] + ([P(".")] + PathTokens(path[1..]))
  }

  function TypeTokens(t: TypeSrc): seq<Token> {
    (if t.absolute then [P(".")] else []) + PathTokens(t.path)
  }

  function OptionTokens(options: Option<seq<Token>>): seq<Token> {
    if options.None? then [] else [P("[")] + options.value + [P("]")]
  }

  function NumberedTokens(name: string, number: nat, options: Option<seq<Token>>): seq<Token> {
    [N(name)] + ([P("=")] + ([Num(number)] + (OptionTokens(options) + [P(";")])))
  }

  function FieldTokens(f: FieldSrc): seq<Token> {
    match f
    case FieldSrc(cardinality, typ, name, number, options) =>
      (if cardinality == "" then [] else [N(cardinality)]) + (TypeTokens(typ) + NumberedTokens(name, number, options))
    case MapSrc(types, name, number, options) =>
      [N("map")] + (([P("<")] + types + [P(">")]) + NumberedTokens(name, number, options))
  }

  function FieldsTokens(fs: seq<FieldSrc>): seq<Token> {
    if fs == [] then [] else FieldTokens(fs[0]) + FieldsTokens(fs[1..])
  }

  /** A statement that is skipped: up to its semicolon. */
  function SkippedTokens(tokens: seq<Token>): seq<Token> {
    tokens + [P(";")]
  }

  function ValueTokens(v: ValueSrc): seq<Token> {
    match v
    case ValueSrc(name, number) =>
      [N(name)] + ([P("=")] + (if number < 0 then [P("-")] + ([Num(-number)] + [P(";")]) else [Num(number)] + [P(";")]))
    case ValueSkip(keyword, tokens) => SkippedTokens([N(keyword)] + tokens)
  }

  function ValuesTokens(vs: seq<ValueSrc>): seq<Token> {
    if vs == [] then [] else ValueTokens(vs[0]) + ValuesTokens(vs[1..])
  }

  function EnumTokens(e: EnumSrc): seq<Token> {
    [N(e.name)] + ([P("{")] + (ValuesTokens(e.items) + [P("}")]))
  }

  function ItemTokens(i: BodySrc): seq<Token>
    decreases i
  {
    match i
    case FieldItem(f) => FieldTokens(f)
    case OneofItem(name, fields) => [N("oneof")] + ([N(name)] + ([P("{")] + (FieldsTokens(fields) + [P("}")])))
    case NestedItem(m) => [N("message")] + MessageTokens(m)
    case EnumItem(e) => [N("enum")] + EnumTokens(e)
    case BodySkip(keyword, tokens) => SkippedTokens([N(keyword)] + tokens)
  }

  function ItemsTokens(items: seq<BodySrc>): seq<Token>
    decreases items
  {
    if items == [] then [] else ItemTokens(items[0]) + ItemsTokens(items[1..])
  }

  /** A message after its keyword. */
  function MessageTokens(m: MessageSrc): seq<Token>
    decreases m
  {
    [N(m.name)] + ([P("{")] + (ItemsTokens(m.items) + [P("}")]))
  }

  function SideTokens(streaming: bool, t: TypeSrc): seq<Token> {
    [P("(")] + ((if streaming then [N("stream")] else []) + (TypeTokens(t) + [P(")")]))
  }

  function CallTokens(m: CallSrc): seq<Token> {
    match m
    case CallSrc(name, clientStreaming, request, serverStreaming, response, body) =>
      [N("rpc")] + ([N(name)] + (SideTokens(clientStreaming, request) + ([N("returns")] +
        (SideTokens(serverStreaming, response) + (if body.None? then [P(";")] else [P("{")] + body.value + [P("}")])))))
    case CallSkip(tokens) => SkippedTokens(tokens)
  }

  function CallsTokens(ms: seq<CallSrc>): seq<Token> {
    if ms == [] then [] else CallTokens(ms[0]) + CallsTokens(ms[1..])
  }

  function ServiceTokens(s: ServiceSrc): seq<Token> {
    [N(s.name)] + ([P("{")] + (CallsTokens(s.items) + [P("}")]))
  }

  function StatementTokens(s: StatementSrc): seq<Token> {
    match s
    case SyntaxStmt(text) => [N("syntax")] + ([P("=")] + ([S(text)] + [P(";")]))
    case PackageStmt(pkg) => [N("package")] + (TypeTokens(pkg) + [P(";")])
    case ImportStmt(modifier, path) =>
      [N("import")] + ((if modifier == "" then [] else [N(modifier)]) + ([S(path)] + [P(";")]))
    case MessageStmt(m) => [N("message")] + MessageTokens(m)
    case EnumStmt(e) => [N("enum")] + EnumTokens(e)
    case ServiceStmt(service) => [N("service")] + ServiceTokens(service)
    case SkipStmt(tokens) => SkippedTokens(tokens)
  }

  function FileTokens(ss: seq<StatementSrc>): seq<Token> {
    if ss == [] then [] else StatementTokens(ss[0]) + FileTokens(ss[1..])
  }

  // ---------------------------------------------------------------- meaning

  function TypeText(t: TypeSrc): string {
    Join(t.path, ".")
  }

  function Saturated(n: nat): nat {
    if n > MAX_INT then MAX_INT else n
  }

  function FieldMeaning(f: FieldSrc): Field {
    match f
    case FieldSrc(cardinality, typ, name, number, _) => FieldOf(name, Saturated(number), cardinality, TypeText(typ))
    case MapSrc(_, name, number, _) => FieldOf(name, Saturated(number), "", "map")
  }

  function FieldsMeaning(fs: seq<FieldSrc>): seq<Field> {
    if fs == [] then [] else [FieldMeaning(fs[0])] + FieldsMeaning(fs[1..])
  }

  /** A negative enum number is read as 0: the parser stops at its sign. */
  function ValueMeaning(v: ValueSrc): seq<EnumValue> {
    match v
    case ValueSrc(name, number) => [EnumValue(name, if number < 0 then 0 else Saturated(number))]
    case ValueSkip(_, _) => []
  }

  function ValuesMeaning(vs: seq<ValueSrc>): seq<EnumValue> {
    if vs == [] then [] else ValueMeaning(vs[0]) + ValuesMeaning(vs[1..])
  }

  function EnumMeaning(e: EnumSrc, pkg: string, parent: string): Enum {
    Enum(e.name, JoinName(pkg, JoinName(parent, e.name)), ValuesMeaning(e.items))
  }

  function ItemFields(i: BodySrc): seq<Field> {
    match i
    case FieldItem(f) => [FieldMeaning(f)]
    case OneofItem(_, fields) => FieldsMeaning(fields)
    case _ => []
  }

  function ItemsFields(items: seq<BodySrc>): seq<Field> {
    if items == [] then [] else ItemFields(items[0]) + ItemsFields(items[1..])
  }

  function ItemMessages(i: BodySrc, pkg: string, path: string): seq<Message>
    decreases i
  {
    match i
    case NestedItem(m) => [MessageMeaning(m, pkg, path)]
    case _ => []
  }

  function ItemsMessages(items: seq<BodySrc>, pkg: string, path: string): seq<Message>
    decreases items
  {
    if items == [] then [] else ItemMessages(items[0], pkg, path) + ItemsMessages(items[1..], pkg, path)
  }

  function ItemEnums(i: BodySrc, pkg: string, path: string): seq<Enum> {
    match i
    case EnumItem(e) => [EnumMeaning(e, pkg, path)]
    case _ => []
  }

  function ItemsEnums(items: seq<BodySrc>, pkg: string, path: string): seq<Enum> {
    if items == [] then [] else ItemEnums(items[0], pkg, path) + ItemsEnums(items[1..], pkg, path)
  }

  function MessageMeaning(m: MessageSrc, pkg: string, parent: string): Message
    decreases m
  {
    var path := JoinName(parent, m.name);
    Message(m.name, JoinName(pkg, path), ItemsFields(m.items), ItemsMessages(m.items, pkg, path),
            ItemsEnums(m.items, pkg, path))
  }

  function CallMeaning(m: CallSrc, service: string, pkg: string): seq<Method> {
    match m
    case CallSrc(name, clientStreaming, request, serverStreaming, response, _) =>
      [Method(name, "", service, pkg, TypeText(request), TypeText(response), clientStreaming, serverStreaming, "", "")]
    case CallSkip(_) => []
  }

  function CallsMeaning(ms: seq<CallSrc>, service: string, pkg: string): seq<Method> {
    if ms == [] then [] else CallMeaning(ms[0], service, pkg) + CallsMeaning(ms[1..], service, pkg)
  }

  function ServiceMeaning(s: ServiceSrc, pkg: string): Service {
    Service(s.name, JoinName(pkg, s.name), pkg, CallsMeaning(s.items, JoinName(pkg, s.name), pkg))
  }

  /** What a statement adds to the file, in the package named last before it. */
  function StatementMeaning(s: StatementSrc, f: File): File {
    match s
    case SyntaxStmt(text) => f.(syntax := text)
    case PackageStmt(pkg) => f.(pkg := (if pkg.absolute then "." else "") + TypeText(pkg))
    case ImportStmt(_, path) => f.(imports := f.imports + [path])
    case MessageStmt(m) => f.(messages := f.messages + [MessageMeaning(m, f.pkg, "")])
    case EnumStmt(e) => f.(enums := f.enums + [EnumMeaning(e, f.pkg, "")])
    case ServiceStmt(service) => f.(services := f.services + [ServiceMeaning(service, f.pkg)])
    case SkipStmt(_) => f
  }

  function FileMeaning(ss: seq<StatementSrc>, f: File): File {
    if ss == [] then f else FileMeaning(ss[1..], StatementMeaning(ss[0], f))
  }

  // ---------------------------------------------------------------- canonical sources

  predicate GoodType(t: TypeSrc) {
    t.path != [] && forall i :: 0 <= i < |t.path| ==> IsName(t.path[i])
  }

  /** No token that ends or nests a statement. */
  predicate Plain(tokens: seq<Token>) {
    forall i :: 0 <= i < |tokens| ==> tokens[i].value !in {";", "{", "}"}
  }

  predicate GoodOptions(options: Option<seq<Token>>) {
    options.Some? ==> Free(options.value, "[", "]")
  }

  const BODY_KEYWORDS := {"message", "enum", "reserved", "extensions", "option", "oneof"}

  /** No keyword is used as a bare type name. */
  predicate GoodField(f: FieldSrc) {
    && IsName(f.name) && GoodOptions(f.options)
    && (f.FieldSrc? ==>
          && GoodType(f.typ) && (f.cardinality == "" || IsLabel(f.cardinality))
          && (f.typ.absolute || (f.typ.path[0] != "map"
                && (f.cardinality == "" ==> f.typ.path[0] !in BODY_KEYWORDS && !IsLabel(f.typ.path[0])))))
    && (f.MapSrc? ==> Free(f.types, "<", ">"))
  }

  predicate GoodValue(v: ValueSrc) {
    match v
    case ValueSrc(name, _) => IsName(name) && name !in {"option", "reserved"}
    case ValueSkip(keyword, tokens) => keyword in {"option", "reserved"} && Plain(tokens)
  }

  predicate GoodValues(vs: seq<ValueSrc>) {
    forall i :: 0 <= i < |vs| ==> GoodValue(vs[i])
  }

  predicate GoodEnum(e: EnumSrc) {
    IsName(e.name) && GoodValues(e.items)
  }

  predicate GoodFields(fs: seq<FieldSrc>) {
    forall i :: 0 <= i < |fs| ==> GoodField(fs[i])
  }

  predicate GoodItem(i: BodySrc, depth: nat)
    decreases i
  {
    match i
    case FieldItem(f) => GoodField(f)
    case OneofItem(name, fields) => IsName(name) && GoodFields(fields)
    case NestedItem(m) => GoodMessage(m, depth)
    case EnumItem(e) => GoodEnum(e)
    case BodySkip(keyword, tokens) => keyword in {"reserved", "extensions", "option"} && Plain(tokens)
  }

  predicate GoodItems(items: seq<BodySrc>, depth: nat)
    decreases items
  {
    items == [] || (GoodItem(items[0], depth) && GoodItems(items[1..], depth))
  }

  predicate GoodMessage(m: MessageSrc, depth: nat)
    decreases m
  {
    IsName(m.name) && depth < MAX_NESTING_DEPTH && GoodItems(m.items, depth + 1)
  }

  /** A relative type named `stream` would be taken for the streaming flag. */
  predicate GoodSide(streaming: bool, t: TypeSrc) {
    GoodType(t) && (streaming || t.absolute || t.path[0] != "stream")
  }

  predicate GoodCall(m: CallSrc) {
    match m
    case CallSrc(name, clientStreaming, request, serverStreaming, response, body) =>
      && IsName(name) && GoodSide(clientStreaming, request) && GoodSide(serverStreaming, response)
      && (body.Some? ==> Free(body.value, "{", "}"))
    case CallSkip(tokens) => Plain(tokens) && (tokens != [] ==> tokens[0].value != "rpc")
  }

  predicate GoodService(s: ServiceSrc) {
    IsName(s.name) && forall i :: 0 <= i < |s.items| ==> GoodCall(s.items[i])
  }

  const FILE_KEYWORDS := {"syntax", "package", "import", "message", "enum", "service"}

  /** An import of a file called `public` or `weak` needs a modifier before it. */
  predicate GoodStatement(s: StatementSrc) {
    match s
    case SyntaxStmt(_) => true
    case PackageStmt(pkg) => GoodType(pkg)
    case ImportStmt(modifier, path) => modifier in {"public", "weak"} || (modifier == "" && path !in {"public", "weak"})
    case MessageStmt(m) => GoodMessage(m, 0)
    case EnumStmt(e) => GoodEnum(e)
    case ServiceStmt(service) => GoodService(service)
    case SkipStmt(tokens) => Plain(tokens) && (tokens != [] ==> tokens[0].value !in FILE_KEYWORDS)
  }

  predicate GoodFile(ss: seq<StatementSrc>) {
    forall i :: 0 <= i < |ss| ==> GoodStatement(ss[i])
  }
}
