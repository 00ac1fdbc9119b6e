/** From field trees to protobuf metadata: what the switch of each parse*DescriptorProto
    function does with the fields it has read, one field at a time. */
module WireModel {
  import opened Text
  import opened ProtoModel
  import opened WireFormat

  /** The value a parse function is filling in. */
  datatype Draft =
    | SetD(files: seq<File>)
    | FileD(file: File)
    | ServiceD(service: Service)
    | MethodD(rpc: Method)
    | MessageD(message: Message)
    | FieldD(field: Field)
    | EnumD(enumeration: Enum)
    | ValueD(value: EnumValue)
  {
    function Kind(): Kind {
      match this
      case SetD(_) => SetK
      case FileD(_) => FileK
      case ServiceD(_) => ServiceK
      case MethodD(_) => MethodK
      case MessageD(_) => MessageK
      case FieldD(_) => FieldK
      case EnumD(_) => EnumK
      case ValueD(_) => ValueK
    }
  }

  /** The package and the enclosing message path a parse function is called with. */
  datatype Scope = Scope(pkg: string, parent: string)

  const NoScope := Scope("", "")

  function Fresh(kind: Kind, scope: Scope): (d: Draft)
    ensures d.Kind() == kind
  {
    match kind
    case SetK => SetD([])
    case FileK => FileD(File("", "", "", [], [], [], []))
    case ServiceK => ServiceD(Service("", "", scope.pkg, []))
    case MethodK => MethodD(Method("", "", "", scope.pkg, "", "", false, false, "", ""))
    case MessageK => MessageD(Message("", "", [], [], []))
    case FieldK => FieldD(Field("", 0, "", "", "", "", false, false))
    case EnumK => EnumD(Enum("", "", []))
    case ValueK => ValueD(EnumValue("", 0))
  }

  /** The package and path passed on to the parser of a nested message of this kind. */
  function SubScope(draft: Draft, scope: Scope, kind: Kind): Scope {
    match kind
    case MessageK => if draft.FileD? then Scope(draft.file.pkg, "") else Inner(draft, scope)
    case EnumK => if draft.FileD? then Scope(draft.file.pkg, "") else Inner(draft, scope)
    case ServiceK => if draft.FileD? then Scope(draft.file.pkg, "") else NoScope
    case MethodK => Scope(scope.pkg, "")
    case _ => NoScope
  }

  function Inner(draft: Draft, scope: Scope): Scope {
    if draft.MessageD? then Scope(scope.pkg, JoinName(scope.parent, draft.message.name)) else NoScope
  }

  function FileText(f: File, number: nat, text: string): File {
    match number
    case 1 => f.(name := text)
    case 2 => f.(pkg := text)
    case 3 => if text == "" then f else f.(imports := f.imports + [text])
    case 12 => f.(syntax := text)
    case _ => f
  }

  function MethodText(m: Method, number: nat, text: string): Method {
    match number
    case 1 => m.(name := text)
    case 2 => m.(requestType := NormalizeTypeName(text))
    case 3 => m.(responseType := NormalizeTypeName(text))
    case _ => m
  }

  function FieldText(f: Field, number: nat, text: string): Field {
    match number
    case 1 => f.(name := text)
    case 6 => f.(typeName := NormalizeTypeName(text))
    case 10 => f.(jsonName := text)
    case _ => f
  }

  function ApplyText(draft: Draft, number: nat, text: string): (d: Draft)
    ensures d.Kind() == draft.Kind()
  {
    match draft
    case FileD(f) => FileD(FileText(f, number, text))
    case MethodD(m) => MethodD(MethodText(m, number, text))
    case FieldD(f) => FieldD(FieldText(f, number, text))
    case ServiceD(s) => if number == 1 then ServiceD(s.(name := text)) else draft
    case MessageD(m) => if number == 1 then MessageD(m.(name := text)) else draft
    case EnumD(e) => if number == 1 then EnumD(e.(name := text)) else draft
    case ValueD(v) => if number == 1 then ValueD(v.(name := text)) else draft
    case SetD(_) => draft
  }

  function MethodInt(m: Method, number: nat, value: int): Method {
    match number
    case 5 => m.(clientStreaming := value != 0)
    case 6 => m.(serverStreaming := value != 0)
    case _ => m
  }

  function FieldInt(f: Field, number: nat, value: int): Field {
    match number
    case 3 => f.(number := value)
    case 4 =>
      var name := LabelName(value);
      f.(cardinality := name, repeated := name == "repeated", required := name == "required")
    case 5 => f.(typ := TypeName(value))
    case _ => f
  }

  function ApplyInt(draft: Draft, number: nat, value: int): (d: Draft)
    ensures d.Kind() == draft.Kind()
  {
    match draft
    case MethodD(m) => MethodD(MethodInt(m, number, value))
    case FieldD(f) => FieldD(FieldInt(f, number, value))
    case ValueD(v) => if number == 2 then ValueD(v.(number := value)) else draft
    case _ => draft
  }

  /** Appends a parsed nested message; the nested parsers return nil for a nameless one. */
  function ApplySub(draft: Draft, number: nat, sub: Draft, scope: Scope): (d: Draft)
    ensures d.Kind() == draft.Kind()
  {
    match draft
    case SetD(files) => if sub.FileD? then SetD(files + [sub.file]) else draft
    case FileD(f) => FileD(FileSub(f, sub, scope))
    case ServiceD(s) => if sub.MethodD? then ServiceD(s.(methods := s.methods + NamedMethod(sub.rpc))) else draft
    case MessageD(m) => MessageD(MessageSub(m, sub, scope))
    case EnumD(e) => if sub.ValueD? then EnumD(e.(values := e.values + NamedValue(sub.value))) else draft
    case _ => draft
  }

  function FileSub(f: File, sub: Draft, scope: Scope): File {
    match sub
    case MessageD(m) => f.(messages := f.messages + NamedMessage(m, scope))
    case EnumD(e) => f.(enums := f.enums + NamedEnum(e, scope))
    case ServiceD(s) => f.(services := f.services + NamedService(s, scope))
    case _ => f
  }

  function MessageSub(m: Message, sub: Draft, scope: Scope): Message {
    match sub
    case FieldD(f) => m.(fields := m.fields + NamedField(f))
    case MessageD(n) => m.(messages := m.messages + NamedMessage(n, scope))
    case EnumD(e) => m.(enums := m.enums + NamedEnum(e, scope))
    case _ => m
  }

  function NamedMessage(m: Message, scope: Scope): seq<Message> {
    if m.name == "" then [] else [m.(fullName := JoinName(scope.pkg, JoinName(scope.parent, m.name)))]
  }

  function NamedEnum(e: Enum, scope: Scope): seq<Enum> {
    if e.name == "" then [] else [e.(fullName := JoinName(scope.pkg, JoinName(scope.parent, e.name)))]
  }

  function NamedService(s: Service, scope: Scope): seq<Service> {
    if s.name == "" then [] else [s.(fullName := JoinName(scope.pkg, s.name))]
  }

  function NamedMethod(m: Method): seq<Method> {
    if m.name == "" then [] else [m]
  }

  function NamedField(f: Field): seq<Field> {
    if f.name == "" then [] else [f]
  }

  function NamedValue(v: EnumValue): seq<EnumValue> {
    if v.name == "" then [] else [v]
  }

  /** One turn of a parse loop. */
  function Apply(draft: Draft, scope: Scope, item: Item): (d: Draft)
    ensures d.Kind() == draft.Kind()
    decreases item
  {
    match item.payload
    case TextP(text) => ApplyText(draft, item.number, text)
    case IntP(value) => ApplyInt(draft, item.number, value)
    case SubP(items) =>
      (match ShapeOf(draft.Kind(), item.number, 2)
       case SubS(kind) =>
         var inner := SubScope(draft, scope, kind);
         ApplySub(draft, item.number, Build(Fresh(kind, inner), inner, items), inner)
       case _ => draft)
    case ExtraP(_) => draft
  }

  /** A whole parse loop over the fields that were read. */
  function Build(draft: Draft, scope: Scope, items: seq<Item>): (d: Draft)
    ensures d.Kind() == draft.Kind()
    decreases items
  {
    if items == [] then draft else Build(Apply(draft, scope, items[0]), scope, items[1..])
  }

  lemma {:induction false} BuildAppend(draft: Draft, scope: Scope, a: seq<Item>, b: seq<Item>)
    ensures Build(draft, scope, a + b) == Build(Build(draft, scope, a), scope, b)
    decreases |a|
  {
    hide Apply;
    if a == [] {
      assert a + b == b;
    } else {
      assert (a + b)[1..] == a[1..] + b;
      BuildAppend(Apply(draft, scope, a[0]), scope, a[1..], b);
    }
  }

  // What each kind of nested message adds to the message around it.

  lemma ValueJoins(e: Enum, v: EnumValue, scope: Scope)
    ensures ApplySub(EnumD(e), 2, ValueD(v), scope) == EnumD(e.(values := e.values + NamedValue(v)))
  {
  }

  lemma FileJoins(files: seq<File>, f: File, scope: Scope)
    ensures ApplySub(SetD(files), 1, FileD(f), scope) == SetD(files + [f])
  {
  }

  lemma EnumJoinsFile(f: File, d: Draft, scope: Scope)
    requires d.EnumD?
    ensures ApplySub(FileD(f), 5, d, scope) == FileD(f.(enums := f.enums + NamedEnum(d.enumeration, scope)))
  {
  }

  lemma EnumJoinsMessage(m: Message, d: Draft, scope: Scope)
    requires d.EnumD?
    ensures ApplySub(MessageD(m), 4, d, scope) == MessageD(m.(enums := m.enums + NamedEnum(d.enumeration, scope)))
  {
  }

  lemma FieldJoins(m: Message, d: Draft, scope: Scope)
    requires d.FieldD?
    ensures ApplySub(MessageD(m), 2, d, scope) == MessageD(m.(fields := m.fields + NamedField(d.field)))
  {
  }

  lemma MessageJoins(m: Message, d: Draft, scope: Scope)
    requires d.MessageD?
    ensures ApplySub(MessageD(m), 3, d, scope) == MessageD(m.(messages := m.messages + NamedMessage(d.message, scope)))
  {
  }

  lemma MessageJoinsFile(f: File, d: Draft, scope: Scope)
    requires d.MessageD?
    ensures ApplySub(FileD(f), 4, d, scope) == FileD(f.(messages := f.messages + NamedMessage(d.message, scope)))
  {
  }

  lemma MethodJoins(s: Service, d: Draft, scope: Scope)
    requires d.MethodD?
    ensures ApplySub(ServiceD(s), 2, d, scope) == ServiceD(s.(methods := s.methods + NamedMethod(d.rpc)))
  {
  }

  lemma ServiceJoins(f: File, d: Draft, scope: Scope)
    requires d.ServiceD?
    ensures ApplySub(FileD(f), 6, d, scope) == FileD(f.(services := f.services + NamedService(d.service, scope)))
  {
  }

  // ---------------------------------------------------------------- parseBinaryDescriptorSet

  datatype ParseError = Wire(error: WireError) | NoFiles | NoMetadata
  datatype Parsed = Model(files: seq<File>) | Rejected(error: ParseError)

  /** What the parser makes of the files it has read. */
  function Conclude(files: seq<File>): Parsed {
    if files == [] then Rejected(NoFiles)
    else
      var model := Finalize(files);
      if HasMetadata(model) then Model(model) else Rejected(NoMetadata)
  }

  function ParseDescriptorSet(data: Bytes): Parsed {
    match DecodeMessage(SetK, 0, data, 0)
    case Stop(error, _) => Rejected(Wire(error))
    case Done(items, _) => Conclude(Build(SetD([]), NoScope, items).files)
  }
}
