/** The protobuf metadata both front ends produce (grpcproto/model.go). */
module ProtoModel {
  import opened Ordering
  import opened Text

  datatype EnumValue = EnumValue(name: string, number: int)

  datatype Enum = Enum(name: string, fullName: string, values: seq<EnumValue>)

  datatype Field = Field(name: string, number: int, cardinality: string, typ: string, typeName: string,
                         jsonName: string, repeated: bool, required: bool)

  datatype Message = Message(name: string, fullName: string, fields: seq<Field>,
                             messages: seq<Message>, enums: seq<Enum>)

  datatype Method = Method(name: string, fullName: string, serviceName: string, pkg: string,
                           requestType: string, responseType: string,
                           clientStreaming: bool, serverStreaming: bool,
                           selector: string, operationId: string)

  datatype Service = Service(name: string, fullName: string, pkg: string, methods: seq<Method>)

  datatype File = File(name: string, pkg: string, syntax: string, imports: seq<string>,
                       services: seq<Service>, messages: seq<Message>, enums: seq<Enum>)

  /** protoLabelNumberName */
  function LabelName(number: int): string {
    match number
    case 1 => "optional"
    case 2 => "required"
    case 3 => "repeated"
    case _ => ""
  }

  /** protoTypeNumberName */
  function TypeName(number: int): string {
    match number
    case 1 => "double"
    case 2 => "float"
    case 3 => "int64"
    case 4 => "uint64"
    case 5 => "int32"
    case 6 => "fixed64"
    case 7 => "fixed32"
    case 8 => "bool"
    case 9 => "string"
    case 10 => "group"
    case 11 => "message"
    case 12 => "bytes"
    case 13 => "uint32"
    case 14 => "enum"
    case 15 => "sfixed32"
    case 16 => "sfixed64"
    case 17 => "sint32"
    case 18 => "sint64"
    case _ => ""
  }

  // ---------------------------------------------------------------- finalizeModel

  /** escapeJSONPointer */
  function Escape(s: string): string {
    if s == [] then []
    else (if s[0] == '~' then "~0" else if s[0] == '/' then "~1" else [s[0]]) + Escape(s[1..])
  }

  function MethodSelector(serviceFullName: string, methodName: string): string {
    "#/services/" + Escape(TrimSpace(serviceFullName)) + "/methods/" + Escape(TrimSpace(methodName))
  }

  function FinalizeMethod(rpc: Method, service: Service): Method {
    rpc.(pkg := FirstNonEmpty(rpc.pkg, service.pkg),
            serviceName := service.fullName,
            fullName := JoinName(service.fullName, rpc.name),
            operationId := service.fullName + "/" + rpc.name,
            selector := MethodSelector(service.fullName, rpc.name))
  }

  function FinalizeService(service: Service, filePkg: string): Service {
    var s := service.(pkg := if service.pkg == "" then filePkg else service.pkg);
    var t := s.(fullName := if s.fullName == "" then JoinName(s.pkg, s.name) else s.fullName);
    t.(methods := seq(|t.methods|, i requires 0 <= i < |t.methods| => FinalizeMethod(t.methods[i], t)))
  }

  function Upper(c: char): char {
    if 'a' <= c <= 'z' then (c as int - 32) as char else c
  }

  /** lowerCamel: underscores drop out, and the character after one becomes a capital. */
  function LowerCamel(s: string): string {
    if s == "" then ""
    else if s[0] != '_' then [s[0]] + LowerCamel(s[1..])
    else if |s| > 1 && s[1] != '_' then [Upper(s[1])] + LowerCamel(s[2..])
    else LowerCamel(s[1..])
  }

  /** finalizeMessage: fields without a JSON name get theirs, at every level. */
  function FinalizeMessage(message: Message): Message
    decreases message, 0
  {
    message.(fields := NamedInJson(message.fields), messages := FinalizeMessages(message.messages))
  }

  function FinalizeMessages(messages: seq<Message>): seq<Message>
    decreases messages
  {
    if messages == [] then [] else [FinalizeMessage(messages[0])] + FinalizeMessages(messages[1..])
  }

  function NamedInJson(fields: seq<Field>): seq<Field> {
    if fields == [] then []
    else
      [if fields[0].jsonName == "" then fields[0].(jsonName := LowerCamel(fields[0].name)) else fields[0]]
      + NamedInJson(fields[1..])
  }

  function ServiceKey(service: Service): string { service.fullName }
  function MessageKey(message: Message): string { message.fullName }
  function FileKey(file: File): string { file.name }

  /** Fills the derived names of services and fields and sorts services and messages by full
      name. */
  function FinalizeFile(file: File): File {
    var services := seq(|file.services|,
                        i requires 0 <= i < |file.services| => FinalizeService(file.services[i], file.pkg));
    file.(services := SortBy(ServiceKey, services), messages := SortBy(MessageKey, FinalizeMessages(file.messages)))
  }

  function Finalize(files: seq<File>): seq<File> {
    SortBy(FileKey, seq(|files|, i requires 0 <= i < |files| => FinalizeFile(files[i])))
  }

  /** modelHasMetadata */
  predicate HasMetadata(files: seq<File>) {
    exists file <- files :: file.services != [] || file.messages != [] || file.enums != []
  }
}
