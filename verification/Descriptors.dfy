/** Descriptors as a protobuf compiler writes them: the field trees of their messages, with
    fields in ascending order and default values left out, and the metadata they stand for. */
module Descriptors {
  import opened Text
  import opened ProtoModel
  import opened WireFormat

  type Int64 = n: int | IsInt64(n)

  datatype ValueDesc = ValueDesc(name: Bytes, number: Int64)
  datatype EnumDesc = EnumDesc(name: Bytes, values: seq<ValueDesc>)
  datatype FieldDesc = FieldDesc(name: Bytes, number: Int64, cardinality: Int64, typ: Int64,
                                 typeName: Bytes, jsonName: Bytes)
  datatype MessageDesc = MessageDesc(name: Bytes, fields: seq<FieldDesc>,
                                     nested: seq<MessageDesc>, enums: seq<EnumDesc>)
  datatype MethodDesc = MethodDesc(name: Bytes, input: Bytes, output: Bytes,
                                   clientStreaming: bool, serverStreaming: bool)
  datatype ServiceDesc = ServiceDesc(name: Bytes, methods: seq<MethodDesc>)
  datatype FileDesc = FileDesc(name: Bytes, pkg: Bytes, dependencies: seq<Bytes>, messages: seq<MessageDesc>,
                               enums: seq<EnumDesc>, services: seq<ServiceDesc>, syntax: Bytes)

  // ---------------------------------------------------------------- field trees

  function TextItem(number: nat, text: Bytes): seq<Item> {
    if text == [] then [] else [Item(number, TextP(text))]
  }

  function IntItem(number: nat, value: Int64): seq<Item> {
    if value == 0 then [] else [Item(number, IntP(value))]
  }

  function BoolItem(number: nat, value: bool): seq<Item> {
    IntItem(number, if value then 1 else 0)
  }

  function SubItem(number: nat, items: seq<Item>): seq<Item> {
    [Item(number, SubP(items))]
  }

  function ValueItems(v: ValueDesc): seq<Item> {
    TextItem(1, v.name) + IntItem(2, v.number)
  }

  function ValuesItems(vs: seq<ValueDesc>): seq<Item> {
    if vs == [] then [] else SubItem(2, ValueItems(vs[0])) + ValuesItems(vs[1..])
  }

  function EnumItems(e: EnumDesc): seq<Item> {
    TextItem(1, e.name) + ValuesItems(e.values)
  }

  function EnumsItems(number: nat, es: seq<EnumDesc>): seq<Item> {
    if es == [] then [] else SubItem(number, EnumItems(es[0])) + EnumsItems(number, es[1..])
  }

  function FieldItems(f: FieldDesc): seq<Item> {
    TextItem(1, f.name) + IntItem(3, f.number) + IntItem(4, f.cardinality) + IntItem(5, f.typ)
      + TextItem(6, f.typeName) + TextItem(10, f.jsonName)
  }

  function FieldsItems(fs: seq<FieldDesc>): seq<Item> {
    if fs == [] then [] else SubItem(2, FieldItems(fs[0])) + FieldsItems(fs[1..])
  }

  function MessageItems(m: MessageDesc): seq<Item>
    decreases m
  {
    TextItem(1, m.name) + FieldsItems(m.fields) + MessagesItems(3, m.nested) + EnumsItems(4, m.enums)
  }

  function MessagesItems(number: nat, ms: seq<MessageDesc>): seq<Item>
    decreases ms
  {
    if ms == [] then [] else SubItem(number, MessageItems(ms[0])) + MessagesItems(number, ms[1..])
  }

  function MethodItems(m: MethodDesc): seq<Item> {
    TextItem(1, m.name) + TextItem(2, m.input) + TextItem(3, m.output)
      + BoolItem(5, m.clientStreaming) + BoolItem(6, m.serverStreaming)
  }

  function MethodsItems(ms: seq<MethodDesc>): seq<Item> {
    if ms == [] then [] else SubItem(2, MethodItems(ms[0])) + MethodsItems(ms[1..])
  }

  function ServiceItems(s: ServiceDesc): seq<Item> {
    TextItem(1, s.name) + MethodsItems(s.methods)
  }

  function ServicesItems(ss: seq<ServiceDesc>): seq<Item> {
    if ss == [] then [] else SubItem(6, ServiceItems(ss[0])) + ServicesItems(ss[1..])
  }

  function DependencyItems(ds: seq<Bytes>): seq<Item> {
    if ds == [] then [] else [Item(3, TextP(ds[0]))] + DependencyItems(ds[1..])
  }

  function FileItems(f: FileDesc): seq<Item> {
    TextItem(1, f.name) + TextItem(2, f.pkg) + DependencyItems(f.dependencies) + MessagesItems(4, f.messages)
      + EnumsItems(5, f.enums) + ServicesItems(f.services) + TextItem(12, f.syntax)
  }

  function SetItems(fs: seq<FileDesc>): seq<Item> {
    if fs == [] then [] else SubItem(1, FileItems(fs[0])) + SetItems(fs[1..])
  }

  // ---------------------------------------------------------------- meaning

  /** The metadata of a descriptor; nameless entries carry none. */
  function ValueMeaning(v: ValueDesc): seq<EnumValue> {
    if v.name == [] then [] else [EnumValue(v.name, v.number)]
  }

  function ValuesMeaning(vs: seq<ValueDesc>): seq<EnumValue> {
    if vs == [] then [] else ValueMeaning(vs[0]) + ValuesMeaning(vs[1..])
  }

  function EnumMeaning(e: EnumDesc, pkg: string, parent: string): seq<Enum> {
    if e.name == [] then [] else [Enum(e.name, JoinName(pkg, JoinName(parent, e.name)), ValuesMeaning(e.values))]
  }

  function EnumsMeaning(es: seq<EnumDesc>, pkg: string, parent: string): seq<Enum> {
    if es == [] then [] else EnumMeaning(es[0], pkg, parent) + EnumsMeaning(es[1..], pkg, parent)
  }

  function FieldMeaning(f: FieldDesc): seq<Field> {
    if f.name == [] then []
    else
      var label' := LabelName(f.cardinality);
      [Field(f.name, f.number, label', TypeName(f.typ), NormalizeTypeName(f.typeName), f.jsonName,
             label' == "repeated", label' == "required")]
  }

  function FieldsMeaning(fs: seq<FieldDesc>): seq<Field> {
    if fs == [] then [] else FieldMeaning(fs[0]) + FieldsMeaning(fs[1..])
  }

  function MessageMeaning(m: MessageDesc, pkg: string, parent: string): seq<Message>
    decreases m
  {
    if m.name == [] then []
    else
      var path := JoinName(parent, m.name);
      [Message(m.name, JoinName(pkg, path), FieldsMeaning(m.fields),
               MessagesMeaning(m.nested, pkg, path), EnumsMeaning(m.enums, pkg, path))]
  }

  function MessagesMeaning(ms: seq<MessageDesc>, pkg: string, parent: string): seq<Message>
    decreases ms
  {
    if ms == [] then [] else MessageMeaning(ms[0], pkg, parent) + MessagesMeaning(ms[1..], pkg, parent)
  }

  function MethodMeaning(m: MethodDesc, pkg: string): seq<Method> {
    if m.name == [] then []
    else [Method(m.name, "", "", pkg, NormalizeTypeName(m.input), NormalizeTypeName(m.output),
                 m.clientStreaming, m.serverStreaming, "", "")]
  }

  function MethodsMeaning(ms: seq<MethodDesc>, pkg: string): seq<Method> {
    if ms == [] then [] else MethodMeaning(ms[0], pkg) + MethodsMeaning(ms[1..], pkg)
  }

  function ServiceMeaning(s: ServiceDesc, pkg: string): seq<Service> {
    if s.name == [] then [] else [Service(s.name, JoinName(pkg, s.name), pkg, MethodsMeaning(s.methods, pkg))]
  }

  function ServicesMeaning(ss: seq<ServiceDesc>, pkg: string): seq<Service> {
    if ss == [] then [] else ServiceMeaning(ss[0], pkg) + ServicesMeaning(ss[1..], pkg)
  }

  function NonEmptyTexts(ds: seq<Bytes>): seq<string> {
    if ds == [] then [] else (if ds[0] == [] then [] else [ds[0]]) + NonEmptyTexts(ds[1..])
  }

  function FileMeaning(f: FileDesc): File {
    File(f.name, f.pkg, f.syntax, NonEmptyTexts(f.dependencies), ServicesMeaning(f.services, f.pkg),
         MessagesMeaning(f.messages, f.pkg, ""), EnumsMeaning(f.enums, f.pkg, ""))
  }

  function SetMeaning(fs: seq<FileDesc>): seq<File> {
    if fs == [] then [] else [FileMeaning(fs[0])] + SetMeaning(fs[1..])
  }
}
