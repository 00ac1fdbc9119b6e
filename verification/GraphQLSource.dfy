/** GraphQL schemas as their authors write them: type expressions and definitions, their
    tokens, the introspection result of a type, and what they stand for. */
module GraphQLSource {
  import opened GraphQLModel
  import opened GraphQLSpec
  import opened Json
  import opened Lexing
  import opened Text
  import opened Tokens
  import opened Wrappers

  /** A type expression (section 2.11 of the GraphQL specification, October 2021). */
  datatype TypeExpr = Named(name: string) | ListOf(of: TypeExpr) | NonNull(of: TypeExpr)

  datatype ArgSrc = ArgSrc(name: string, typ: TypeExpr)
  datatype FieldSrc = FieldSrc(description: Option<string>, name: string, args: seq<ArgSrc>, typ: TypeExpr)
  datatype InputSrc = InputSrc(description: Option<string>, name: string, typ: TypeExpr)
  datatype ValueSrc = ValueSrc(description: Option<string>, name: string)

  datatype DefSrc = ObjectDef(keyword: string, name: string, fields: seq<FieldSrc>)
                  | InputDef(name: string, inputs: seq<InputSrc>)
                  | EnumDef(name: string, values: seq<ValueSrc>)
                  | ScalarDef(name: string)
                  | SchemaDef(entries: seq<(string, string)>)

  /** A definition with the description before it. */
  datatype Described = Described(description: Option<string>, def: DefSrc)

  // ---------------------------------------------------------------- tokens

  function N(s: string): Token { Token(Name, s) }
  function P(s: string): Token { Token(Punct, s) }
  function S(s: string): Token { Token(Kind.Text, s) }

  function TypeTokens(t: TypeExpr): seq<Token> {
    match t
    case Named(name) => [N(name)]
    case ListOf(of) => [P("[")] + (TypeTokens(of) + [P("]")])
    case NonNull(of) => TypeTokens(of) + [P("!")]
  }

  function DescriptionTokens(d: Option<string>): seq<Token> {
    if d.None? then [] else [S(d.value)]
  }

  function ArgTokens(a: ArgSrc): seq<Token> {
    [N(a.name)] + ([P(":")] + TypeTokens(a.typ))
  }

  function ArgsTokens(args: seq<ArgSrc>): seq<Token> {
    if args == [] then [] else ArgTokens(args[0]) + ArgsTokens(args[1..])
  }

  function FieldTokens(f: FieldSrc): seq<Token> {
    DescriptionTokens(f.description) +
      ([N(f.name)] + ((if f.args == [] then [] else [P("(")] + (ArgsTokens(f.args) + [P(")")]))
                      + ([P(":")] + TypeTokens(f.typ))))
  }

  function FieldsTokens(fs: seq<FieldSrc>): seq<Token> {
    if fs == [] then [] else FieldTokens(fs[0]) + FieldsTokens(fs[1..])
  }

  function InputTokens(i: InputSrc): seq<Token> {
    DescriptionTokens(i.description) + ([N(i.name)] + ([P(":")] + TypeTokens(i.typ)))
  }

  function InputsTokens(xs: seq<InputSrc>): seq<Token> {
    if xs == [] then [] else InputTokens(xs[0]) + InputsTokens(xs[1..])
  }

  function ValueTokens(v: ValueSrc): seq<Token> {
    DescriptionTokens(v.description) + [N(v.name)]
  }

  function ValuesTokens(vs: seq<ValueSrc>): seq<Token> {
    if vs == [] then [] else ValueTokens(vs[0]) + ValuesTokens(vs[1..])
  }

  function EntryTokens(e: (string, string)): seq<Token> {
    [N(e.0)] + ([P(":")] + [N(e.1)])
  }

  function EntriesTokens(es: seq<(string, string)>): seq<Token> {
    if es == [] then [] else EntryTokens(es[0]) + EntriesTokens(es[1..])
  }

  function Block(body: seq<Token>): seq<Token> {
    [P("{")] + (body + [P("}")])
  }

  function DefTokens(d: DefSrc): seq<Token> {
    match d
    case ObjectDef(keyword, name, fields) => [N(keyword)] + ([N(name)] + Block(FieldsTokens(fields)))
    case InputDef(name, inputs) => [N("input")] + ([N(name)] + Block(InputsTokens(inputs)))
    case EnumDef(name, values) => [N("enum")] + ([N(name)] + Block(ValuesTokens(values)))
    case ScalarDef(name) => [N("scalar")] + [N(name)]
    case SchemaDef(entries) => [N("schema")] + Block(EntriesTokens(entries))
  }

  function DocumentTokens(ds: seq<Described>): seq<Token> {
    if ds == [] then []
    else DescriptionTokens(ds[0].description) + (DefTokens(ds[0].def) + DocumentTokens(ds[1..]))
  }

  // ---------------------------------------------------------------- meaning

  /** The type expression as it is written. */
  function Written(t: TypeExpr): string {
    match t
    case Named(name) => name
    case ListOf(of) => "[" + Written(of) + "]"
    case NonNull(of) => Written(of) + "!"
  }

  predicate IsList(t: TypeExpr) {
    match t
    case Named(_) => false
    case ListOf(_) => true
    case NonNull(of) => IsList(of)
  }

  /** How many lists are nested. */
  function Lists(t: TypeExpr): nat {
    match t
    case Named(_) => 0
    case ListOf(of) => 1 + Lists(of)
    case NonNull(of) => Lists(of)
  }

  /** The reference that the parser builds: NON_NULL is a flag of what it wraps. */
  function RefOf(t: TypeExpr): TypeRef {
    match t
    case Named(name) => TypeRef(name, "", name, false, false, None)
    case ListOf(of) => TypeRef("", "", "[" + RefOf(of).display + "]", false, true, Some(RefOf(of)))
    case NonNull(of) => RefOf(of).(display := RefOf(of).display + "!", required := true)
  }

  /** The introspection result of a type (section 4.2.2). */
  function Introspected(t: TypeExpr, kind: string): Json {
    match t
    case Named(name) => Obj(map["kind" := Str(kind), "name" := Str(name), "ofType" := Null])
    case ListOf(of) => Obj(map["kind" := Str("LIST"), "name" := Null, "ofType" := Introspected(of, kind)])
    case NonNull(of) => Obj(map["kind" := Str("NON_NULL"), "name" := Null, "ofType" := Introspected(of, kind)])
  }

  function DescriptionText(d: Option<string>): string {
    if d.None? then "" else TrimSpace(d.value)
  }

  function ArgOf(name: string, description: string, t: TypeExpr): Argument {
    Argument(name, description, RefOf(t), "", t.NonNull?)
  }

  function ArgsMeaning(args: seq<ArgSrc>): seq<Argument> {
    if args == [] then [] else [ArgOf(args[0].name, "", args[0].typ)] + ArgsMeaning(args[1..])
  }

  function FieldMeaning(f: FieldSrc): Field {
    Field(f.name, DescriptionText(f.description), RefOf(f.typ), ArgsMeaning(f.args))
  }

  function FieldsMeaning(fs: seq<FieldSrc>): seq<Field> {
    if fs == [] then [] else [FieldMeaning(fs[0])] + FieldsMeaning(fs[1..])
  }

  function InputsMeaning(xs: seq<InputSrc>): seq<Argument> {
    if xs == [] then [] else [ArgOf(xs[0].name, DescriptionText(xs[0].description), xs[0].typ)] + InputsMeaning(xs[1..])
  }

  function ValuesMeaning(vs: seq<ValueSrc>): seq<EnumValue> {
    if vs == [] then [] else [EnumValue(vs[0].name, DescriptionText(vs[0].description))] + ValuesMeaning(vs[1..])
  }

  function EntriesMeaning(es: seq<(string, string)>, s: RootTypes): RootTypes {
    if es == [] then s else EntriesMeaning(es[1..], WithRoot(s, es[0].0, es[0].1))
  }

  function DefMeaning(d: DefSrc, description: string, m: Model): Model {
    match d
    case ObjectDef(keyword, name, fields) =>
      var t := NewType(name, if keyword == "type" then "TYPE" else "INTERFACE", description);
      m.(types := m.types + [t.(fields := FieldsMeaning(fields))])
    case InputDef(name, inputs) =>
      m.(types := m.types + [NewType(name, "INPUT_OBJECT", description).(inputFields := InputsMeaning(inputs))])
    case EnumDef(name, values) =>
      m.(types := m.types + [NewType(name, "ENUM", description).(enumValues := ValuesMeaning(values))])
    case ScalarDef(name) => m.(types := m.types + [NewType(name, "SCALAR", description)])
    case SchemaDef(entries) => m.(schema := EntriesMeaning(entries, m.schema.(description := description)))
  }

  function DocumentMeaning(ds: seq<Described>, m: Model): Model {
    if ds == [] then m
    else DocumentMeaning(ds[1..], DefMeaning(ds[0].def, DescriptionText(ds[0].description), m))
  }

  // ---------------------------------------------------------------- canonical sources

  predicate GoodType(t: TypeExpr) {
    match t
    case Named(name) => IsName(name)
    case ListOf(of) => GoodType(of)
    case NonNull(of) => GoodType(of) && !of.NonNull?
  }

  /** A type that the parser reads: lists nested below the limit. */
  predicate ReadableType(t: TypeExpr) {
    GoodType(t) && Lists(t) < MAX_NESTING_DEPTH
  }

  /** The parser compares texts with punctuation: these descriptions would be taken for it. */
  predicate GoodDescription(d: Option<string>) {
    d.Some? ==> d.value !in {"}", "@", "!", "=", "(", ":"}
  }

  predicate GoodArgs(args: seq<ArgSrc>) {
    forall i :: 0 <= i < |args| ==> IsName(args[i].name) && ReadableType(args[i].typ)
  }

  predicate GoodField(f: FieldSrc) {
    GoodDescription(f.description) && IsName(f.name) && GoodArgs(f.args) && ReadableType(f.typ)
  }

  predicate GoodFields(fs: seq<FieldSrc>) {
    forall i :: 0 <= i < |fs| ==> GoodField(fs[i])
  }

  predicate GoodInputs(xs: seq<InputSrc>) {
    forall i :: 0 <= i < |xs| ==> GoodDescription(xs[i].description) && IsName(xs[i].name) && ReadableType(xs[i].typ)
  }

  predicate GoodValues(vs: seq<ValueSrc>) {
    forall i :: 0 <= i < |vs| ==> GoodDescription(vs[i].description) && IsName(vs[i].name)
  }

  predicate GoodEntries(es: seq<(string, string)>) {
    forall i :: 0 <= i < |es| ==> IsName(es[i].0) && IsName(es[i].1)
  }

  predicate GoodDef(d: DefSrc) {
    match d
    case ObjectDef(keyword, name, fields) => keyword in {"type", "interface"} && IsName(name) && GoodFields(fields)
    case InputDef(name, inputs) => IsName(name) && GoodInputs(inputs)
    case EnumDef(name, values) => IsName(name) && GoodValues(values)
    case ScalarDef(name) => IsName(name)
    case SchemaDef(entries) => GoodEntries(entries)
  }

  predicate GoodDocument(ds: seq<Described>) {
    forall i :: 0 <= i < |ds| ==> GoodDef(ds[i].def)
  }
}
