/** The parser of GraphQL documents (graphql/parse.go) as functions of the token cursor, and
    the reader of introspected type references. */
module GraphQLSpec {
  import opened GraphQLModel
  import opened Json
  import opened Lexing
  import opened OperationIDs
  import opened Text
  import opened Tokens
  import opened Wrappers
  import Ordering

  // ---------------------------------------------------------------- type references

  function Bang(required: bool): string {
    if required then "!" else ""
  }

  /** parseTypeRefDepth */
  function ParseTypeRef(c: Cursor, depth: nat): (r: (TypeRef, Cursor))
    ensures |r.1.rest| <= |c.rest|
    decreases |c.rest|
  {
    if depth >= MAX_NESTING_DEPTH then (NoType, c.Fail())
    else if c.At("[") then
      var (inner, end) := ParseTypeRef(c.Next(), depth + 1);
      var closed := end.Skip("]");
      (TypeRef("", "", "[" + inner.display + "]" + Bang(closed.At("!")), closed.At("!"), true, Some(inner)),
       closed.Skip("!"))
    else
      var name, named := c.NameHere(), c.AfterName();
      (TypeRef(name, "", name + Bang(named.At("!")), named.At("!"), false, None), named.Skip("!"))
  }

  /** scalarString */
  function ScalarString(v: Json): string {
    match v
    case Str(s) => s
    case Number(text) => text
    case Bool(b) => if b then "true" else "false"
    case _ => ""
  }

  function StringField(root: Schema, key: string): string {
    TrimSpace(ScalarString(Get(root, key)))
  }

  /** introspectionTypeDisplay */
  function Display(kind: string, name: string, ofType: Option<TypeRef>): string {
    var inner := if ofType.Some? then ofType.value.display else "";
    match kind
    case "NON_NULL" => inner + "!"
    case "LIST" => "[" + inner + "]"
    case _ => if name != "" then name else inner
  }

  function IntrospectedRef(name: string, kind: string, inner: TypeRef): TypeRef {
    var ofType := if inner.display != "" then Some(inner) else None;
    TypeRef(name, kind, Display(kind, name, ofType), kind == "NON_NULL",
            kind == "LIST" || (ofType.Some? && ofType.value.list), ofType)
  }

  /** typeRefFromIntrospection */
  function TypeRefFromIntrospection(v: Json): TypeRef {
    match v
    case Obj(root) =>
      var inner := if "ofType" in root then TypeRefFromIntrospection(root["ofType"]) else NoType;
      IntrospectedRef(StringField(root, "name"), StringField(root, "kind"), inner)
    case _ => NoType
  }

  // ---------------------------------------------------------------- skipping

  /** peekDefinitionBoundary */
  predicate AtBoundary(c: Cursor) {
    c.AtKind(Name) && c.rest[0].value in {"schema", "type", "interface", "input", "enum", "scalar", "union", "query",
                                          "mutation", "subscription", "fragment", "extend"}
  }

  /** skipUntil */
  function SkipUntil(c: Cursor, value: string): (r: Cursor)
    ensures |r.rest| <= |c.rest|
    decreases |c.rest|
  {
    if c.Done() || c.At(value) || AtBoundary(c) then c else SkipUntil(c.Next(), value)
  }

  /** skipDirectives */
  function SkipDirectives(c: Cursor): (r: Cursor)
    ensures |r.rest| <= |c.rest|
    decreases |c.rest|
  {
    if c.At("@") then SkipDirectives(SkipBalanced(c.Next().AfterName(), "(", ")")) else c
  }

  /** The loop of skipDefinition. */
  function SkipToDefinition(c: Cursor): (r: Cursor)
    ensures |r.rest| <= |c.rest|
    decreases |c.rest|
  {
    if c.Done() || AtBoundary(c) then c
    else if c.At("{") then SkipBalanced(c, "{", "}")
    else SkipToDefinition(c.Next())
  }

  function SkipDefinition(c: Cursor): (r: Cursor)
    requires c.rest != []
    ensures |r.rest| < |c.rest|
  {
    if c.At("{") then SkipBalanced(c, "{", "}") else SkipToDefinition(c.Next())
  }

  predicate EndsDefault(c: Cursor)
    requires c.rest != []
  {
    c.rest[0].value in {")", "}", "@"} || (c.AtKind(Name) && c.Next().At(":"))
  }

  /** collectDefaultValue */
  function DefaultValue(c: Cursor, depth: nat): (r: (string, Cursor))
    ensures |r.1.rest| <= |c.rest|
    decreases |c.rest|
  {
    if c.Done() || (depth == 0 && EndsDefault(c)) then ("", c)
    else
      var value := c.rest[0].value;
      if value in {"]", "}", ")"} && depth == 0 then ("", c)
      else
        var (more, end) := DefaultValue(c.Next(), if value in {"[", "{", "("} then depth + 1
                                                  else if value in {"]", "}", ")"} then depth - 1 else depth);
        (value + more, end)
  }

  // ---------------------------------------------------------------- arguments and fields

  /** An argument, input field or variable after its name. */
  function ArgumentRest(c: Cursor, name: string, description: string): (r: (Argument, Cursor))
    ensures |r.1.rest| <= |c.rest|
  {
    var (typ, typed) := if c.At(":") then ParseTypeRef(c.Next(), 0) else (NoType, c);
    var (text, end) := if typed.At("=") then DefaultValue(typed.Next(), 0) else ("", typed);
    (Argument(name, description, typ, text, typ.required), SkipDirectives(end))
  }

  /** The loop of parseArgumentsDefinition; the one of parseVariablesDefinition also skips a
      dollar sign. */
  function Arguments(c: Cursor, args: seq<Argument>, dollar: bool): (r: (seq<Argument>, Cursor))
    ensures |r.1.rest| <= |c.rest|
    decreases |c.rest|
  {
    if c.Done() then (args, c)
    else if c.At(")") then (args, c.Next())
    else
      var start := if dollar then c.Skip("$") else c;
      var name := start.NameHere();
      if name == "" then Arguments(start.AfterName().Next(), args, dollar)
      else
        var (arg, end) := ArgumentRest(start.AfterName(), name, "");
        Arguments(end, args + [arg], dollar)
  }

  /** The loop of parseObjectType. */
  function ObjectFields(c: Cursor, fields: seq<Field>, pending: string): (r: (seq<Field>, Cursor))
    ensures |r.1.rest| <= |c.rest|
    decreases |c.rest|
  {
    if c.Done() then (fields, c)
    else if c.At("}") then (fields, c.Next())
    else if c.AtKind(Kind.Text) then ObjectFields(c.Next(), fields, TrimSpace(c.rest[0].value))
    else
      var name, named := c.NameHere(), c.AfterName();
      if name == "" then ObjectFields(named.Next(), fields, "")
      else
        var (args, asked) := if named.At("(") then Arguments(named.Next(), [], false) else ([], named);
        var (typ, typed) := if asked.At(":") then ParseTypeRef(asked.Next(), 0) else (NoType, asked);
        ObjectFields(SkipDirectives(typed), fields + [Field(name, pending, typ, args)], "")
  }

  /** The loop of parseInputType. */
  function InputFields(c: Cursor, fields: seq<Argument>, pending: string): (r: (seq<Argument>, Cursor))
    ensures |r.1.rest| <= |c.rest|
    decreases |c.rest|
  {
    if c.Done() then (fields, c)
    else if c.At("}") then (fields, c.Next())
    else if c.AtKind(Kind.Text) then InputFields(c.Next(), fields, TrimSpace(c.rest[0].value))
    else
      var name, named := c.NameHere(), c.AfterName();
      if name == "" then InputFields(named.Next(), fields, "")
      else
        var (arg, end) := ArgumentRest(named, name, pending);
        InputFields(end, fields + [arg], "")
  }

  /** The loop of parseEnumType. */
  function EnumValues(c: Cursor, values: seq<EnumValue>, pending: string): (r: (seq<EnumValue>, Cursor))
    ensures |r.1.rest| <= |c.rest|
    decreases |c.rest|
  {
    if c.Done() then (values, c)
    else if c.At("}") then (values, c.Next())
    else if c.AtKind(Kind.Text) then EnumValues(c.Next(), values, TrimSpace(c.rest[0].value))
    else
      var name, named := c.NameHere(), c.AfterName();
      if name == "" then EnumValues(named.Next(), values, "")
      else EnumValues(SkipDirectives(named), values + [EnumValue(name, pending)], "")
  }

  // ---------------------------------------------------------------- definitions

  function NewType(name: string, kind: string, description: string): Type {
    Type(name, kind, description, [], [], [], [])
  }

  /** parseObjectType, parseInputType and parseEnumType, by kind. */
  function ParseBlockType(c: Cursor, kind: string, description: string): (r: (Type, Cursor))
    ensures |r.1.rest| <= |c.rest|
  {
    var t := NewType(c.NameHere(), kind, description);
    var start := SkipUntil(c.AfterName(), "{");
    if !start.At("{") then (t, start)
    else if kind == "INPUT_OBJECT" then
      var (fields, end) := InputFields(start.Next(), [], "");
      (t.(inputFields := fields), end)
    else if kind == "ENUM" then
      var (values, end) := EnumValues(start.Next(), [], "");
      (t.(enumValues := values), end)
    else
      var (fields, end) := ObjectFields(start.Next(), [], "");
      (t.(fields := fields), end)
  }

  /** The loop of parseUnionType. */
  function UnionMembers(c: Cursor, members: seq<string>): (r: (seq<string>, Cursor))
    ensures |r.1.rest| <= |c.rest|
    decreases |c.rest|
  {
    if c.Done() || c.At("{") then (members, c)
    else if c.At("=") || c.At("|") then UnionMembers(c.Next(), members)
    else
      var name, named := c.NameHere(), c.AfterName();
      if name != "" then UnionMembers(named, members + [name])
      else if AtBoundary(named) then (members, named)
      else UnionMembers(named.Next(), members)
  }

  /** The loop of parseSchema. */
  function SchemaEntries(c: Cursor, s: RootTypes): (r: (RootTypes, Cursor))
    ensures |r.1.rest| <= |c.rest|
    decreases |c.rest|
  {
    if c.Done() then (s, c)
    else if c.At("}") then (s, c.Next())
    else
      var key, named := c.NameHere(), c.AfterName();
      if key == "" then SchemaEntries(named.Next(), s)
      else if !named.At(":") then SchemaEntries(named, s)
      else
        var value := named.Next().NameHere();
        SchemaEntries(named.Next().AfterName(), WithRoot(s, key, value))
  }

  function WithRoot(s: RootTypes, key: string, value: string): RootTypes {
    match key
    case "query" => s.(queryType := value)
    case "mutation" => s.(mutationType := value)
    case "subscription" => s.(subscriptionType := value)
    case _ => s
  }

  function ParseSchema(c: Cursor, s: RootTypes, description: string): (r: (RootTypes, Cursor))
    ensures |r.1.rest| <= |c.rest|
  {
    var described := s.(description := description);
    var start := SkipUntil(c, "{");
    if start.At("{") then SchemaEntries(start.Next(), described) else (described, start)
  }

  // ---------------------------------------------------------------- operations

  /** The loop of parseSelectionSet, without repetitions. */
  function Selections(c: Cursor, names: seq<string>): (r: (seq<string>, Cursor))
    ensures |r.1.rest| <= |c.rest|
    decreases |c.rest|
  {
    if c.Done() then (names, c)
    else if c.At("}") then (names, c.Next())
    else if c.At("...") then Selections(SkipDirectives(c.Next().AfterName()), names)
    else
      var name, named := c.NameHere(), c.AfterName();
      if name == "" then Selections(named.Next(), names)
      else
        var target := if named.At(":") then named.Next().NameHere() else "";
        var aliased := if named.At(":") then named.Next().AfterName() else named;
        var selected := if target != "" then target else name;
        var end := SkipBalanced(SkipDirectives(SkipBalanced(aliased, "(", ")")), "{", "}");
        Selections(end, if selected in names then names else names + [selected])
  }

  function NewOperation(kind: string, name: string, variables: seq<Argument>, names: seq<string>): Operation {
    var given := if name == "" then "anonymous" else name;
    var id := BaseID(kind, given);
    Operation(given, kind, id, OperationSelector(id), OperationSelector(id), "", variables, names, "", NoType, "")
  }

  /** parseOperation at its keyword, and parseAnonymousQuery at its brace. */
  function ParseOperation(c: Cursor): (r: (Option<Operation>, Cursor))
    requires c.rest != []
    ensures |r.1.rest| < |c.rest|
  {
    if c.At("{") then
      var (names, end) := Selections(c.Next(), []);
      (Some(NewOperation("query", "anonymous", [], names)), end)
    else
      var kind, next := c.rest[0].value, c.Next();
      var name, named := next.NameHere(), next.AfterName();
      var (variables, asked) := if named.At("(") then Arguments(named.Next(), [], true) else ([], named);
      var start := SkipDirectives(asked);
      if !start.At("{") then (None, start)
      else
        var (names, end) := Selections(start.Next(), []);
        (Some(NewOperation(kind, name, variables, names)), end)
  }

  // ---------------------------------------------------------------- documents

  /** One definition: what it adds to the model, and the cursor after it. */
  function ParseDefinition(c: Cursor, m: Model, pending: string): (r: (Model, Cursor))
    requires c.rest != []
    ensures |r.1.rest| < |c.rest|
  {
    var next := c.Next();
    if c.At("schema") then
      var (s, end) := ParseSchema(next, m.schema, pending);
      (m.(schema := s), end)
    else if c.At("type") || c.At("interface") then
      var (t, end) := ParseBlockType(next, if c.At("type") then "TYPE" else "INTERFACE", pending);
      (m.(types := m.types + [t]), end)
    else if c.At("input") then
      var (t, end) := ParseBlockType(next, "INPUT_OBJECT", pending);
      (m.(types := m.types + [t]), end)
    else if c.At("enum") then
      var (t, end) := ParseBlockType(next, "ENUM", pending);
      (m.(types := m.types + [t]), end)
    else if c.At("scalar") then
      (m.(types := m.types + [NewType(next.NameHere(), "SCALAR", pending)]), next.AfterName())
    else if c.At("union") then
      var (members, end) := UnionMembers(next.AfterName(), []);
      (m.(types := m.types + [NewType(next.NameHere(), "UNION", pending).(unionMembers := members)]), end)
    else if c.At("query") || c.At("mutation") || c.At("subscription") || c.At("{") then
      var (op, end) := ParseOperation(c);
      (if op.Some? then m.(operations := m.operations + [op.value]) else m, end)
    else (m, SkipDefinition(c))
  }

  /** The loop of parseDocument. */
  function ParseDocument(c: Cursor, m: Model, pending: string): (r: (Model, Cursor))
    decreases |c.rest|
  {
    if c.Done() then (m, c)
    else if c.AtKind(Kind.Text) then ParseDocument(c.Next(), m, TrimSpace(c.rest[0].value))
    else
      var start := c.Skip("extend");
      if !start.AtKind(Name) && !start.At("{") then ParseDocument(start.Next(), m, "")
      else
        var (n, end) := ParseDefinition(start, m, pending);
        ParseDocument(end, n, "")
  }

  const NewModel := Model(RootTypes("", "", "", ""), [], [])

  // ---------------------------------------------------------------- what is left of parseGraphQLText

  /** compactTypes: definitions of one name are merged. */
  function Merged(t: Type, other: Type): Type {
    t.(fields := t.fields + other.fields, inputFields := t.inputFields + other.inputFields,
       enumValues := t.enumValues + other.enumValues, unionMembers := t.unionMembers + other.unionMembers,
       description := if t.description == "" then other.description else t.description)
  }

  function MergeInto(types: seq<Type>, t: Type): seq<Type> {
    if types == [] then [t]
    else if types[0].name == t.name then [Merged(types[0], t)] + types[1..]
    else [types[0]] + MergeInto(types[1..], t)
  }

  function CompactTypes(types: seq<Type>): seq<Type> {
    if types == [] then []
    else
      var before, t := CompactTypes(types[..|types| - 1]), types[|types| - 1];
      if TrimSpace(t.name) == "" then before else MergeInto(before, t)
  }

  function TypeKey(t: Type): string {
    t.name
  }

  /** Compacted, with the operations of the schema roots, and sorted. */
  function Finish(m: Model): Model {
    var compacted := m.(types := CompactTypes(m.types));
    Model(NamedRoots(compacted), Ordering.SortBy(TypeKey, compacted.types), Operations(compacted))
  }

  datatype Outcome = Parsed(model: Model) | Refused

  function ParseTokens(tokens: seq<Token>): Outcome {
    var (m, end) := ParseDocument(Cursor(tokens, false), NewModel, "");
    if tokens == [] || end.failed || (CompactTypes(m.types) == [] && Compact(m.operations) == []) then Refused
    else Parsed(Finish(m))
  }
}
