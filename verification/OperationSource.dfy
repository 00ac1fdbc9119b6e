/** GraphQL documents as their authors write them: operations, fragments and definitions, with
    directives, arguments, default values and nested selections; their tokens and what they
    stand for. */
module OperationSource {
  import opened GraphQLLexer
  import opened GraphQLModel
  import opened GraphQLSource
  import opened GraphQLSpec
  import opened Lexing
  import opened Tokens
  import opened Wrappers

  datatype DirectiveSrc = DirectiveSrc(name: string, args: Option<seq<Token>>)

  datatype VarSrc = VarSrc(name: string, typ: TypeExpr, default: Option<seq<Token>>, directives: seq<DirectiveSrc>)

  /** A field, perhaps with an alias before it, a fragment spread or an inline fragment. */
  datatype SelectionSrc =
    | FieldSel(alias: Option<string>, name: string, args: Option<seq<Token>>, directives: seq<DirectiveSrc>,
               body: Option<seq<Token>>)
    | Spread(fragment: string, directives: seq<DirectiveSrc>)
    | Inline(condition: string, directives: seq<DirectiveSrc>, inner: seq<Token>)

  datatype OperationSrc =
    | OperationSrc(kind: string, name: Option<string>, variables: seq<VarSrc>, directives: seq<DirectiveSrc>,
                   selections: seq<SelectionSrc>)
    | Shorthand(selections: seq<SelectionSrc>)

  datatype ItemSrc = DefItem(described: Described) | ExtendItem(described: Described)
                   | OperationItem(op: OperationSrc) | FragmentItem(header: seq<Token>, body: seq<Token>)

  // ---------------------------------------------------------------- tokens

  function Enclosed(open: string, tokens: Option<seq<Token>>, close: string): seq<Token> {
    if tokens.None? then [] else [P(open)] + (tokens.value + [P(close)])
  }

  function DirectiveTokens(d: DirectiveSrc): seq<Token> {
    [P("@")] + ([N(d.name)] + Enclosed("(", d.args, ")"))
  }

  function DirectivesTokens(ds: seq<DirectiveSrc>): seq<Token> {
    if ds == [] then [] else DirectiveTokens(ds[0]) + DirectivesTokens(ds[1..])
  }

  function DefaultTokens(d: Option<seq<Token>>): seq<Token> {
    if d.None? then [] else [P("=")] + d.value
  }

  /** A variable after its dollar sign. */
  function VarTokens(v: VarSrc): seq<Token> {
    [N(v.name)] + ([P(":")] + (TypeTokens(v.typ) + (DefaultTokens(v.default) + DirectivesTokens(v.directives))))
  }

  function VarsTokens(vs: seq<VarSrc>): seq<Token> {
    if vs == [] then [] else [P("$")] + (VarTokens(vs[0]) + VarsTokens(vs[1..]))
  }

  function SelectionTokens(s: SelectionSrc): seq<Token> {
    match s
    case FieldSel(alias, name, args, directives, body) =>
      (if alias.None? then [] else [N(alias.value)] + [P(":")])
      + ([N(name)] + (Enclosed("(", args, ")") + (DirectivesTokens(directives) + Enclosed("{", body, "}"))))
    case Spread(fragment, directives) => [P("...")] + ([N(fragment)] + DirectivesTokens(directives))
    case Inline(condition, directives, inner) =>
      [P("...")] + ([N("on")] + ([N(condition)] + (DirectivesTokens(directives) + Block(inner))))
  }

  function SelectionsTokens(ss: seq<SelectionSrc>): seq<Token> {
    if ss == [] then [] else SelectionTokens(ss[0]) + SelectionsTokens(ss[1..])
  }

  function OperationTokens(op: OperationSrc): seq<Token> {
    match op
    case OperationSrc(kind, name, variables, directives, selections) =>
      [N(kind)] + ((if name.None? then [] else [N(name.value)])
                   + ((if variables == [] then [] else [P("(")] + (VarsTokens(variables) + [P(")")]))
                      + (DirectivesTokens(directives) + Block(SelectionsTokens(selections)))))
    case Shorthand(selections) => Block(SelectionsTokens(selections))
  }

  function ItemTokens(i: ItemSrc): seq<Token> {
    match i
    case DefItem(d) => DescriptionTokens(d.description) + DefTokens(d.def)
    case ExtendItem(d) => DescriptionTokens(d.description) + ([N("extend")] + DefTokens(d.def))
    case OperationItem(op) => OperationTokens(op)
    case FragmentItem(header, body) => [N("fragment")] + (header + Block(body))
  }

  function ItemsTokens(items: seq<ItemSrc>): seq<Token> {
    if items == [] then [] else ItemTokens(items[0]) + ItemsTokens(items[1..])
  }

  // ---------------------------------------------------------------- meaning

  function Values(tokens: seq<Token>): string {
    if tokens == [] then "" else tokens[0].value + Values(tokens[1..])
  }

  /** The default value runs up to a directive, the end of the list or a name before a colon:
      without directives it takes in the dollar sign of the next variable. */
  function DefaultText(v: VarSrc, last: bool): string {
    if v.default.None? then ""
    else Values(v.default.value) + (if v.directives == [] && !last then "$" else "")
  }

  function VarMeaning(v: VarSrc, last: bool): Argument {
    Argument(v.name, "", RefOf(v.typ), DefaultText(v, last), v.typ.NonNull?)
  }

  function VarsMeaning(vs: seq<VarSrc>): seq<Argument> {
    if vs == [] then [] else [VarMeaning(vs[0], |vs| == 1)] + VarsMeaning(vs[1..])
  }

  function Add(names: seq<string>, name: string): seq<string> {
    if name in names then names else names + [name]
  }

  /** What a selection adds to the names; an inline fragment adds its type condition. */
  function Selected(names: seq<string>, s: SelectionSrc): seq<string> {
    match s
    case FieldSel(_, name, _, _, _) => Add(names, name)
    case Spread(_, _) => names
    case Inline(condition, _, _) => Add(names, condition)
  }

  function AllSelected(names: seq<string>, ss: seq<SelectionSrc>): seq<string>
    decreases |ss|
  {
    if ss == [] then names else AllSelected(Selected(names, ss[0]), ss[1..])
  }

  function OperationMeaning(op: OperationSrc): Operation {
    match op
    case OperationSrc(kind, name, variables, _, selections) =>
      NewOperation(kind, if name.None? then "" else name.value, VarsMeaning(variables), AllSelected([], selections))
    case Shorthand(selections) => NewOperation("query", "", [], AllSelected([], selections))
  }

  function ItemMeaning(i: ItemSrc, m: Model): Model {
    match i
    case DefItem(d) => DefMeaning(d.def, DescriptionText(d.description), m)
    case ExtendItem(d) => DefMeaning(d.def, DescriptionText(d.description), m)
    case OperationItem(op) => m.(operations := m.operations + [OperationMeaning(op)])
    case FragmentItem(_, _) => m
  }

  function ItemsMeaning(items: seq<ItemSrc>, m: Model): Model {
    if items == [] then m else ItemsMeaning(items[1..], ItemMeaning(items[0], m))
  }

  // ---------------------------------------------------------------- canonical sources

  predicate GoodBlock(open: string, tokens: Option<seq<Token>>, close: string) {
    tokens.Some? ==> Closed(tokens.value, open, close, 0) && AllPrintable(tokens.value)
  }

  predicate GoodDirectives(ds: seq<DirectiveSrc>) {
    forall i :: 0 <= i < |ds| ==> IsName(ds[i].name) && GoodBlock("(", ds[i].args, ")")
  }

  /** Tokens of a value of which `depth` brackets of any kind are open: at depth 0 nothing that
      the parser takes for the end. */
  predicate IsValue(tokens: seq<Token>, depth: nat) {
    if tokens == [] then depth == 0
    else if depth == 0 && (tokens[0].value == "@"
                           || (tokens[0].kind == Name && |tokens| > 1 && tokens[1].value == ":")) then false
    else if tokens[0].value in {"[", "{", "("} then IsValue(tokens[1..], depth + 1)
    else if tokens[0].value in {"]", "}", ")"} then depth > 0 && IsValue(tokens[1..], depth - 1)
    else IsValue(tokens[1..], depth)
  }

  predicate GoodVar(v: VarSrc) {
    && IsName(v.name) && ReadableType(v.typ) && GoodDirectives(v.directives)
    && (v.default.Some? ==> IsValue(v.default.value, 0) && AllPrintable(v.default.value))
  }

  predicate GoodVars(vs: seq<VarSrc>) {
    forall i :: 0 <= i < |vs| ==> GoodVar(vs[i])
  }

  predicate GoodSelection(s: SelectionSrc) {
    match s
    case FieldSel(alias, name, args, directives, body) =>
      && (alias.Some? ==> IsName(alias.value)) && IsName(name)
      && GoodBlock("(", args, ")") && GoodDirectives(directives) && GoodBlock("{", body, "}")
    case Spread(fragment, directives) => IsName(fragment) && GoodDirectives(directives)
    case Inline(condition, directives, inner) =>
      IsName(condition) && GoodDirectives(directives) && GoodBlock("{", Some(inner), "}")
  }

  predicate GoodSelections(ss: seq<SelectionSrc>) {
    forall i :: 0 <= i < |ss| ==> GoodSelection(ss[i])
  }

  predicate GoodOperation(op: OperationSrc) {
    match op
    case OperationSrc(kind, name, variables, directives, selections) =>
      && kind in {"query", "mutation", "subscription"} && (name.Some? ==> IsName(name.value))
      && GoodVars(variables) && GoodDirectives(directives) && GoodSelections(selections)
    case Shorthand(selections) => GoodSelections(selections)
  }

  /** Nothing in the header of a fragment that starts a block or another definition. */
  predicate GoodHeader(header: seq<Token>) {
    AllPrintable(header) && forall i :: 0 <= i < |header| ==> header[i].value != "{" && !StartsDefinition(header[i])
  }

  predicate StartsDefinition(t: Token) {
    t.kind == Name && t.value in {"schema", "type", "interface", "input", "enum", "scalar", "union", "query",
                                  "mutation", "subscription", "fragment", "extend"}
  }

  predicate GoodItem(i: ItemSrc) {
    match i
    case DefItem(d) => GoodDef(d.def)
    case ExtendItem(d) => GoodDef(d.def)
    case OperationItem(op) => GoodOperation(op)
    case FragmentItem(header, body) => GoodHeader(header) && GoodBlock("{", Some(body), "}")
  }

  predicate GoodItems(items: seq<ItemSrc>) {
    forall i :: 0 <= i < |items| ==> GoodItem(items[i])
  }
}
