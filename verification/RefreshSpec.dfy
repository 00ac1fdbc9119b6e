/** The reviewed corrections of refreshed documents (catalog_refresh_corrections.go) and the
    checker of validation.go that the corrected document has to satisfy. */
module RefreshSpec {
  import opened Json
  import opened Text

  const MAX_REF_SCAN_DEPTH := 256

  // ---------------------------------------------------------------- the checker

  /** isExternalRef */
  predicate IsExternalRef(ref: string) {
    var t := TrimSpace(ref);
    t != "" && t[0] != '#'
  }

  /** An object whose own `$ref` is external. */
  predicate External(f: Schema) {
    "$ref" in f && f["$ref"].Str? && IsExternalRef(f["$ref"].s)
  }

  /** containsExternalRef: what is nested too deep counts as external. */
  predicate ContainsExternalRef(v: Json, depth: nat)
    decreases v
  {
    if depth > MAX_REF_SCAN_DEPTH then true
    else
      match v
      case Obj(f) => External(f) || exists k <- f.Keys :: ContainsExternalRef(f[k], depth + 1)
      case Arr(items) => exists x <- items :: ContainsExternalRef(x, depth + 1)
      case _ => false
  }

  /** Some object, at any depth, has an external `$ref`. */
  predicate HasExternal(v: Json) {
    match v
    case Obj(f) => External(f) || exists k <- f.Keys :: HasExternal(f[k])
    case Arr(items) => exists x <- items :: HasExternal(x)
    case _ => false
  }

  /** Nested at most `n` levels. */
  predicate Nested(v: Json, n: nat) {
    match v
    case Obj(f) => forall k <- f.Keys :: n > 0 && Nested(f[k], n - 1)
    case Arr(items) => forall x <- items :: n > 0 && Nested(x, n - 1)
    case _ => true
  }

  // ---------------------------------------------------------------- the corrections

  /** catalogRefreshString */
  function StringOf(v: Json): string {
    if v.Str? then TrimSpace(v.s) else ""
  }

  datatype Rule = Placeholder | HighLevel

  const COMMON_PREFIX := "../" + "common/common-schemas.json#/components/schemas/"
  const LOCAL_PREFIX := "#/components/schemas/"

  function WithPlaceholder(f: Schema): Schema {
    var ref := StringOf(Get(f, "$ref"));
    if ref != "" && IsExternalRef(ref)
    then (f - {"$ref"})["type" := Str("object")]["additionalProperties" := Bool(true)]
    else f
  }

  function WithLocalRef(f: Schema): Schema {
    var ref := StringOf(Get(f, "$ref"));
    if COMMON_PREFIX <= ref then f["$ref" := Str(LOCAL_PREFIX + ref[|COMMON_PREFIX|..])] else f
  }

  function WithDescription(f: Schema): Schema {
    var d := Get(f, "description");
    if d.Str? && TrimSpace(d.s) == "" then f["description" := Str("Successful response")] else f
  }

  function WithItems(f: Schema): Schema {
    if StringOf(Get(f, "type")) == "array" && Get(f, "items").Null? then f["items" := Obj(map[])] else f
  }

  /** What the visitor does to one object. */
  function Visit(rule: Rule, f: Schema): Schema {
    match rule
    case Placeholder => WithPlaceholder(f)
    case HighLevel => WithItems(WithDescription(WithLocalRef(f)))
  }

  /** Every object corrected, innermost first. */
  function Corrected(rule: Rule, v: Json): Json {
    match v
    case Obj(f) => Obj(Visit(rule, map k | k in f.Keys :: Corrected(rule, f[k])))
    case Arr(items) => Arr(seq(|items|, i requires 0 <= i < |items| => Corrected(rule, items[i])))
    case _ => v
  }

  function Numbered(kind: string, example: Json): Json {
    Obj(map["type" := Str(kind), "example" := example])
  }

  /** highLevelCommonSchemasJSON */
  const Common: Schema := map[
    "BadRequestDTO" := Obj(map["type" := Str("object"), "properties" := Obj(map[
      "statusCode" := Numbered("number", Number("400")),
      "message" := Numbered("string", Str("Bad Request"))])]),
    "UnauthorizedDTO" := Obj(map["type" := Str("object"), "properties" := Obj(map[
      "statusCode" := Numbered("number", Number("401")),
      "message" := Numbered("string", Str("Invalid token: access token is invalid")),
      "error" := Numbered("string", Str("Unauthorized"))])]),
    "UnprocessableDTO" := Obj(map["type" := Str("object"), "properties" := Obj(map[
      "statusCode" := Numbered("number", Number("422")),
      "message" := Obj(map["example" := Arr([Str("Unprocessable Entity")]), "type" := Str("array"),
                           "items" := Obj(map["type" := Str("string")])]),
      "error" := Numbered("string", Str("Unprocessable Entity"))])])]

  /** The schemas of the document, with the common ones it lacks. */
  function Bundled(root: Schema): Schema {
    var components := MapValue(Get(root, "components"));
    var schemas := MapValue(Get(components, "schemas"));
    root["components" := Obj(components["schemas" := Obj(Common + schemas)])]
  }

  /** applyHighLevelRefreshCorrection */
  function HighLevelCorrected(root: Schema): Schema {
    Corrected(HighLevel, Obj(Bundled(root))).fields
  }
}
