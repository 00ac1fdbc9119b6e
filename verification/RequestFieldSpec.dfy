/** The request fields listed for a resolved schema (inventory_request.go) and the denylist
    that keeps credential-like names out of them (text.go). */
module RequestFieldSpec {
  import opened Json
  import opened Ordering
  import opened Text

  const MAX_FIELD_DEPTH: nat := 6
  const MAX_FIELDS: nat := 60

  datatype FieldInfo = FieldInfo(path: string, required: bool, typ: string, format: string, ref: string,
                                 description: string)

  // ---------------------------------------------------------------- credential-like names

  predicate IsSeparator(c: char) {
    c == '.' || c == '_' || c == '-' || c == '[' || c == ']'
  }

  function PartLength(s: string): (n: nat)
    ensures n <= |s| && (s != "" && !IsSeparator(s[0]) ==> n > 0)
  {
    if s == "" || IsSeparator(s[0]) then 0 else 1 + PartLength(s[1..])
  }

  /** strings.FieldsFunc at the separators. */
  function Parts(s: string): seq<string>
    decreases |s|
  {
    if s == "" then []
    else if IsSeparator(s[0]) then Parts(s[1..])
    else [s[..PartLength(s)]] + Parts(s[PartLength(s)..])
  }

  /** strings.Contains */
  predicate Contains(s: string, part: string) {
    part <= s || (s != "" && Contains(s[1..], part))
  }

  const CREDENTIAL_WORDS := {"secret", "password", "passwd", "pwd", "token", "key", "authorization", "auth",
                             "credential", "credentials"}

  /** looksLikeCredentialName */
  predicate IsCredential(name: string) {
    var lower := ToLower(name);
    Contains(lower, "api_key") || Contains(lower, "apikey") || Contains(lower, "api-key")
    || exists part <- Parts(lower) :: part in CREDENTIAL_WORDS
  }

  // ---------------------------------------------------------------- collection

  ghost function SchemaType(v: Json): string {
    if StringValue(v) != "" then StringValue(v) else Join(StringSlice(v), "|")
  }

  /** requestFieldSummary */
  ghost function Describe(path: string, required: bool, schema: Schema): FieldInfo {
    FieldInfo(path, required, SchemaType(Get(schema, "type")), StringValue(Get(schema, "format")),
              StringValue(Get(schema, "$ref")), StringValue(Get(schema, "description")))
  }

  function ChildPath(path: string, name: string): string {
    if path == "" then name else path + "." + name
  }

  function ItemPath(path: string): string {
    if path == "" then "body[]" else path + "[]"
  }

  function Listed(path: string): bool {
    path != "" && !IsCredential(path)
  }

  /** collectRequestFields */
  ghost function Collect(schema: Schema, path: string, required: bool, depth: nat,
                         found: seq<FieldInfo>): seq<FieldInfo>
    decreases MAX_FIELD_DEPTH + 1 - depth, 1, 0
  {
    if |found| >= MAX_FIELDS || depth > MAX_FIELD_DEPTH then found
    else if schema == map[] then
      if Listed(path) then found + [FieldInfo(path, required, "", "", "", "")] else found
    else
      var here := if Listed(path) then found + [Describe(path, required, schema)] else found;
      if Listed(path) && (|here| >= MAX_FIELDS || depth == MAX_FIELD_DEPTH) then here
      else Below(schema, path, required, depth, here)
  }

  /** The fields below a node. */
  ghost function Below(schema: Schema, path: string, required: bool, depth: nat, found: seq<FieldInfo>): seq<FieldInfo>
    requires depth <= MAX_FIELD_DEPTH
    decreases MAX_FIELD_DEPTH + 1 - depth, 0, 1
  {
    var properties := MapValue(Get(schema, "properties"));
    if properties != map[] then
      CollectEach(SortedSet(properties.Keys), properties, StringSlice(Get(schema, "required")), path, required, depth,
                  found)
    else
      var items := MapValue(Get(schema, "items"));
      if items != map[] then Collect(items, ItemPath(path), required, depth + 1, found) else found
  }

  /** The loop over the sorted property names. */
  ghost function CollectEach(names: seq<string>, properties: Schema, needed: seq<string>, path: string, required: bool,
                             depth: nat, found: seq<FieldInfo>): seq<FieldInfo>
    requires depth <= MAX_FIELD_DEPTH
    decreases MAX_FIELD_DEPTH + 1 - depth, 0, 0, |names|
  {
    if names == [] then found
    else
      var name := names[0];
      var next := Collect(MapValue(Get(properties, name)), ChildPath(path, name), required && name in needed,
                          depth + 1, found);
      if |next| >= MAX_FIELDS then next else CollectEach(names[1..], properties, needed, path, required, depth, next)
  }

  function PathKey(f: FieldInfo): string {
    f.path
  }

  /** requestFieldSummaries */
  ghost function Summaries(schema: Schema, path: string, required: bool, depth: nat): seq<FieldInfo> {
    var sorted := SortBy(PathKey, Collect(schema, path, required, depth, []));
    if |sorted| > MAX_FIELDS then sorted[..MAX_FIELDS] else sorted
  }
}
