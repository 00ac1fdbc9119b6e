/** Decoded JSON as Go's `any`, and the accessors of inventory_helpers.go. */
module Json {
  import opened Ordering
  import opened Text
  import opened Wrappers

  /** `Strs` is a Go []string, which the resolver stores for a merged `required` list. */
  datatype Json = Null | Bool(b: bool) | Number(text: string) | Str(s: string)
                | Arr(items: seq<Json>) | Strs(list: seq<string>) | Obj(fields: Schema)

  type Schema = map<string, Json>

  /** m[key] for a Go map: the zero value when the key is missing. */
  function Get(m: Schema, key: string): Json {
    if key in m then m[key] else Null
  }

  function MapValue(v: Json): Schema {
    if v.Obj? then v.fields else map[]
  }

  function SliceValue(v: Json): seq<Json> {
    if v.Arr? then v.items else []
  }

  function StringValue(v: Json): string {
    match v
    case Str(s) => TrimSpace(s)
    case Number(text) => text
    case _ => ""
  }

  function Texts(items: seq<Json>): seq<string> {
    if items == [] then []
    else (if StringValue(items[0]) == "" then [] else [StringValue(items[0])]) + Texts(items[1..])
  }

  function TrimmedSet(list: seq<string>): set<string> {
    set x <- list | TrimSpace(x) != "" :: TrimSpace(x)
  }

  /** sortedUniqueStrings */
  ghost function SortedUniqueStrings(list: seq<string>): seq<string> {
    SortedSet(TrimmedSet(list))
  }

  function Same(s: string): string { s }

  /** stringSlice */
  ghost function StringSlice(v: Json): seq<string> {
    match v
    case Strs(list) => SortedUniqueStrings(list)
    case Arr(items) => SortBy(Same, Texts(items))
    case _ => if StringValue(v) == "" then [] else [StringValue(v)]
  }

  method ReadStringSlice(v: Json) returns (r: seq<string>)
    ensures r == StringSlice(v)
  {
    match v {
      case Strs(list) => r := SortStrings(TrimmedSet(list));
      case Arr(items) => r := SortBy(Same, Texts(items));
      case _ => r := if StringValue(v) == "" then [] else [StringValue(v)];
    }
  }

  // ---------------------------------------------------------------- local references

  predicate IsLocal(ref: string) {
    |ref| >= 2 && ref[..2] == "#/"
  }

  function Split(s: string, sep: char): (r: seq<string>)
    ensures r != []
  {
    if s == [] then [""]
    else
      var rest := Split(s[1..], sep);
      if s[0] == sep then [""] + rest else [[s[0]] + rest[0]] + rest[1..]
  }

  function HexDigit(c: char): int {
    if '0' <= c <= '9' then c as int - '0' as int
    else if 'a' <= c <= 'f' then c as int - 'a' as int + 10
    else if 'A' <= c <= 'F' then c as int - 'A' as int + 10
    else -1
  }

  /** url.PathUnescape */
  function PathUnescape(s: string): Option<string> {
    if s == [] then Some("")
    else if s[0] != '%' then
      match PathUnescape(s[1..])
      case None => None
      case Some(rest) => Some([s[0]] + rest)
    else if |s| < 3 || HexDigit(s[1]) < 0 || HexDigit(s[2]) < 0 then None
    else
      match PathUnescape(s[3..])
      case None => None
      case Some(rest) => Some([(16 * HexDigit(s[1]) + HexDigit(s[2])) as char] + rest)
  }

  /** strings.ReplaceAll of `~` and a digit by one character. */
  function ReplaceTilde(s: string, digit: char, plain: char): string {
    if |s| < 2 then s
    else if s[0] == '~' && s[1] == digit then [plain] + ReplaceTilde(s[2..], digit, plain)
    else [s[0]] + ReplaceTilde(s[1..], digit, plain)
  }

  /** Follows the segments of a JSON pointer through nested objects. */
  function Walk(current: Json, segments: seq<string>): Schema
    decreases |segments|
  {
    if segments == [] then MapValue(current)
    else
      match PathUnescape(segments[0])
      case None => map[]
      case Some(segment) =>
        var key := ReplaceTilde(ReplaceTilde(segment, '1', '/'), '0', '~');
        if current.Obj? && key in current.fields then Walk(current.fields[key], segments[1..]) else map[]
  }

  /** localObjectRef */
  function LocalObjectRef(root: Schema, ref: string): Schema {
    if IsLocal(ref) then Walk(Obj(root), Split(ref[2..], '/')) else map[]
  }
}
