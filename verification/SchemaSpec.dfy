/** Schema resolution (inventory_request.go): `$ref`, `allOf`, `oneOf` and `anyOf` are
    expanded over a document whose references may be cyclic.

    The functions below say what one resolution returns, in which order issues are
    reported and how much work is charged.  The set of active references is a parameter;
    the class in `SchemaResolver` keeps it in a field, as the source does. */
module SchemaSpec {
  import opened Ordering
  import opened Json
  import opened Wrappers

  const MAX_WORK: nat := 4_096
  const MAX_DEPTH: nat := 6

  datatype Issue = DepthExceeded | LimitExceeded | BranchSelection(keyword: string)
                 | RefCycle(ref: string) | RefUnresolved(ref: string)

  /** The counters and reports of schemaResolutionState.  `polls` counts the checks of the
      context, `visits` records the depth of every node that was expanded. */
  datatype State = State(work: nat, issues: seq<Issue>, limitReported: bool, branchReported: bool,
                         depthReported: bool, polls: nat, visits: seq<nat>)

  const Start := State(0, [], false, false, false, 0, [])

  /** The document, and the check of the context that first fails (if any does). */
  datatype Env = Env(root: Schema, deadline: Option<nat>)

  datatype Reply = Go(out: Schema, st: State) | Cancel(st: State)

  predicate Expired(env: Env, polls: nat) {
    env.deadline.Some? && polls >= env.deadline.value
  }

  function Note(st: State, issue: Issue): State {
    st.(issues := st.issues + [issue])
  }

  function NoteDepth(st: State): State {
    if st.depthReported then st else Note(st, DepthExceeded).(depthReported := true)
  }

  function NoteLimit(st: State): State {
    if st.limitReported then st else Note(st, LimitExceeded).(limitReported := true)
  }

  function NoteBranch(st: State, keyword: string): State {
    if st.branchReported then st else Note(st, BranchSelection(keyword)).(branchReported := true)
  }

  /** mergeObjectRef */
  function MergeRef(base: Schema, overlay: Schema): Schema {
    base + (overlay - {"$ref"})
  }

  /** mergeSchema */
  ghost function MergeSchema(base: Schema, addition: Schema, includeRequired: bool): Schema {
    map key | key in base.Keys + addition.Keys && (key in base || key != "required" || includeRequired) ::
      MergedField(base, addition, includeRequired, key)
  }

  ghost function MergedField(base: Schema, addition: Schema, includeRequired: bool, key: string): Json
    requires key in base || key in addition
  {
    if key == "properties" && key in addition then Obj(MapValue(Get(base, key)) + MapValue(addition[key]))
    else if key == "required" && key in addition && includeRequired then
      Strs(SortedUniqueStrings(StringSlice(Get(base, key)) + StringSlice(addition[key])))
    else if key in base then base[key]
    else addition[key]
  }

  function Rank(depth: nat): nat {
    if depth <= MAX_DEPTH then MAX_DEPTH + 1 - depth else 0
  }

  /** schemaResolutionState.resolve */
  ghost function Resolve(env: Env, schema: Schema, depth: nat, active: set<string>, st: State): Reply
    decreases Rank(depth), 9, 0
  {
    var st := st.(polls := st.polls + 1);
    if Expired(env, st.polls - 1) then Cancel(st)
    else if schema == map[] then Go(schema, st)
    else if depth > MAX_DEPTH then Go(schema, NoteDepth(st))
    else
      var st := st.(work := st.work + 1);
      if st.work > MAX_WORK then Go(schema, NoteLimit(st))
      else Expand(env, schema, depth, active, st.(visits := st.visits + [depth]))
  }

  function RefOf(schema: Schema): string {
    StringValue(Get(schema, "$ref"))
  }

  ghost function Expand(env: Env, schema: Schema, depth: nat, active: set<string>, st: State): Reply
    requires depth <= MAX_DEPTH
    decreases Rank(depth), 8, 0
  {
    var ref := RefOf(schema);
    if IsLocal(ref) && ref in active then Go(schema, Note(st, RefCycle(ref)))
    else
      match Dereference(env, schema, depth, active, st)
      case Cancel(st) => Cancel(st)
      case Go(out, st) => Compose(env, out, depth, active, st)
  }

  ghost function Dereference(env: Env, schema: Schema, depth: nat, active: set<string>, st: State): Reply
    requires depth <= MAX_DEPTH
    decreases Rank(depth), 7, 0
  {
    hide LocalObjectRef, StringValue;
    var ref := RefOf(schema);
    if !IsLocal(ref) then Go(schema, st)
    else
      var target := LocalObjectRef(env.root, ref);
      if target == map[] then Go(schema, Note(st, RefUnresolved(ref)))
      else
        match Resolve(env, target, depth + 1, active + {ref}, st)
        case Cancel(st) => Cancel(st)
        case Go(base, st) => Go(MergeRef(base, schema), st)
  }

  ghost function Compose(env: Env, out: Schema, depth: nat, active: set<string>, st: State): Reply
    requires depth <= MAX_DEPTH
    decreases Rank(depth), 6, 0
  {
    match AllOf(env, out, depth, active, st)
    case Cancel(st) => Cancel(st)
    case Go(out, st) =>
      match Choice(env, "oneOf", out, depth, active, st)
      case Cancel(st) => Cancel(st)
      case Go(out, st) =>
        match Choice(env, "anyOf", out, depth, active, st)
        case Cancel(st) => Cancel(st)
        case Go(out, st) => Nested(env, out, depth, active, st)
  }

  ghost function AllOf(env: Env, out: Schema, depth: nat, active: set<string>, st: State): Reply
    requires depth <= MAX_DEPTH
    decreases Rank(depth), 5, 0
  {
    var branches := SliceValue(Get(out, "allOf"));
    if branches == [] then Go(out, st)
    else Branches(env, out - {"allOf"}, branches, true, depth, active, st)
  }

  ghost function Choice(env: Env, keyword: string, out: Schema, depth: nat, active: set<string>, st: State): Reply
    requires depth <= MAX_DEPTH
    decreases Rank(depth), 5, 0
  {
    var branches := SliceValue(Get(out, keyword));
    if branches == [] then Go(out, st)
    else Branches(env, out - {keyword}, branches, false, depth, active, NoteBranch(st, keyword))
  }

  ghost function Branches(env: Env, out: Schema, branches: seq<Json>, includeRequired: bool,
                          depth: nat, active: set<string>, st: State): Reply
    requires depth <= MAX_DEPTH
    decreases Rank(depth), 4, |branches|
  {
    if branches == [] then Go(out, st)
    else
      match Resolve(env, MapValue(branches[0]), depth + 1, active, st)
      case Cancel(st) => Cancel(st)
      case Go(branch, st) =>
        Branches(env, MergeSchema(out, branch, includeRequired), branches[1..], includeRequired, depth, active, st)
  }

  ghost function Nested(env: Env, out: Schema, depth: nat, active: set<string>, st: State): Reply
    requires depth <= MAX_DEPTH
    decreases Rank(depth), 5, 0
  {
    match Properties(env, out, depth, active, st)
    case Cancel(st) => Cancel(st)
    case Go(out, st) => Items(env, out, depth, active, st)
  }

  ghost function Properties(env: Env, out: Schema, depth: nat, active: set<string>, st: State): Reply
    requires depth <= MAX_DEPTH
    decreases Rank(depth), 4, 0
  {
    var properties := MapValue(Get(out, "properties"));
    if properties == map[] then Go(out, st)
    else
      match Each(env, SortedSet(properties.Keys), properties, map[], depth, active, st)
      case Cancel(st) => Cancel(st)
      case Go(resolved, st) => Go(out["properties" := Obj(resolved)], st)
  }

  ghost function Each(env: Env, names: seq<string>, properties: Schema, done: Schema,
                      depth: nat, active: set<string>, st: State): Reply
    requires depth <= MAX_DEPTH
    decreases Rank(depth), 3, |names|
  {
    if names == [] then Go(done, st)
    else
      match Resolve(env, MapValue(Get(properties, names[0])), depth + 1, active, st)
      case Cancel(st) => Cancel(st)
      case Go(resolved, st) =>
        Each(env, names[1..], properties, done[names[0] := Obj(resolved)], depth, active, st)
  }

  ghost function Items(env: Env, out: Schema, depth: nat, active: set<string>, st: State): Reply
    requires depth <= MAX_DEPTH
    decreases Rank(depth), 4, 0
  {
    var items := MapValue(Get(out, "items"));
    if items == map[] then Go(out, st)
    else
      match Resolve(env, items, depth + 1, active, st)
      case Cancel(st) => Cancel(st)
      case Go(resolved, st) => Go(out["items" := Obj(resolved)], st)
  }
}
