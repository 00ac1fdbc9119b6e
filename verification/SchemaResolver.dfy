/** The resolver as the source writes it, on maps in memory: counters, report flags and the set
    of active references are fields, schemas are copied and the copies updated in place.
    `Resolve` computes what `SchemaSpec` says, leaves `activeRefs` as it found it on every
    return path, and writes to no map of the document or of its argument: it may only change
    its own fields and maps it allocates. */
module SchemaResolver {
  import opened Json
  import opened Ordering
  import opened SchemaHeap
  import opened SchemaSpec
  import opened Wrappers

  datatype Result = Ok(out: JsonMap?) | Cancelled

  function OutOf(r: Result): JsonMap? {
    if r.Ok? then r.out else null
  }

  /** schemaResolutionState */
  class Resolver {
    const root: JsonMap
    const deadline: Option<nat>
    ghost const env: Env
    var activeRefs: set<string>
    var work: nat
    var issues: seq<Issue>
    var limitReported: bool
    var branchReported: bool
    var depthReported: bool
    var polls: nat
    ghost var visits: seq<nat>

    constructor (root: JsonMap, deadline: Option<nat>)
      requires root.Valid()
      ensures this.root == root && env == Env(FieldsOf(root), deadline) && Grounded()
      ensures Now() == Start && activeRefs == {}
    {
      hide JsonMap.Valid, JsonMap.Model;
      this.root, this.deadline, env := root, deadline, Env(FieldsOf(root), deadline);
      activeRefs, work, issues, polls, visits := {}, 0, [], 0, [];
      limitReported, branchReported, depthReported := false, false, false;
    }

    /** The document is what it was at the start. */
    ghost predicate Grounded()
      reads root, root.repr
    {
      root.Valid() && FieldsOf(root) == env.root && deadline == env.deadline
    }

    ghost function Now(): State
      reads this
    {
      State(work, issues, limitReported, branchReported, depthReported, polls, visits)
    }

    /** The method result and the new state are those of the specification. */
    ghost predicate Matches(r: Result, reply: Reply)
      reads this, OutOf(r), Nodes(OutOf(r))
    {
      && Now() == reply.st && Sound(OutOf(r))
      && (r.Ok? <==> reply.Go?) && (r.Ok? ==> FieldsOf(r.out) == reply.out)
    }

    /** state.ctx.Err() */
    method ContextDone() returns (done: bool)
      modifies this`polls
      ensures polls == old(polls) + 1 && done == (deadline.Some? && old(polls) >= deadline.value)
    {
      done := deadline.Some? && polls >= deadline.value;
      polls := polls + 1;
    }

    method Report(issue: Issue)
      modifies this`issues
      ensures issues == old(issues) + [issue]
    {
      issues := issues + [issue];
    }

    method ReportDepth()
      modifies this
      ensures Now() == NoteDepth(old(Now())) && activeRefs == old(activeRefs)
    {
      if !depthReported {
        depthReported := true;
        Report(DepthExceeded);
      }
    }

    method ReportLimit()
      modifies this
      ensures Now() == NoteLimit(old(Now())) && activeRefs == old(activeRefs)
    {
      if !limitReported {
        limitReported := true;
        Report(LimitExceeded);
      }
    }

    /** localObjectRef */
    method Find(ref: string) returns (m: JsonMap?)
      requires Grounded()
      ensures Sound(m) && Nodes(m) <= root.repr && FieldsOf(m) == LocalObjectRef(env.root, ref)
    {
      hide JsonMap.Valid, JsonMap.Model, Within, ModelOf, PathUnescape, ReplaceTilde, Split;
      if !IsLocal(ref) {
        return null;
      }
      var segments := Split(ref[2..], '/');
      var current := Ref(root);
      RefWithin(root, root.repr);
      var i := 0;
      assert segments[0..] == segments;
      while i < |segments|
        invariant 0 <= i <= |segments| && Within(current, root.repr)
        invariant Walk(Obj(env.root), segments) == Walk(ModelOf(current, root.repr), segments[i..])
      {
        var segment := PathUnescape(segments[i]);
        if segment.None? {
          return null;
        }
        var key := ReplaceTilde(ReplaceTilde(segment.value, '1', '/'), '0', '~');
        var here := MapOf(current);
        MapValueOf(current, root.repr);
        EmptyMeans(here);
        if here == null {
          NoMap(current, root.repr);
          return null;
        }
        here.PartAt(key);
        if key !in here.fields {
          return null;
        }
        assert segments[i..][1..] == segments[i + 1..];
        WithinMore(here.fields[key], here.repr - {here}, root.repr);
        current := here.fields[key];
        i := i + 1;
      }
      MapValueOf(current, root.repr);
      m := MapOf(current);
    }

    method Resolve(schema: JsonMap?, depth: nat) returns (r: Result)
      requires Grounded() && Sound(schema)
      modifies this
      ensures activeRefs == old(activeRefs) && Grounded()
      ensures Matches(r, SchemaSpec.Resolve(env, old(FieldsOf(schema)), depth, activeRefs, old(Now())))
      ensures fresh(Nodes(OutOf(r)) - root.repr - Nodes(schema))
      decreases Rank(depth), 9, 0
    {
      hide Expand, JsonMap.Valid, JsonMap.Model, Within, ModelOf, NoteDepth, NoteLimit, Grounded, IsEmpty;
      RootHere();
      EmptyMeans(schema);
      var done := ContextDone();
      if done {
        return Cancelled;
      }
      if IsEmpty(schema) {
        return Ok(schema);
      }
      if depth > MAX_DEPTH {
        ReportDepth();
        var copy := Copy(schema);
        return Ok(copy);
      }
      work := work + 1;
      if work > MAX_WORK {
        ReportLimit();
        var copy := Copy(schema);
        return Ok(copy);
      }
      visits := visits + [depth];
      r := ExpandNode(schema, depth);
    }

    method ExpandNode(schema: JsonMap, depth: nat) returns (r: Result)
      requires Grounded() && schema.Valid() && depth <= MAX_DEPTH
      modifies this
      ensures activeRefs == old(activeRefs) && Grounded()
      ensures Matches(r, Expand(env, old(FieldsOf(schema)), depth, activeRefs, old(Now())))
      ensures fresh(Nodes(OutOf(r)) - root.repr - schema.repr)
      decreases Rank(depth), 8, 0
    {
      hide Dereference, Compose, StringValue, IsLocal, JsonMap.Valid, JsonMap.Model, Within, ModelOf, Flat, Grounded;
      RootHere();
      var out := Copy(schema);
      var ref := ReadRef(out);
      if IsLocal(ref) && ref in activeRefs {
        Report(RefCycle(ref));
        return Ok(out);
      }
      r := ReplaceRef(out, ref, depth);
      if r.Cancelled? {
        return;
      }
      r := ComposeNode(r.out, depth);
    }

    method ReadRef(out: JsonMap) returns (ref: string)
      requires out.Valid()
      ensures ref == RefOf(FieldsOf(out))
    {
      hide JsonMap.Valid, JsonMap.Model, Within, ModelOf, Flat, StringValue;
      out.PartAt("$ref");
      FlatReads(out.At("$ref"), out.repr - {out});
      ref := StringValue(Flat(out.At("$ref")));
    }

    /** Resolves the target of a local reference and puts the other fields over it. */
    method ReplaceRef(schema: JsonMap, ref: string, depth: nat) returns (r: Result)
      requires Grounded() && schema.Valid() && ref == RefOf(FieldsOf(schema)) && depth <= MAX_DEPTH
      requires (IsLocal(ref) ==> ref !in activeRefs) && schema !in root.repr
      modifies this
      ensures activeRefs == old(activeRefs) && Grounded()
      ensures Matches(r, Dereference(env, old(FieldsOf(schema)), depth, activeRefs, old(Now())))
      ensures r.Ok? ==> r.out != null && (r.out == schema || fresh(r.out)) && r.out !in root.repr
      ensures fresh(Nodes(OutOf(r)) - root.repr - schema.repr)
      decreases Rank(depth), 7, 0
    {
      hide SchemaSpec.Resolve, LocalObjectRef, RefOf, IsLocal, MergeRef, JsonMap.Valid, JsonMap.Model, Grounded,
           IsEmpty;
      RootHere();
      if !IsLocal(ref) {
        return Ok(schema);
      }
      var target := Find(ref);
      EmptyMeans(target);
      if IsEmpty(target) {
        Report(RefUnresolved(ref));
        return Ok(schema);
      }
      activeRefs := activeRefs + {ref};
      var base := Resolve(target, depth + 1);
      activeRefs := activeRefs - {ref};
      assert activeRefs == old(activeRefs);
      if base.Cancelled? {
        return Cancelled;
      }
      var out := Overlay(base.out, schema);
      return Ok(out);
    }

    method ComposeNode(schema: JsonMap, depth: nat) returns (r: Result)
      requires Grounded() && schema.Valid() && schema !in root.repr && depth <= MAX_DEPTH
      modifies this, schema
      ensures activeRefs == old(activeRefs) && Grounded()
      ensures Matches(r, Compose(env, old(FieldsOf(schema)), depth, activeRefs, old(Now())))
      ensures fresh(Nodes(OutOf(r)) - root.repr - old(schema.repr))
      decreases Rank(depth), 6, 0
    {
      hide AllOf, Choice, Nested, JsonMap.Valid, JsonMap.Model, Grounded;
      RootHere();
      r := MergeAllOf(schema, depth);
      if r.Cancelled? {
        return;
      }
      r := MergeChoice("oneOf", r.out, depth);
      if r.Cancelled? {
        return;
      }
      r := MergeChoice("anyOf", r.out, depth);
      if r.Cancelled? {
        return;
      }
      r := ResolveNested(r.out, depth);
    }

    lemma RootHere()
      requires Grounded()
      ensures root in root.repr && deadline == env.deadline
    {
    }

    method MergeAllOf(schema: JsonMap, depth: nat) returns (r: Result)
      requires Grounded() && schema.Valid() && schema !in root.repr && depth <= MAX_DEPTH
      modifies this, schema
      ensures activeRefs == old(activeRefs) && Grounded()
      ensures Matches(r, AllOf(env, old(FieldsOf(schema)), depth, activeRefs, old(Now())))
      ensures r.Ok? ==> r.out != null && (r.out == schema || fresh(r.out)) && r.out !in root.repr
      ensures fresh(Nodes(OutOf(r)) - root.repr - old(schema.repr))
      decreases Rank(depth), 5, 0
    {
      hide Branches, JsonMap.Valid, JsonMap.Model, Within, ModelOf, Grounded;
      RootHere();
      schema.PartAt("allOf");
      var value := schema.At("allOf");
      SliceValueOf(value, schema.repr - {schema});
      if |ListOf(value)| == 0 {
        return Ok(schema);
      }
      schema.Remove("allOf");
      r := MergeBranches(schema, ListOf(value), true, depth, schema.repr - {schema});
    }

    /** One turn of the loop over oneOf and anyOf. */
    method MergeChoice(keyword: string, schema: JsonMap, depth: nat) returns (r: Result)
      requires Grounded() && schema.Valid() && schema !in root.repr && depth <= MAX_DEPTH
      modifies this, schema
      ensures activeRefs == old(activeRefs) && Grounded()
      ensures Matches(r, Choice(env, keyword, old(FieldsOf(schema)), depth, activeRefs, old(Now())))
      ensures r.Ok? ==> r.out != null && (r.out == schema || fresh(r.out)) && r.out !in root.repr
      ensures fresh(Nodes(OutOf(r)) - root.repr - old(schema.repr))
      decreases Rank(depth), 5, 0
    {
      hide Branches, JsonMap.Valid, JsonMap.Model, Within, ModelOf, Grounded;
      RootHere();
      schema.PartAt(keyword);
      var value := schema.At(keyword);
      SliceValueOf(value, schema.repr - {schema});
      if |ListOf(value)| == 0 {
        return Ok(schema);
      }
      if !branchReported {
        branchReported := true;
        Report(BranchSelection(keyword));
      }
      schema.Remove(keyword);
      r := MergeBranches(schema, ListOf(value), false, depth, schema.repr - {schema});
    }

    method MergeBranches(schema: JsonMap, branches: seq<Value>, includeRequired: bool, depth: nat,
                         ghost nodes: set<JsonMap>)
      returns (r: Result)
      requires Grounded() && schema.Valid() && AllWithin(branches, nodes) && branches != [] && depth <= MAX_DEPTH
      modifies this
      ensures activeRefs == old(activeRefs) && Grounded()
      ensures Matches(r, Branches(env, old(FieldsOf(schema)), old(Models(branches, nodes)), includeRequired, depth,
                                  activeRefs, old(Now())))
      ensures r.Ok? ==> r.out != null && fresh(r.out)
      ensures fresh(Nodes(OutOf(r)) - root.repr - schema.repr - nodes)
      decreases Rank(depth), 4, |branches|, 1
    {
      hide SchemaSpec.Resolve, MergeSchema, JsonMap.Valid, JsonMap.Model, Within, ModelOf, Grounded;
      ghost var models := Models(branches, nodes);
      var out: JsonMap := schema;
      var i := 0;
      while i < |branches|
        invariant 0 <= i <= |branches| && activeRefs == old(activeRefs) && Grounded()
        invariant AllWithin(branches, nodes) && Models(branches, nodes) == models
        invariant out.Valid() && (i > 0 ==> fresh(out)) && fresh(out.repr - root.repr - schema.repr - nodes)
        invariant Branches(env, old(FieldsOf(schema)), models, includeRequired, depth, activeRefs, old(Now()))
               == Branches(env, FieldsOf(out), models[i..], includeRequired, depth, activeRefs, Now())
      {
        assert models[i..][1..] == models[i + 1..];
        var merged := MergeBranch(out, branches[i], includeRequired, depth, nodes);
        if merged.Cancelled? {
          return Cancelled;
        }
        out := merged.out;
        i := i + 1;
      }
      return Ok(out);
    }

    method MergeBranch(schema: JsonMap, branch: Value, includeRequired: bool, depth: nat, ghost nodes: set<JsonMap>)
      returns (r: Result)
      requires Grounded() && schema.Valid() && Within(branch, nodes) && depth <= MAX_DEPTH
      modifies this
      ensures activeRefs == old(activeRefs) && Grounded()
      ensures (var reply := SchemaSpec.Resolve(env, MapValue(old(ModelOf(branch, nodes))), depth + 1, activeRefs,
                                               old(Now()));
               Matches(r, if reply.Go?
                          then Go(MergeSchema(old(FieldsOf(schema)), reply.out, includeRequired), reply.st) else reply))
      ensures r.Ok? ==> r.out != null && fresh(r.out)
      ensures fresh(Nodes(OutOf(r)) - root.repr - schema.repr - nodes)
      decreases Rank(depth), 4, 0, 0
    {
      hide SchemaSpec.Resolve, MergeSchema, JsonMap.Valid, JsonMap.Model, Within, ModelOf, Grounded;
      MapValueOf(branch, nodes);
      var resolved := Resolve(MapOf(branch), depth + 1);
      if resolved.Cancelled? {
        return Cancelled;
      }
      var out := Merge(schema, resolved.out, includeRequired);
      return Ok(out);
    }

    method ResolveNested(schema: JsonMap, depth: nat) returns (r: Result)
      requires Grounded() && schema.Valid() && schema !in root.repr && depth <= MAX_DEPTH
      modifies this, schema
      ensures activeRefs == old(activeRefs) && Grounded()
      ensures Matches(r, Nested(env, old(FieldsOf(schema)), depth, activeRefs, old(Now())))
      ensures fresh(Nodes(OutOf(r)) - root.repr - old(schema.repr))
      decreases Rank(depth), 5, 0
    {
      hide Properties, Items, JsonMap.Valid, JsonMap.Model, Grounded;
      RootHere();
      var ok := ResolveProperties(schema, depth);
      if !ok {
        return Cancelled;
      }
      ok := ResolveItems(schema, depth);
      return if ok then Ok(schema) else Cancelled;
    }

    method ResolveProperties(schema: JsonMap, depth: nat) returns (ok: bool)
      requires Grounded() && schema.Valid() && schema !in root.repr && depth <= MAX_DEPTH
      modifies this, schema
      ensures activeRefs == old(activeRefs) && Grounded()
      ensures Matches(if ok then Ok(schema) else Cancelled,
                      Properties(env, old(FieldsOf(schema)), depth, activeRefs, old(Now())))
      ensures fresh(schema.repr - root.repr - old(schema.repr))
      decreases Rank(depth), 4, 0
    {
      hide Each, SortedSet, JsonMap.Valid, JsonMap.Model, Within, ModelOf, Grounded, IsEmpty, MapOf;
      RootHere();
      schema.PartAt("properties");
      var properties := MapOf(schema.At("properties"));
      MapValueOf(schema.At("properties"), schema.repr - {schema});
      EmptyMeans(properties);
      if !IsEmpty(properties) {
        NotNil(properties);
        properties.Parts();
        var names := SortStrings(properties.fields.Keys);
        var resolved := ResolveEach(names, properties, depth);
        if resolved.Cancelled? {
          return false;
        }
        RefWithin(resolved.out, resolved.out.repr);
        schema.Put("properties", Ref(resolved.out), resolved.out.repr);
      }
      return true;
    }

    method ResolveItems(schema: JsonMap, depth: nat) returns (ok: bool)
      requires Grounded() && schema.Valid() && schema !in root.repr && depth <= MAX_DEPTH
      modifies this, schema
      ensures activeRefs == old(activeRefs) && Grounded()
      ensures Matches(if ok then Ok(schema) else Cancelled,
                      Items(env, old(FieldsOf(schema)), depth, activeRefs, old(Now())))
      ensures fresh(schema.repr - root.repr - old(schema.repr))
      decreases Rank(depth), 4, 0
    {
      hide SchemaSpec.Resolve, JsonMap.Valid, JsonMap.Model, Within, ModelOf, Grounded;
      RootHere();
      schema.PartAt("items");
      var items := MapOf(schema.At("items"));
      MapValueOf(schema.At("items"), schema.repr - {schema});
      EmptyMeans(items);
      if !IsEmpty(items) {
        var resolved := Resolve(items, depth + 1);
        if resolved.Cancelled? {
          return false;
        }
        RefWithin(resolved.out, Nodes(resolved.out));
        schema.Put("items", Ref(resolved.out), Nodes(resolved.out));
      }
      return true;
    }

    /** The loop over the sorted property names. */
    method ResolveEach(names: seq<string>, properties: JsonMap, depth: nat) returns (r: Result)
      requires Grounded() && properties.Valid() && depth <= MAX_DEPTH
      modifies this
      ensures activeRefs == old(activeRefs) && Grounded()
      ensures Matches(r, Each(env, names, old(FieldsOf(properties)), map[], depth, activeRefs, old(Now())))
      ensures r.Ok? ==> r.out != null && fresh(r.out)
      ensures fresh(Nodes(OutOf(r)) - root.repr - properties.repr)
      decreases Rank(depth), 3, |names|, 1
    {
      hide SchemaSpec.Resolve, JsonMap.Valid, JsonMap.Model, Within, ModelOf, Grounded;
      var done := new JsonMap();
      var i := 0;
      ghost var from := FieldsOf(properties);
      RootHere();
      while i < |names|
        invariant 0 <= i <= |names| && activeRefs == old(activeRefs) && Grounded()
        invariant properties.Valid() && FieldsOf(properties) == from
        invariant done.Valid() && fresh(done) && fresh(done.repr - root.repr - properties.repr)
        invariant Each(env, names, from, map[], depth, activeRefs, old(Now()))
               == Each(env, names[i..], from, FieldsOf(done), depth, activeRefs, Now())
      {
        assert names[i..][1..] == names[i + 1..];
        var ok := ResolveProperty(done, names[i], properties, depth);
        if !ok {
          return Cancelled;
        }
        i := i + 1;
      }
      return Ok(done);
    }

    method ResolveProperty(done: JsonMap, name: string, properties: JsonMap, depth: nat) returns (ok: bool)
      requires Grounded() && properties.Valid() && done.Valid() && depth <= MAX_DEPTH
      requires done !in root.repr && done !in properties.repr
      modifies this, done
      ensures activeRefs == old(activeRefs) && Grounded() && properties.Valid()
              && FieldsOf(properties) == old(FieldsOf(properties))
      ensures done.Valid() && fresh(done.repr - old(done.repr) - root.repr - properties.repr)
      ensures (var reply := SchemaSpec.Resolve(env, MapValue(Get(FieldsOf(properties), name)), depth + 1, activeRefs,
                                               old(Now()));
               && Now() == reply.st && (ok <==> reply.Go?)
               && (ok ==> FieldsOf(done) == old(FieldsOf(done))[name := Obj(reply.out)]))
      decreases Rank(depth), 3, 0, 0
    {
      hide SchemaSpec.Resolve, JsonMap.Valid, JsonMap.Model, Within, ModelOf, Grounded;
      RootHere();
      properties.PartAt(name);
      MapValueOf(properties.At(name), properties.repr - {properties});
      var resolved := Resolve(MapOf(properties.At(name)), depth + 1);
      ok := resolved.Ok?;
      if ok {
        RefWithin(resolved.out, Nodes(resolved.out));
        done.Put(name, Ref(resolved.out), Nodes(resolved.out));
      }
    }
  }

  lemma NotNil(m: JsonMap?)
    requires !IsEmpty(m)
    ensures m != null
  {
  }

  lemma NoMap(v: Value, nodes: set<JsonMap>)
    requires Within(v, nodes) && MapOf(v) == null
    ensures ModelOf(v, nodes).Obj? ==> ModelOf(v, nodes) == Obj(map[])
  {
    hide JsonMap.Model, JsonMap.Valid;
  }

  /** mergeObjectRef */
  method Overlay(base: JsonMap?, overlay: JsonMap) returns (out: JsonMap)
    requires Sound(base) && overlay.Valid()
    ensures fresh(out) && out.Valid() && fresh(out.repr - Nodes(base) - overlay.repr)
    ensures out.Model() == Obj(MergeRef(FieldsOf(base), FieldsOf(overlay)))
  {
    hide JsonMap.Valid, JsonMap.Model, Within, ModelOf;
    out := Copy(base);
    overlay.Parts();
    PutFields(out, overlay, overlay.fields.Keys - {"$ref"});
    ghost var fields := FieldsOf(overlay);
    assert Chosen(fields, overlay.fields.Keys - {"$ref"}) == fields - {"$ref"};
  }

  /** What mergeSchema does with one entry. */
  ghost function WithEntry(out: Schema, key: string, value: Json, includeRequired: bool): Schema {
    if key == "properties" then out[key := Obj(MapValue(Get(out, key)) + MapValue(value))]
    else if key == "required" then
      if includeRequired then out[key := Strs(SortedUniqueStrings(StringSlice(Get(out, key)) + StringSlice(value)))]
        else out
    else if key in out then out
    else out[key := value]
  }

  method MergeProperties(out: JsonMap, value: Value, ghost nodes: set<JsonMap>)
    requires out.Valid() && Within(value, nodes) && out !in nodes
    modifies out
    ensures out.Valid() && fresh(out.repr - old(out.repr) - nodes)
    ensures old(out.Model()).Obj?
    ensures out.Model() == Obj(WithEntry(old(out.Model()).fields, "properties", old(ModelOf(value, nodes)), false))
  {
    hide JsonMap.Valid, JsonMap.Model, Within, ModelOf;
    out.PartAt("properties");
    MapValueOf(out.At("properties"), out.repr - {out});
    MapValueOf(value, nodes);
    var properties := Copy(MapOf(out.At("properties")));
    PutAll(properties, MapOf(value));
    RefWithin(properties, properties.repr);
    out.Put("properties", Ref(properties), properties.repr);
  }

  method MergeRequired(out: JsonMap, value: Value, ghost nodes: set<JsonMap>)
    requires out.Valid() && Within(value, nodes) && out !in nodes
    modifies out
    ensures out.Valid() && out.repr == old(out.repr)
    ensures old(out.Model()).Obj?
    ensures out.Model() == Obj(WithEntry(old(out.Model()).fields, "required", old(ModelOf(value, nodes)), true))
  {
    hide JsonMap.Valid, JsonMap.Model, ModelOf, StringSlice, SortedUniqueStrings, Flat;
    out.PartAt("required");
    FlatReads(out.At("required"), out.repr - {out});
    FlatReads(value, nodes);
    var mine := ReadStringSlice(Flat(out.At("required")));
    var theirs := ReadStringSlice(Flat(value));
    var names := SortStrings(TrimmedSet(mine + theirs));
    SortedNames(mine + theirs);
    NamesLeaf(names);
    out.Put("required", Leaf(Strs(names)), {});
  }

  lemma NamesLeaf(names: seq<string>)
    ensures Within(Leaf(Strs(names)), {}) && ModelOf(Leaf(Strs(names)), {}) == Strs(names)
  {
  }

  /** The body of the loop in mergeSchema. */
  method MergeEntry(out: JsonMap, key: string, value: Value, includeRequired: bool, ghost nodes: set<JsonMap>)
    requires out.Valid() && Within(value, nodes) && out !in nodes
    modifies out
    ensures out.Valid() && fresh(out.repr - old(out.repr) - nodes)
    ensures old(out.Model()).Obj?
    ensures out.Model() == Obj(WithEntry(old(out.Model()).fields, key, old(ModelOf(value, nodes)), includeRequired))
  {
    hide JsonMap.Valid, JsonMap.Model, Within, ModelOf, StringSlice, SortedUniqueStrings;
    out.Parts();
    if key == "properties" {
      MergeProperties(out, value, nodes);
    } else if key == "required" {
      if includeRequired {
        MergeRequired(out, value, nodes);
      }
    } else if key !in out.fields {
      out.Put(key, value, nodes);
    }
  }

  /** mergeSchema: the loop over the entries of `addition`, in any order. */
  method Merge(base: JsonMap, addition: JsonMap?, includeRequired: bool) returns (out: JsonMap)
    requires base.Valid() && Sound(addition)
    ensures fresh(out) && out.Valid() && fresh(out.repr - base.repr - Nodes(addition))
    ensures out.Model() == Obj(MergeSchema(FieldsOf(base), FieldsOf(addition), includeRequired))
  {
    hide JsonMap.Valid, JsonMap.Model, Within, ModelOf, MergeSchema, Visited, WithEntry;
    out := Copy(base);
    ghost var b, a := FieldsOf(base), FieldsOf(addition);
    NoneVisited(b, a, includeRequired);
    if addition == null {
      assert a.Keys == {};
      AllVisited(a);
      return;
    }
    addition.Parts();
    var keys := addition.fields.Keys;
    while keys != {}
      invariant keys <= a.Keys && addition.Valid() && addition.Model() == Obj(a) && addition.fields.Keys == a.Keys
      invariant out.Valid() && fresh(out) && fresh(out.repr - base.repr - addition.repr)
      invariant out.Model() == Obj(MergeSchema(b, Visited(a, keys), includeRequired))
      decreases |keys|
    {
      var key: string :| key in keys;
      addition.Parts();
      EntryVisited(b, a, keys, key, includeRequired);
      MergeEntry(out, key, addition.fields[key], includeRequired, addition.repr - {addition});
      keys := keys - {key};
    }
    AllVisited(a);
  }

  /** One turn of the loop in mergeSchema. */
  lemma EntryVisited(base: Schema, addition: Schema, keys: set<string>, key: string, includeRequired: bool)
    requires key in keys && key in addition
    ensures (var out := MergeSchema(base, Visited(addition, keys), includeRequired);
             MergeSchema(base, Visited(addition, keys - {key}), includeRequired)
             == WithEntry(out, key, addition[key], includeRequired))
  {
    hide StringSlice, SortedUniqueStrings, MergeSchema, Visited;
    VisitOne(base, addition, keys, key, includeRequired);
    MergeOneMore(base, Visited(addition, keys), key, addition[key], includeRequired);
  }

  /** The entries of `addition` that are no longer in `keys`. */
  ghost function Visited(addition: Schema, keys: set<string>): Schema {
    map key | key in addition && key !in keys :: addition[key]
  }

  lemma NoneVisited(base: Schema, addition: Schema, includeRequired: bool)
    ensures MergeSchema(base, Visited(addition, addition.Keys), includeRequired) == base
  {
    hide StringSlice, SortedUniqueStrings;
    assert Visited(addition, addition.Keys) == map[];
  }

  lemma AllVisited(addition: Schema)
    ensures Visited(addition, {}) == addition
  {
  }

  lemma VisitOne(base: Schema, addition: Schema, keys: set<string>, key: string, includeRequired: bool)
    requires key in keys && key in addition
    ensures key !in Visited(addition, keys)
    ensures Visited(addition, keys - {key}) == Visited(addition, keys)[key := addition[key]]
    ensures (var out := MergeSchema(base, Visited(addition, keys), includeRequired);
             Get(out, key) == Get(base, key) && (key in out <==> key in base))
  {
    hide StringSlice, SortedUniqueStrings;
  }

  lemma SortedNames(list: seq<string>)
    ensures SortedUniqueStrings(list) == SortedSet(TrimmedSet(list))
  {
    hide SortedSet;
  }

  /** Merging one entry more. */
  lemma MergeOneMore(base: Schema, seen: Schema, key: string, value: Json, includeRequired: bool)
    requires key !in seen
    ensures (var out := MergeSchema(base, seen, includeRequired);
             MergeSchema(base, seen[key := value], includeRequired)
             == if key == "properties" then out[key := Obj(MapValue(Get(base, key)) + MapValue(value))]
                else if key == "required" then
                  if includeRequired
                  then out[key := Strs(SortedUniqueStrings(StringSlice(Get(base, key)) + StringSlice(value)))]
                  else out
                else if key in base then out
                else out[key := value])
  {
    hide StringSlice, SortedUniqueStrings;
  }

  // ---------------------------------------------------------------- the entry point

  /** resolveLocalSchemaRefs: what the specification says, with every map of the document and
      of the schema left as it was, on errors too. */
  method ResolveLocalSchemaRefs(root: JsonMap, schema: JsonMap?, deadline: Option<nat>)
    returns (r: Result, ghost st: State)
    requires root.Valid() && Sound(schema)
    ensures (var reply := SchemaSpec.Resolve(Env(old(FieldsOf(root)), deadline), old(FieldsOf(schema)), 0, {}, Start);
             st == reply.st && Sound(OutOf(r)) && (r.Ok? <==> reply.Go?) && (r.Ok? ==> FieldsOf(r.out) == reply.out))
    ensures root.Valid() && root.Model() == old(root.Model()) && forall m <- old(root.repr) :: unchanged(m)
    ensures Sound(schema) && FieldsOf(schema) == old(FieldsOf(schema)) && forall m <- old(Nodes(schema)) :: unchanged(m)
  {
    hide SchemaSpec.Resolve, JsonMap.Valid, JsonMap.Model;
    var resolver := new Resolver(root, deadline);
    r := resolver.Resolve(schema, 0);
    st := resolver.Now();
  }
}
