/** What schema resolution guarantees on every document, cyclic ones included: it stays
    within its work and depth limits, and a run that reports no issue has expanded
    everything. */
module SchemaProofs {
  import opened Ordering
  import opened Json
  import opened SchemaSpec

  // ---------------------------------------------------------------- bounds

  /** Every limit that was hit has been reported; at most `MAX_WORK` nodes were expanded,
      one for each unit of work up to the limit, none deeper than `MAX_DEPTH`. */
  ghost predicate Accounted(st: State) {
    && (st.branchReported <==> exists issue <- st.issues :: issue.BranchSelection?)
    && multiset(st.issues)[DepthExceeded] == (if st.depthReported then 1 else 0)
    && multiset(st.issues)[LimitExceeded] == (if st.limitReported then 1 else 0)
    && (st.work > MAX_WORK <==> st.limitReported)
    && |st.visits| == (if st.work <= MAX_WORK then st.work else MAX_WORK)
    && forall depth <- st.visits :: depth <= MAX_DEPTH
  }

  /** `later` comes after `earlier` in one resolution. */
  ghost predicate After(earlier: State, later: State) {
    && earlier.issues <= later.issues
    && earlier.work <= later.work
    && earlier.polls <= later.polls
    && (Accounted(earlier) ==> Accounted(later))
  }

  /** A run is cancelled by the last check of the context it made, and by no earlier one. */
  ghost predicate Polled(env: Env, st: State, r: Reply) {
    && st.polls <= r.st.polls
    && (r.Cancel? <==> r.st.polls > st.polls && Expired(env, r.st.polls - 1))
  }

  lemma AfterTransitive(a: State, b: State, c: State)
    requires After(a, b) && After(b, c)
    ensures After(a, c)
  {
    hide Accounted;
  }

  lemma NotesCount(st: State, issue: Issue, keyword: string)
    requires issue.RefCycle? || issue.RefUnresolved?
    ensures After(st, Note(st, issue)) && After(st, NoteBranch(st, keyword)) && After(st, NoteDepth(st))
    ensures Note(st, issue).issues != []
    ensures Accounted(st) ==> NoteBranch(st, keyword).issues != [] && NoteDepth(st).issues != []
  {
    NoteCounts(st, issue);
    NoteCounts(st, BranchSelection(keyword));
    NoteCounts(st, DepthExceeded);
  }

  /** Appending an issue appends it to the issues of every kind it is of. */
  lemma NoteCounts(st: State, issue: Issue)
    ensures (var next := Note(st, issue);
             && multiset(next.issues) == multiset(st.issues) + multiset{issue}
             && issue in next.issues
             && forall i :: i in next.issues <==> i in st.issues || i == issue)
  {
  }

  lemma WorkCounts(st: State, depth: nat)
    ensures (var st1 := st.(polls := st.polls + 1);
             var st2 := st1.(work := st1.work + 1);
             && After(st, st1)
             && (st2.work > MAX_WORK ==> After(st, NoteLimit(st2)) && (Accounted(st) ==> NoteLimit(st2).issues != []))
             && (st2.work <= MAX_WORK && depth <= MAX_DEPTH ==> After(st, st2.(visits := st2.visits + [depth]))))
  {
    NoteCounts(st.(polls := st.polls + 1, work := st.work + 1), LimitExceeded);
  }

  lemma {:induction false} ResolveAdvances(env: Env, schema: Schema, depth: nat, active: set<string>, st: State)
    ensures After(st, Resolve(env, schema, depth, active, st).st)
    ensures Polled(env, st, Resolve(env, schema, depth, active, st))
    decreases Rank(depth), 9, 0
  {
    hide Expand, After, Accounted;
    var st1 := st.(polls := st.polls + 1);
    var st2 := st1.(work := st1.work + 1);
    WorkCounts(st, depth);
    NotesCount(st1, RefCycle(""), "");
    AfterTransitive(st, st1, NoteDepth(st1));
    if !Expired(env, st.polls) && schema != map[] && depth <= MAX_DEPTH && st2.work <= MAX_WORK {
      var st3 := st2.(visits := st2.visits + [depth]);
      ExpandAdvances(env, schema, depth, active, st3);
      AfterTransitive(st, st3, Expand(env, schema, depth, active, st3).st);
    }
  }

  lemma {:induction false} ExpandAdvances(env: Env, schema: Schema, depth: nat, active: set<string>, st: State)
    requires depth <= MAX_DEPTH
    ensures After(st, Expand(env, schema, depth, active, st).st)
    ensures Polled(env, st, Expand(env, schema, depth, active, st))
    decreases Rank(depth), 8, 0
  {
    hide Dereference, Compose, After;
    NotesCount(st, RefCycle(RefOf(schema)), "");
    DereferenceAdvances(env, schema, depth, active, st);
    var r := Dereference(env, schema, depth, active, st);
    if r.Go? {
      ComposeAdvances(env, r.out, depth, active, r.st);
      AfterTransitive(st, r.st, Compose(env, r.out, depth, active, r.st).st);
    }
  }

  lemma {:induction false} DereferenceAdvances(env: Env, schema: Schema, depth: nat, active: set<string>, st: State)
    requires depth <= MAX_DEPTH
    ensures After(st, Dereference(env, schema, depth, active, st).st)
    ensures Polled(env, st, Dereference(env, schema, depth, active, st))
    decreases Rank(depth), 7, 0
  {
    hide Resolve, LocalObjectRef, RefOf, MergeRef;
    var ref := RefOf(schema);
    NotesCount(st, RefUnresolved(ref), "");
    ResolveAdvances(env, LocalObjectRef(env.root, ref), depth + 1, active + {ref}, st);
  }

  lemma {:induction false} ComposeAdvances(env: Env, out: Schema, depth: nat, active: set<string>, st: State)
    requires depth <= MAX_DEPTH
    ensures After(st, Compose(env, out, depth, active, st).st)
    ensures Polled(env, st, Compose(env, out, depth, active, st))
    decreases Rank(depth), 6, 0
  {
    hide AllOf, Choice, Nested, After;
    AllOfAdvances(env, out, depth, active, st);
    var a := AllOf(env, out, depth, active, st);
    if a.Go? {
      ChoiceAdvances(env, "oneOf", a.out, depth, active, a.st);
      var b := Choice(env, "oneOf", a.out, depth, active, a.st);
      AfterTransitive(st, a.st, b.st);
      if b.Go? {
        ChoiceAdvances(env, "anyOf", b.out, depth, active, b.st);
        var c := Choice(env, "anyOf", b.out, depth, active, b.st);
        AfterTransitive(st, b.st, c.st);
        if c.Go? {
          NestedAdvances(env, c.out, depth, active, c.st);
          AfterTransitive(st, c.st, Nested(env, c.out, depth, active, c.st).st);
        }
      }
    }
  }

  lemma {:induction false} AllOfAdvances(env: Env, out: Schema, depth: nat, active: set<string>, st: State)
    requires depth <= MAX_DEPTH
    ensures After(st, AllOf(env, out, depth, active, st).st)
    ensures Polled(env, st, AllOf(env, out, depth, active, st))
    decreases Rank(depth), 5, 0
  {
    hide Branches;
    BranchesAdvance(env, out - {"allOf"}, SliceValue(Get(out, "allOf")), true, depth, active, st);
  }

  lemma {:induction false} ChoiceAdvances(env: Env, keyword: string, out: Schema, depth: nat, active: set<string>,
                                          st: State)
    requires depth <= MAX_DEPTH
    ensures After(st, Choice(env, keyword, out, depth, active, st).st)
    ensures Polled(env, st, Choice(env, keyword, out, depth, active, st))
    decreases Rank(depth), 5, 0
  {
    hide Branches, Accounted;
    NotesCount(st, RefCycle(""), keyword);
    var noted := NoteBranch(st, keyword);
    BranchesAdvance(env, out - {keyword}, SliceValue(Get(out, keyword)), false, depth, active, noted);
  }

  lemma {:induction false} BranchesAdvance(env: Env, out: Schema, branches: seq<Json>, includeRequired: bool,
                                           depth: nat, active: set<string>, st: State)
    requires depth <= MAX_DEPTH
    ensures After(st, Branches(env, out, branches, includeRequired, depth, active, st).st)
    ensures Polled(env, st, Branches(env, out, branches, includeRequired, depth, active, st))
    decreases Rank(depth), 4, |branches|
  {
    hide Resolve, MergeSchema, Accounted;
    if branches != [] {
      ResolveAdvances(env, MapValue(branches[0]), depth + 1, active, st);
      var r := Resolve(env, MapValue(branches[0]), depth + 1, active, st);
      if r.Go? {
        BranchesAdvance(env, MergeSchema(out, r.out, includeRequired), branches[1..], includeRequired, depth, active,
                        r.st);
      }
    }
  }

  lemma {:induction false} NestedAdvances(env: Env, out: Schema, depth: nat, active: set<string>, st: State)
    requires depth <= MAX_DEPTH
    ensures After(st, Nested(env, out, depth, active, st).st)
    ensures Polled(env, st, Nested(env, out, depth, active, st))
    decreases Rank(depth), 5, 0
  {
    hide Properties, Items, Accounted;
    PropertiesAdvance(env, out, depth, active, st);
    var p := Properties(env, out, depth, active, st);
    if p.Go? {
      ItemsAdvance(env, p.out, depth, active, p.st);
    }
  }

  lemma {:induction false} PropertiesAdvance(env: Env, out: Schema, depth: nat, active: set<string>, st: State)
    requires depth <= MAX_DEPTH
    ensures After(st, Properties(env, out, depth, active, st).st)
    ensures Polled(env, st, Properties(env, out, depth, active, st))
    decreases Rank(depth), 4, 0
  {
    hide Each, SortedSet, Accounted;
    var properties := MapValue(Get(out, "properties"));
    EachAdvances(env, SortedSet(properties.Keys), properties, map[], depth, active, st);
  }

  lemma {:induction false} EachAdvances(env: Env, names: seq<string>, properties: Schema, done: Schema,
                                        depth: nat, active: set<string>, st: State)
    requires depth <= MAX_DEPTH
    ensures After(st, Each(env, names, properties, done, depth, active, st).st)
    ensures Polled(env, st, Each(env, names, properties, done, depth, active, st))
    decreases Rank(depth), 3, |names|
  {
    hide Resolve, Accounted;
    if names != [] {
      var schema := MapValue(Get(properties, names[0]));
      ResolveAdvances(env, schema, depth + 1, active, st);
      var r := Resolve(env, schema, depth + 1, active, st);
      if r.Go? {
        EachAdvances(env, names[1..], properties, done[names[0] := Obj(r.out)], depth, active, r.st);
      }
    }
  }

  lemma {:induction false} ItemsAdvance(env: Env, out: Schema, depth: nat, active: set<string>, st: State)
    requires depth <= MAX_DEPTH
    ensures After(st, Items(env, out, depth, active, st).st)
    ensures Polled(env, st, Items(env, out, depth, active, st))
    decreases Rank(depth), 4, 0
  {
    hide Resolve, Accounted;
    ResolveAdvances(env, MapValue(Get(out, "items")), depth + 1, active, st);
  }

  /** On every document, and however the run ends, at most 4096 nodes are expanded, none
      deeper than depth 6.  The work limit is reported exactly when a node was not expanded
      because of it, each limit at most once, and a run is cancelled exactly by the last
      check of its context. */
  lemma ResolutionBounded(env: Env, schema: Schema)
    ensures (var r := Resolve(env, schema, 0, {}, Start);
             && |r.st.visits| <= 4_096
             && (forall depth <- r.st.visits :: depth <= 6)
             && (|r.st.visits| < r.st.work <==> LimitExceeded in r.st.issues)
             && multiset(r.st.issues)[LimitExceeded] <= 1 && multiset(r.st.issues)[DepthExceeded] <= 1
             && (r.Cancel? <==> r.st.polls > 0 && Expired(env, r.st.polls - 1)))
  {
    hide Resolve;
    ResolveAdvances(env, schema, 0, {}, Start);
    var issues := Resolve(env, schema, 0, {}, Start).st.issues;
    assert LimitExceeded in issues <==> LimitExceeded in multiset(issues);
  }

  // ---------------------------------------------------------------- expanded schemas

  predicate NoLocalRef(s: Schema) {
    !IsLocal(RefOf(s))
  }

  predicate NoList(s: Schema, keyword: string) {
    SliceValue(Get(s, keyword)) == []
  }

  predicate NoLists(s: Schema) {
    NoList(s, "allOf") && NoList(s, "oneOf") && NoList(s, "anyOf")
  }

  function PropertiesOf(s: Schema): Schema {
    MapValue(Get(s, "properties"))
  }

  /** No local reference and no composition list at any position reached through
      `properties` and `items`; every property is an object. */
  ghost predicate Expanded(j: Json)
    decreases j
  {
    j.Obj? ==>
      && NoLocalRef(j.fields) && NoLists(j.fields)
      && (forall name <- PropertiesOf(j.fields) ::
            PropertiesOf(j.fields)[name].Obj? && Expanded(PropertiesOf(j.fields)[name]))
      && ("items" in j.fields ==> Expanded(j.fields["items"]))
  }

  /** No non-empty schema more than `n` levels below this one. */
  ghost predicate Within(j: Json, n: int)
    decreases j
  {
    j.Obj? && j.fields != map[] ==>
      && n >= 0
      && (forall name <- PropertiesOf(j.fields) :: Within(PropertiesOf(j.fields)[name], n - 1))
      && ("items" in j.fields ==> Within(j.fields["items"], n - 1))
  }

  /** The non-empty schemas reached through `properties` and `items`. */
  ghost function Nodes(j: Json): nat
    decreases j, 0
  {
    if !j.Obj? || j.fields == map[] then 0
    else
      1 + (if "properties" in j.fields then NodesOf(j.fields["properties"], SortedSet(PropertiesOf(j.fields).Keys))
           else 0)
        + (if "items" in j.fields then Nodes(j.fields["items"]) else 0)
  }

  ghost function NodesOf(properties: Json, names: seq<string>): nat
    decreases properties, |names|
  {
    if names == [] || !properties.Obj? then 0
    else
      (if names[0] in properties.fields then Nodes(properties.fields[names[0]]) else 0)
      + NodesOf(properties, names[1..])
  }

  /** What a run without issues makes of the schema it started from. */
  ghost predicate Resolved(depth: nat, st: State, r: Reply) {
    r.Go? && r.st.issues == [] ==>
      && Expanded(Obj(r.out))
      && Within(Obj(r.out), MAX_DEPTH - depth)
      && st.work + Nodes(Obj(r.out)) <= r.st.work
  }

  lemma EmptyExpanded(n: int)
    ensures Expanded(Obj(map[])) && Within(Obj(map[]), n) && Nodes(Obj(map[])) == 0
  {
    assert StringValue(Null) == "";
  }

  lemma {:induction false} ResolveExpands(env: Env, schema: Schema, depth: nat, active: set<string>, st: State)
    requires Accounted(st)
    ensures Resolved(depth, st, Resolve(env, schema, depth, active, st))
    decreases Rank(depth), 9, 0
  {
    hide Expand, Accounted, Expanded, Within, Nodes;
    var st1 := st.(polls := st.polls + 1);
    var st2 := st1.(work := st1.work + 1);
    EmptyExpanded(MAX_DEPTH - depth);
    WorkCounts(st, depth);
    NotesCount(st1, RefCycle(""), "");
    AfterTransitive(st, st1, st1);
    if !Expired(env, st.polls) && schema != map[] && depth <= MAX_DEPTH && st2.work <= MAX_WORK {
      var st3 := st2.(visits := st2.visits + [depth]);
      ExpandExpands(env, schema, depth, active, st3);
    }
  }

  /** The same, for the part of a resolution that follows the charge for this node. */
  ghost predicate ResolvedHere(depth: nat, st: State, r: Reply) {
    r.Go? && r.st.issues == [] ==>
      && Expanded(Obj(r.out))
      && Within(Obj(r.out), MAX_DEPTH - depth)
      && st.work + Nodes(Obj(r.out)) <= r.st.work + 1
  }

  lemma {:induction false} ExpandExpands(env: Env, schema: Schema, depth: nat, active: set<string>, st: State)
    requires depth <= MAX_DEPTH && Accounted(st)
    ensures ResolvedHere(depth, st, Expand(env, schema, depth, active, st))
    decreases Rank(depth), 8, 0
  {
    hide Dereference, Compose, Accounted, Expanded, Within, Nodes, NoLocalRef;
    NotesCount(st, RefCycle(RefOf(schema)), "");
    DereferenceAdvances(env, schema, depth, active, st);
    DereferenceExpands(env, schema, depth, active, st);
    var r := Dereference(env, schema, depth, active, st);
    if r.Go? {
      ComposeAdvances(env, r.out, depth, active, r.st);
      ComposeExpands(env, r.out, depth, active, r.st);
    }
  }

  lemma {:induction false} DereferenceExpands(env: Env, schema: Schema, depth: nat, active: set<string>, st: State)
    requires depth <= MAX_DEPTH && Accounted(st)
    ensures (var r := Dereference(env, schema, depth, active, st); r.Go? && r.st.issues == [] ==> NoLocalRef(r.out))
    decreases Rank(depth), 7, 0
  {
    hide Resolve, LocalObjectRef, Accounted, StringValue, IsLocal;
    var ref := RefOf(schema);
    NotesCount(st, RefUnresolved(ref), "");
    var target := LocalObjectRef(env.root, ref);
    ResolveExpands(env, target, depth + 1, active + {ref}, st);
    var r := Resolve(env, target, depth + 1, active + {ref}, st);
    if r.Go? && r.st.issues == [] {
      assert NoLocalRef(r.out);
      assert Get(MergeRef(r.out, schema), "$ref") == Get(r.out, "$ref");
    }
  }

  lemma {:induction false} ComposeExpands(env: Env, out: Schema, depth: nat, active: set<string>, st: State)
    requires depth <= MAX_DEPTH && Accounted(st)
    requires (var r := Compose(env, out, depth, active, st); r.Go? && r.st.issues == [] ==> NoLocalRef(out))
    ensures ResolvedHere(depth, st, Compose(env, out, depth, active, st))
    decreases Rank(depth), 6, 0
  {
    hide AllOf, Choice, Nested, Accounted, Expanded, Within, Nodes, NoLocalRef, NoList;
    AllOfAdvances(env, out, depth, active, st);
    var a := AllOf(env, out, depth, active, st);
    if a.Go? {
      ChoiceAdvances(env, "oneOf", a.out, depth, active, a.st);
      var b := Choice(env, "oneOf", a.out, depth, active, a.st);
      if b.Go? {
        ChoiceAdvances(env, "anyOf", b.out, depth, active, b.st);
        var c := Choice(env, "anyOf", b.out, depth, active, b.st);
        if c.Go? {
          NestedAdvances(env, c.out, depth, active, c.st);
          var n := Nested(env, c.out, depth, active, c.st);
          assert Compose(env, out, depth, active, st) == n;
          if n.Go? && n.st.issues == [] {
            AllOfExpands(env, out, depth, active, st);
            ChoiceQuiet(env, "oneOf", a.out, depth, active, a.st);
            ChoiceQuiet(env, "anyOf", b.out, depth, active, b.st);
            NestedExpands(env, c.out, depth, active, c.st);
          }
        }
      }
    }
  }

  /** A schema on which only `oneOf`, `anyOf`, `properties` and `items` remain to be done. */
  ghost predicate Plain(s: Schema) {
    NoLocalRef(s) && NoList(s, "allOf")
  }

  lemma {:induction false} AllOfExpands(env: Env, out: Schema, depth: nat, active: set<string>, st: State)
    requires depth <= MAX_DEPTH && Accounted(st) && NoLocalRef(out)
    ensures (var r := AllOf(env, out, depth, active, st); r.Go? && r.st.issues == [] ==> Plain(r.out))
    decreases Rank(depth), 5, 0
  {
    hide Branches, Accounted, StringValue, IsLocal;
    var rest := out - {"allOf"};
    assert Get(rest, "$ref") == Get(out, "$ref") && Get(rest, "allOf") == Null;
    if SliceValue(Get(out, "allOf")) != [] {
      BranchesExpand(env, rest, SliceValue(Get(out, "allOf")), depth, active, st);
    }
  }

  lemma {:induction false} BranchesExpand(env: Env, out: Schema, branches: seq<Json>,
                                          depth: nat, active: set<string>, st: State)
    requires depth <= MAX_DEPTH && Accounted(st) && Plain(out)
    ensures (var r := Branches(env, out, branches, true, depth, active, st); r.Go? && r.st.issues == [] ==>
              Plain(r.out))
    decreases Rank(depth), 4, |branches|
  {
    hide Resolve, Accounted, MergeSchema, Plain, Expanded, Within, Nodes;
    if branches != [] {
      var schema := MapValue(branches[0]);
      ResolveAdvances(env, schema, depth + 1, active, st);
      ResolveExpands(env, schema, depth + 1, active, st);
      var r := Resolve(env, schema, depth + 1, active, st);
      if r.Go? {
        var next := MergeSchema(out, r.out, true);
        BranchesAdvance(env, next, branches[1..], true, depth, active, r.st);
        if r.st.issues == [] {
          MergeStaysPlain(out, r.out);
          BranchesExpand(env, next, branches[1..], depth, active, r.st);
        }
      }
    }
  }

  lemma MergeStaysPlain(out: Schema, branch: Schema)
    requires Plain(out) && Expanded(Obj(branch))
    ensures Plain(MergeSchema(out, branch, true))
  {
    hide StringValue, IsLocal;
    var next := MergeSchema(out, branch, true);
    assert NoLocalRef(branch) && NoList(branch, "allOf");
    assert Get(next, "$ref") == (if "$ref" in out then out["$ref"] else Get(branch, "$ref"));
    assert Get(next, "allOf") == (if "allOf" in out then out["allOf"] else Get(branch, "allOf"));
  }

  /** Without an issue there was no branch to choose. */
  lemma ChoiceQuiet(env: Env, keyword: string, out: Schema, depth: nat, active: set<string>, st: State)
    requires depth <= MAX_DEPTH && Accounted(st)
    requires Choice(env, keyword, out, depth, active, st).st.issues == []
    ensures Choice(env, keyword, out, depth, active, st) == Go(out, st) && NoList(out, keyword)
  {
    hide Branches, Accounted;
    var branches := SliceValue(Get(out, keyword));
    if branches != [] {
      NotesCount(st, RefCycle(""), keyword);
      BranchesAdvance(env, out - {keyword}, branches, false, depth, active, NoteBranch(st, keyword));
    }
  }

  lemma {:induction false} NestedExpands(env: Env, out: Schema, depth: nat, active: set<string>, st: State)
    requires depth <= MAX_DEPTH && Accounted(st) && NoLocalRef(out) && NoLists(out)
    ensures ResolvedHere(depth, st, Nested(env, out, depth, active, st))
    decreases Rank(depth), 5, 0
  {
    hide Properties, Items, Accounted, Expanded, Within, Nodes, NoLocalRef, NoLists, PropertiesDone, ItemsDone;
    PropertiesAdvance(env, out, depth, active, st);
    var p := Properties(env, out, depth, active, st);
    if p.Go? {
      ItemsAdvance(env, p.out, depth, active, p.st);
      var i := Items(env, p.out, depth, active, p.st);
      if i.Go? && i.st.issues == [] {
        PropertiesExpand(env, out, depth, active, st);
        ItemsExpand(env, p.out, depth, active, p.st);
        WholeExpanded(out, p.out, i.out, depth, p.st.work - st.work, i.st.work - p.st.work);
      }
    }
  }

  /** `done` is `out` with its properties expanded, which took `work`. */
  ghost predicate PropertiesDone(out: Schema, done: Schema, depth: nat, work: int) {
    && (done == out || (exists resolved :: done == out["properties" := Obj(resolved)]))
    && (forall name <- PropertiesOf(done) ::
          && PropertiesOf(done)[name].Obj?
          && Expanded(PropertiesOf(done)[name])
          && Within(PropertiesOf(done)[name], MAX_DEPTH - depth - 1))
    && NodesOf(Obj(PropertiesOf(done)), SortedSet(PropertiesOf(done).Keys)) <= work
  }

  /** `done` is `out` with its items expanded, which took `work`. */
  ghost predicate ItemsDone(out: Schema, done: Schema, depth: nat, work: int) {
    && (done == out || (exists resolved :: done == out["items" := Obj(resolved)]))
    && ("items" in done ==>
          && Expanded(done["items"])
          && Within(done["items"], MAX_DEPTH - depth - 1)
          && Nodes(done["items"]) <= work)
    && 0 <= work
  }

  lemma WholeExpanded(out: Schema, p: Schema, i: Schema, depth: nat, work: int, more: int)
    requires depth <= MAX_DEPTH && NoLocalRef(out) && NoLists(out)
    requires PropertiesDone(out, p, depth, work) && ItemsDone(p, i, depth, more)
    ensures Expanded(Obj(i)) && Within(Obj(i), MAX_DEPTH - depth) && Nodes(Obj(i)) <= work + more + 1
  {
    hide StringValue, IsLocal, SortedSet;
    assert Get(i, "$ref") == Get(out, "$ref") && Get(i, "allOf") == Get(out, "allOf");
    assert Get(i, "oneOf") == Get(out, "oneOf") && Get(i, "anyOf") == Get(out, "anyOf");
    assert Get(i, "properties") == Get(p, "properties");
    assert NoLocalRef(i) && NoLists(i);
    if "properties" in i && !i["properties"].Obj? {
      assert NodesOf(i["properties"], SortedSet(PropertiesOf(i).Keys)) == 0;
    }
  }

  lemma {:induction false} PropertiesExpand(env: Env, out: Schema, depth: nat, active: set<string>, st: State)
    requires depth <= MAX_DEPTH && Accounted(st)
    ensures (var r := Properties(env, out, depth, active, st);
             r.Go? && r.st.issues == [] ==> PropertiesDone(out, r.out, depth, r.st.work - st.work))
    decreases Rank(depth), 4, 0
  {
    hide Each, Accounted, SortedSet, Expanded, Within, Nodes, NodesOf, PropertiesDone, EachDone;
    var properties := PropertiesOf(out);
    var names := SortedSet(properties.Keys);
    if properties == map[] {
      NoProperties(out, depth);
    } else {
      SortedSetDistinct(properties.Keys);
      EachExpands(env, names, properties, map[], depth, active, st);
      var r := Each(env, names, properties, map[], depth, active, st);
      if r.Go? && r.st.issues == [] {
        AllDone(properties.Keys, depth, st, r);
        PropertiesReplaced(out, r.out, properties.Keys, depth, r.st.work - st.work);
      }
    }
  }

  lemma AllDone(names: set<string>, depth: nat, st: State, r: Reply)
    requires EachDone(SortedSet(names), map[], depth, st, r) && r.Go? && r.st.issues == []
    ensures r.out.Keys == names
    ensures forall name <- names :: && r.out[name].Obj? && Expanded(r.out[name])
                                    && Within(r.out[name], MAX_DEPTH - depth - 1)
    ensures NodesOf(Obj(r.out), SortedSet(names)) <= r.st.work - st.work
  {
    hide SortedSet, Expanded, Within, Nodes, NodesOf;
    assert (set name <- SortedSet(names)) == names;
  }

  lemma NoProperties(out: Schema, depth: nat)
    requires PropertiesOf(out) == map[]
    ensures PropertiesDone(out, out, depth, 0)
  {
    assert SortedSet(PropertiesOf(out).Keys) == [];
  }

  lemma PropertiesReplaced(out: Schema, resolved: Schema, names: set<string>, depth: nat, work: int)
    requires resolved.Keys == names
    requires forall name <- names :: && resolved[name].Obj? && Expanded(resolved[name])
                                     && Within(resolved[name], MAX_DEPTH - depth - 1)
    requires NodesOf(Obj(resolved), SortedSet(names)) <= work
    ensures PropertiesDone(out, out["properties" := Obj(resolved)], depth, work)
  {
    hide SortedSet, Expanded, Within, Nodes, NodesOf;
    assert PropertiesOf(out["properties" := Obj(resolved)]) == resolved;
  }

  /** The properties named so far are in `done`; the rest of them are expanded. */
  ghost predicate EachDone(names: seq<string>, done: Schema, depth: nat, st: State, r: Reply) {
    r.Go? && r.st.issues == [] ==>
      && r.out.Keys == done.Keys + (set name <- names)
      && (forall name <- done :: r.out[name] == done[name])
      && (forall name <- names :: && r.out[name].Obj? && Expanded(r.out[name])
                                  && Within(r.out[name], MAX_DEPTH - depth - 1))
      && st.work + NodesOf(Obj(r.out), names) <= r.st.work
  }

  lemma {:induction false} EachExpands(env: Env, names: seq<string>, properties: Schema, done: Schema,
                                       depth: nat, active: set<string>, st: State)
    requires depth <= MAX_DEPTH && Accounted(st)
    requires forall name <- names :: name !in done
    requires forall i, j :: 0 <= i < j < |names| ==> names[i] != names[j]
    ensures EachDone(names, done, depth, st, Each(env, names, properties, done, depth, active, st))
    decreases Rank(depth), 3, |names|
  {
    hide Resolve, Accounted, Expanded, Within, Nodes, EachDone;
    if names == [] {
      NoneLeft(done, depth, st);
    } else {
      var schema := MapValue(Get(properties, names[0]));
      ResolveAdvances(env, schema, depth + 1, active, st);
      ResolveExpands(env, schema, depth + 1, active, st);
      var r := Resolve(env, schema, depth + 1, active, st);
      if r.Go? {
        var next := done[names[0] := Obj(r.out)];
        EachAdvances(env, names[1..], properties, next, depth, active, r.st);
        EachExpands(env, names[1..], properties, next, depth, active, r.st);
        OneDone(names, done, depth, st, r, Each(env, names[1..], properties, next, depth, active, r.st));
      } else {
        NothingDone(names, done, depth, st, r);
      }
    }
  }

  lemma NothingDone(names: seq<string>, done: Schema, depth: nat, st: State, r: Reply)
    requires r.Cancel?
    ensures EachDone(names, done, depth, st, r)
  {
  }

  lemma NoneLeft(done: Schema, depth: nat, st: State)
    ensures EachDone([], done, depth, st, Go(done, st))
  {
  }

  lemma OneDone(names: seq<string>, done: Schema, depth: nat, st: State, first: Reply, all: Reply)
    requires names != [] && names[0] !in names[1..] && names[0] !in done && first.Go? && Resolved(depth + 1, st, first)
    requires first.st.issues <= all.st.issues
    requires EachDone(names[1..], done[names[0] := Obj(first.out)], depth, first.st, all)
    ensures EachDone(names, done, depth, st, all)
  {
    hide Expanded, Within, Nodes;
    if all.Go? && all.st.issues == [] {
      assert all.out[names[0]] == Obj(first.out);
      assert (set name <- names) == {names[0]} + (set name <- names[1..]);
    }
  }

  lemma {:induction false} ItemsExpand(env: Env, out: Schema, depth: nat, active: set<string>, st: State)
    requires depth <= MAX_DEPTH && Accounted(st)
    ensures (var r := Items(env, out, depth, active, st);
             r.Go? && r.st.issues == [] ==> ItemsDone(out, r.out, depth, r.st.work - st.work))
    decreases Rank(depth), 4, 0
  {
    hide Resolve, Accounted, Expanded, Within, Nodes;
    var items := MapValue(Get(out, "items"));
    EmptyExpanded(MAX_DEPTH - depth - 1);
    if items != map[] {
      ResolveExpands(env, items, depth + 1, active, st);
    } else if "items" in out {
      ScalarExpanded(out["items"], MAX_DEPTH - depth - 1);
    }
  }

  lemma ScalarExpanded(j: Json, n: int)
    requires MapValue(j) == map[]
    ensures Expanded(j) && Within(j, n) && Nodes(j) == 0
  {
    if j.Obj? {
      EmptyExpanded(n);
    }
  }

  // ---------------------------------------------------------------- resolving again

  /** Unless it is cancelled, the run returns `s` itself, reports nothing and charges `n`. */
  ghost predicate Unchanged(s: Schema, n: int, st: State, r: Reply) {
    r.Go? ==>
      && r.out == s && r.st.issues == st.issues && r.st.work == st.work + n
      && r.st.limitReported == st.limitReported && r.st.branchReported == st.branchReported
      && r.st.depthReported == st.depthReported
  }

  lemma WithinMeans(s: Schema, levels: int)
    requires Within(Obj(s), levels) && s != map[]
    ensures levels >= 0
  {
  }

  lemma SomeNodes(s: Schema)
    requires s != map[]
    ensures Nodes(Obj(s)) >= 1
  {
  }

  lemma {:induction false} ResolveStable(env: Env, s: Schema, depth: nat, active: set<string>, st: State)
    requires Expanded(Obj(s)) && Within(Obj(s), MAX_DEPTH - depth) && st.work + Nodes(Obj(s)) <= MAX_WORK
    ensures Unchanged(s, Nodes(Obj(s)), st, Resolve(env, s, depth, active, st))
    decreases Rank(depth), 9, 0
  {
    hide Expand, Expanded, Within, Nodes;
    EmptyExpanded(0);
    if s != map[] {
      WithinMeans(s, MAX_DEPTH - depth);
      SomeNodes(s);
      var st2 := st.(polls := st.polls + 1, work := st.work + 1);
      ExpandStable(env, s, depth, active, st2.(visits := st2.visits + [depth]));
    }
  }

  lemma ExpandIsNested(env: Env, s: Schema, depth: nat, active: set<string>, st: State)
    requires depth <= MAX_DEPTH && NoLocalRef(s) && NoLists(s)
    ensures Expand(env, s, depth, active, st) == Nested(env, s, depth, active, st)
  {
    hide Nested, Branches, Resolve, LocalObjectRef, IsLocal, StringValue;
    assert NoList(s, "allOf") && NoList(s, "oneOf") && NoList(s, "anyOf");
    assert AllOf(env, s, depth, active, st) == Go(s, st);
    assert Choice(env, "oneOf", s, depth, active, st) == Go(s, st);
    assert Choice(env, "anyOf", s, depth, active, st) == Go(s, st);
    assert Dereference(env, s, depth, active, st) == Go(s, st);
    assert Compose(env, s, depth, active, st) == Nested(env, s, depth, active, st);
  }

  lemma {:induction false} ExpandStable(env: Env, s: Schema, depth: nat, active: set<string>, st: State)
    requires depth <= MAX_DEPTH && s != map[]
    requires Expanded(Obj(s)) && Within(Obj(s), MAX_DEPTH - depth) && st.work + Nodes(Obj(s)) - 1 <= MAX_WORK
    ensures Unchanged(s, Nodes(Obj(s)) - 1, st, Expand(env, s, depth, active, st))
    decreases Rank(depth), 8, 0
  {
    hide Expand, Properties, Items, NoLocalRef, NoList, SortedSet;
    ExpandIsNested(env, s, depth, active, st);
    PropertiesStable(env, s, depth, active, st);
    var p := Properties(env, s, depth, active, st);
    if p.Go? {
      ItemsStable(env, s, depth, active, p.st);
    }
  }

  ghost function PropertyNodes(s: Schema): nat {
    if "properties" in s then NodesOf(s["properties"], SortedSet(PropertiesOf(s).Keys)) else 0
  }

  lemma {:induction false} PropertiesStable(env: Env, s: Schema, depth: nat, active: set<string>, st: State)
    requires depth <= MAX_DEPTH && st.work + PropertyNodes(s) <= MAX_WORK
    requires forall name <- PropertiesOf(s) ::
               && PropertiesOf(s)[name].Obj? && Expanded(PropertiesOf(s)[name])
               && Within(PropertiesOf(s)[name], MAX_DEPTH - depth - 1)
    ensures Unchanged(s, PropertyNodes(s), st, Properties(env, s, depth, active, st))
    decreases Rank(depth), 4, 0
  {
    hide Each, SortedSet, Expanded, Within, Nodes;
    var properties := PropertiesOf(s);
    var names := SortedSet(properties.Keys);
    if properties == map[] {
      assert names == [];
    } else {
      EachStable(env, names, properties, map[], depth, active, st);
      assert map[] + Restricted(properties, names) == properties;
      assert s["properties" := Obj(properties)] == s;
    }
  }

  function Restricted(properties: Schema, names: seq<string>): Schema {
    map name | name in names && name in properties :: properties[name]
  }

  lemma NothingRestricted(properties: Schema, done: Schema)
    ensures done + Restricted(properties, []) == done
  {
  }

  lemma RestrictedStep(properties: Schema, names: seq<string>, done: Schema)
    requires names != [] && names[0] in properties
    ensures done[names[0] := properties[names[0]]] + Restricted(properties, names[1..])
         == done + Restricted(properties, names)
  {
    assert names == [names[0]] + names[1..];
  }

  lemma {:induction false} EachStable(env: Env, names: seq<string>, properties: Schema, done: Schema,
                                      depth: nat, active: set<string>, st: State)
    requires depth <= MAX_DEPTH && st.work + NodesOf(Obj(properties), names) <= MAX_WORK
    requires forall name <- names ::
               && name in properties && properties[name].Obj? && Expanded(properties[name])
               && Within(properties[name], MAX_DEPTH - depth - 1)
    ensures Unchanged(done + Restricted(properties, names), NodesOf(Obj(properties), names), st,
                      Each(env, names, properties, done, depth, active, st))
    decreases Rank(depth), 3, |names|
  {
    hide Resolve, Expanded, Within, Nodes, Restricted;
    if names == [] {
      NothingRestricted(properties, done);
    } else {
      var schema := MapValue(properties[names[0]]);
      assert Obj(schema) == properties[names[0]];
      ResolveStable(env, schema, depth + 1, active, st);
      var r := Resolve(env, schema, depth + 1, active, st);
      if r.Go? {
        var next := done[names[0] := Obj(schema)];
        EachStable(env, names[1..], properties, next, depth, active, r.st);
        RestrictedStep(properties, names, done);
      }
    }
  }

  lemma {:induction false} ItemsStable(env: Env, s: Schema, depth: nat, active: set<string>, st: State)
    requires depth <= MAX_DEPTH
    requires "items" in s ==>
               && Expanded(s["items"]) && Within(s["items"], MAX_DEPTH - depth - 1)
               && st.work + Nodes(s["items"]) <= MAX_WORK
    ensures Unchanged(s, if "items" in s then Nodes(s["items"]) else 0, st, Items(env, s, depth, active, st))
    decreases Rank(depth), 4, 0
  {
    hide Resolve, Expanded, Within, Nodes;
    var items := MapValue(Get(s, "items"));
    if items != map[] {
      ResolveStable(env, items, depth + 1, active, st);
      assert s["items" := Obj(items)] == s;
    } else if "items" in s {
      ScalarExpanded(s["items"], MAX_DEPTH - depth - 1);
    }
  }

  /** A run that reports no issue returns a fully expanded schema; resolving that schema
      again, against any document, returns it unchanged and reports nothing. */
  lemma NoIssueMeansExpanded(env: Env, schema: Schema, again: Env)
    requires (var r := Resolve(env, schema, 0, {}, Start); r.Go? && r.st.issues == [])
    ensures (var out := Resolve(env, schema, 0, {}, Start).out;
             var r := Resolve(again, out, 0, {}, Start);
             && Expanded(Obj(out))
             && (r.Go? ==> r.out == out && r.st.issues == []))
  {
    hide Resolve, Expanded, Within, Nodes;
    var r := Resolve(env, schema, 0, {}, Start);
    ResolveAdvances(env, schema, 0, {}, Start);
    ResolveExpands(env, schema, 0, {}, Start);
    ResolveStable(again, r.out, 0, {}, Start);
  }
}
