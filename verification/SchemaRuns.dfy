/** Every run of the resolver returns what the schema stands for, or reports why not. */
module SchemaRuns {
  import opened Json
  import opened Ordering
  import opened SchemaMeaning
  import opened SchemaMerging
  import opened SchemaProofs
  import opened SchemaSpec
  import opened Wrappers

  // ---------------------------------------------------------------- the run

  /** No issue but that a branch must be selected. */
  ghost predicate Quiet(st: State) {
    forall issue <- st.issues :: issue.BranchSelection?
  }

  /** The run was not cancelled and charged no more work than allowed. */
  predicate Whole(r: Reply) {
    r.Go? && r.st.work <= MAX_WORK
  }

  lemma QuietBefore(a: State, b: State)
    requires After(a, b) && Quiet(b)
    ensures Quiet(a)
  {
    hide Accounted;
  }

  lemma NotQuiet(st: State, issue: Issue)
    requires issue in st.issues && !issue.BranchSelection?
    ensures !Quiet(st)
  {
  }

  // ---------------------------------------------------------------- an expanded schema stays

  ghost predicate Kept(s: Schema, st: State, r: Reply) {
    Whole(r) ==> r.out == s && r.st.issues == st.issues && r.st.branchReported == st.branchReported
  }

  lemma {:induction false} ResolveKeeps(env: Env, s: Schema, depth: nat, active: set<string>, st: State)
    requires Good(Obj(s), MAX_DEPTH - depth)
    ensures Kept(s, st, Resolve(env, s, depth, active, st))
    decreases Rank(depth), 9, 0
  {
    hide Expand, Expanded, Within, Properties, Items, NoLocalRef, NoList;
    if s != map[] {
      WithinMeans(s, MAX_DEPTH - depth);
      var st2 := st.(polls := st.polls + 1, work := st.work + 1);
      var st3 := st2.(visits := st2.visits + [depth]);
      GoodUnfolds(s, MAX_DEPTH - depth);
      ExpandIsNested(env, s, depth, active, st3);
      PropertiesKeep(env, s, depth, active, st3);
      var p := Properties(env, s, depth, active, st3);
      if p.Go? {
        ItemsKeep(env, s, depth, active, p.st);
        ItemsAdvance(env, p.out, depth, active, p.st);
      }
    }
  }

  lemma {:induction false} PropertiesKeep(env: Env, s: Schema, depth: nat, active: set<string>, st: State)
    requires depth <= MAX_DEPTH
    requires forall name <- PropertiesOf(s) ::
               PropertiesOf(s)[name].Obj? && Good(PropertiesOf(s)[name], MAX_DEPTH - depth - 1)
    ensures Kept(s, st, Properties(env, s, depth, active, st))
    decreases Rank(depth), 4, 0
  {
    hide Each, SortedSet, Good;
    var properties := PropertiesOf(s);
    var names := SortedSet(properties.Keys);
    if properties != map[] {
      EachKeeps(env, names, properties, map[], depth, active, st);
      assert map[] + Restricted(properties, names) == properties;
      assert s["properties" := Obj(properties)] == s;
    }
  }

  lemma {:induction false} EachKeeps(env: Env, names: seq<string>, properties: Schema, done: Schema,
                                     depth: nat, active: set<string>, st: State)
    requires depth <= MAX_DEPTH
    requires forall name <- names ::
               name in properties && properties[name].Obj? && Good(properties[name], MAX_DEPTH - depth - 1)
    ensures Kept(done + Restricted(properties, names), st, Each(env, names, properties, done, depth, active, st))
    decreases Rank(depth), 3, |names|
  {
    hide Resolve, Good, Restricted, Accounted;
    if names == [] {
      NothingRestricted(properties, done);
    } else {
      var schema := MapValue(properties[names[0]]);
      assert Obj(schema) == properties[names[0]];
      ResolveKeeps(env, schema, depth + 1, active, st);
      var r := Resolve(env, schema, depth + 1, active, st);
      if r.Go? {
        EachKeeps(env, names[1..], properties, done[names[0] := Obj(schema)], depth, active, r.st);
        EachAdvances(env, names[1..], properties, done[names[0] := Obj(r.out)], depth, active, r.st);
        RestrictedStep(properties, names, done);
      }
    }
  }

  lemma {:induction false} ItemsKeep(env: Env, s: Schema, depth: nat, active: set<string>, st: State)
    requires depth <= MAX_DEPTH
    requires "items" in s ==> Good(s["items"], MAX_DEPTH - depth - 1)
    ensures Kept(s, st, Items(env, s, depth, active, st))
    decreases Rank(depth), 4, 0
  {
    hide Resolve, Good;
    var items := MapValue(Get(s, "items"));
    if items != map[] {
      ResolveKeeps(env, items, depth + 1, active, st);
      assert s["items" := Obj(items)] == s;
    }
  }

  // ---------------------------------------------------------------- what a run returns

  /** Unless it was cut short, the run reports no more than branch selections exactly when
      everything fits, and then `r` holds what `s` stands for. */
  ghost predicate Told(root: Schema, s: Schema, active: set<string>, n: nat, st: State, r: Reply) {
    Whole(r) ==>
      && (Quiet(r.st) <==> Fits(root, s, active, n))
      && (Quiet(r.st) ==>
            && Says(root, s, r.out, n)
            && (r.st.branchReported <==> st.branchReported || Chooses(root, s, n)))
  }

  lemma {:induction false} ResolveTells(env: Env, s: Schema, depth: nat, active: set<string>, st: State)
    requires Accounted(st) && Quiet(st)
    ensures Told(env.root, s, active, Rank(depth), st, Resolve(env, s, depth, active, st))
    decreases Rank(depth), 9, 0
  {
    hide Expand, Accounted, RefFits, RestFits, RefChooses, RestChooses, Explained;
    var st1 := st.(polls := st.polls + 1);
    var st2 := st1.(work := st1.work + 1);
    WorkCounts(st, depth);
    if !Expired(env, st.polls) && s != map[] {
      if depth > MAX_DEPTH {
        TooDeep(st1);
      } else if st2.work <= MAX_WORK {
        var st3 := st2.(visits := st2.visits + [depth]);
        ExpandTells(env, s, depth, active, st3);
      }
    }
  }

  lemma TooDeep(st: State)
    requires Accounted(st)
    ensures !Quiet(NoteDepth(st))
  {
    assert DepthExceeded in multiset(NoteDepth(st).issues);
    NotQuiet(NoteDepth(st), DepthExceeded);
  }

  lemma {:induction false} ExpandTells(env: Env, s: Schema, depth: nat, active: set<string>, st: State)
    requires depth <= MAX_DEPTH && s != map[] && Accounted(st) && Quiet(st)
    ensures Told(env.root, s, active, Rank(depth), st, Expand(env, s, depth, active, st))
    decreases Rank(depth), 8, 0
  {
    hide Dereference, Compose, Accounted, RefSays, RestFits, RestChooses, Explained, Quiet, LocalObjectRef, IsLocal,
         StringValue, Joined;
    var ref := RefOf(s);
    if IsLocal(ref) && ref in active {
      CycleTold(env.root, s, active, MAX_DEPTH - depth, st);
    } else {
      var r := Dereference(env, s, depth, active, st);
      var base := DereferenceTells(env, s, depth, active, st);
      DereferenceAdvances(env, s, depth, active, st);
      if r.Go? {
        ComposeAdvances(env, r.out, depth, active, r.st);
        var c := Compose(env, r.out, depth, active, r.st);
        assert Expand(env, s, depth, active, st) == c;
        if Quiet(r.st) && r.st.work <= MAX_WORK {
          ComposeTells(env, s, base, r.out, depth, active, r.st);
        } else if Quiet(c.st) {
          QuietBefore(r.st, c.st);
        }
      }
    }
  }

  lemma CycleTold(root: Schema, s: Schema, active: set<string>, n: nat, st: State)
    requires s != map[] && HasRef(s) && RefOf(s) in active
    ensures Told(root, s, active, n + 1, st, Go(s, Note(st, RefCycle(RefOf(s)))))
  {
    hide RestFits, Says, IsLocal, StringValue, Target;
    NotQuiet(Note(st, RefCycle(RefOf(s))), RefCycle(RefOf(s)));
    assert !RefFits(root, s, active, n);
  }

  lemma {:induction false} DereferenceTells(env: Env, s: Schema, depth: nat, active: set<string>, st: State)
    returns (base: Schema)
    requires depth <= MAX_DEPTH && Accounted(st) && Quiet(st) && !(HasRef(s) && RefOf(s) in active)
    ensures (var r := Dereference(env, s, depth, active, st);
             var n := MAX_DEPTH - depth;
             Whole(r) ==>
               && (Quiet(r.st) <==> RefFits(env.root, s, active, n))
               && (Quiet(r.st) ==>
                     && RefSays(env.root, s, base, n) && Joined(s, base, r.out)
                     && (r.st.branchReported <==> st.branchReported || RefChooses(env.root, s, n))))
    decreases Rank(depth), 7, 0
  {
    hide Resolve, Accounted, Quiet, Says, Fits, Chooses, LocalObjectRef, IsLocal, StringValue;
    var ref := RefOf(s);
    base := map[];
    if HasRef(s) {
      var target := Target(env.root, s);
      if target == map[] {
        NotQuiet(Note(st, RefUnresolved(ref)), RefUnresolved(ref));
      } else {
        ResolveTells(env, target, depth + 1, active + {ref}, st);
        var r := Resolve(env, target, depth + 1, active + {ref}, st);
        if r.Go? {
          base := r.out;
          assert Joined(s, base, MergeRef(base, s));
        }
      }
    } else {
      assert Joined(s, base, s);
    }
  }

  /** What a list of branches leaves behind. */
  ghost predicate ListTold(root: Schema, items: seq<Json>, outs: seq<Schema>, includeRequired: bool,
                           from: Schema, active: set<string>, n: nat, st: State, r: Reply) {
    Whole(r) ==>
      && (Quiet(r.st) <==> ListFits(root, items, active, n))
      && (Quiet(r.st) ==>
            && ListSays(root, items, outs, n) && Merged(from, outs, includeRequired, r.out)
            && (r.st.branchReported <==> st.branchReported || ListChooses(root, items, n)))
  }

  lemma {:induction false} BranchesTell(env: Env, out: Schema, branches: seq<Json>, includeRequired: bool,
                                        depth: nat, active: set<string>, st: State)
    returns (outs: seq<Schema>)
    requires depth <= MAX_DEPTH && Accounted(st) && Quiet(st)
    ensures ListTold(env.root, branches, outs, includeRequired, out, active, MAX_DEPTH - depth, st,
                     Branches(env, out, branches, includeRequired, depth, active, st))
    decreases Rank(depth), 4, |branches|
  {
    hide Resolve, Accounted, MergeSchema, Quiet, Told, ListTold;
    outs := [];
    var all := Branches(env, out, branches, includeRequired, depth, active, st);
    var n := MAX_DEPTH - depth;
    if branches == [] {
      NoBranches(env.root, includeRequired, out, active, n, st);
    } else {
      var schema := MapValue(branches[0]);
      ResolveTells(env, schema, depth + 1, active, st);
      ResolveAdvances(env, schema, depth + 1, active, st);
      var r := Resolve(env, schema, depth + 1, active, st);
      if r.Go? {
        var next := MergeSchema(out, r.out, includeRequired);
        BranchesAdvance(env, next, branches[1..], includeRequired, depth, active, r.st);
        if Quiet(r.st) {
          var rest := BranchesTell(env, next, branches[1..], includeRequired, depth, active, r.st);
          outs := [r.out] + rest;
          OneMore(env.root, branches, r, rest, includeRequired, out, active, n, st, all);
        } else {
          NoMore(env.root, branches, r, includeRequired, out, active, n, st, all);
        }
      } else {
        CutShort(env.root, branches, includeRequired, out, active, n, st, all);
      }
    }
  }

  lemma NoBranches(root: Schema, includeRequired: bool, from: Schema, active: set<string>, n: nat, st: State)
    requires Quiet(st)
    ensures ListTold(root, [], [], includeRequired, from, active, n, st, Go(from, st))
  {
    hide Merged, Quiet;
    NothingMerged(from, includeRequired);
  }

  lemma CutShort(root: Schema, items: seq<Json>, includeRequired: bool, from: Schema, active: set<string>, n: nat,
                 st: State, r: Reply)
    requires !Whole(r)
    ensures ListTold(root, items, [], includeRequired, from, active, n, st, r)
  {
  }

  lemma OneMore(root: Schema, items: seq<Json>, first: Reply, rest: seq<Schema>, includeRequired: bool, from: Schema,
                active: set<string>, n: nat, st: State, all: Reply)
    requires items != [] && first.Go? && Quiet(first.st) && Told(root, MapValue(items[0]), active, n, st, first)
    requires first.st.work <= all.st.work
    requires ListTold(root, items[1..], rest, includeRequired, MergeSchema(from, first.out, includeRequired), active, n,
                      first.st, all)
    ensures ListTold(root, items, [first.out] + rest, includeRequired, from, active, n, st, all)
  {
    hide Says, Fits, Chooses, Merged, MergeSchema, Quiet;
    assert forall item :: item in items <==> item == items[0] || item in items[1..];
    if Whole(all) && Quiet(all.st) {
      MergeSchemaMerges(from, first.out, includeRequired);
      MergedTwice(from, [first.out], MergeSchema(from, first.out, includeRequired), rest, includeRequired, all.out);
      forall i | 0 <= i < |items| ensures Says(root, MapValue(items[i]), ([first.out] + rest)[i], n) {
        if i > 0 {
          assert items[i] == items[1..][i - 1];
        }
      }
    }
  }

  lemma NoMore(root: Schema, items: seq<Json>, first: Reply, includeRequired: bool, from: Schema,
               active: set<string>, n: nat, st: State, all: Reply)
    requires items != [] && first.Go? && !Quiet(first.st) && Told(root, MapValue(items[0]), active, n, st, first)
    requires After(first.st, all.st)
    ensures ListTold(root, items, [], includeRequired, from, active, n, st, all)
  {
    hide Says, Fits, Chooses, Merged, Quiet, Accounted;
    if Quiet(all.st) {
      QuietBefore(first.st, all.st);
    }
    assert items[0] in items;
  }

  // ---------------------------------------------------------------- the three lists

  lemma {:induction false} AllOfTells(env: Env, s: Schema, out: Schema, depth: nat, active: set<string>, st: State)
    returns (outs: seq<Schema>)
    requires depth <= MAX_DEPTH && Accounted(st) && Quiet(st) && ListOf(out, "allOf") == ListOf(s, "allOf")
    ensures ListTold(env.root, ListOf(s, "allOf"), outs, true, Dropped(out, "allOf"), active, MAX_DEPTH - depth, st,
                     AllOf(env, out, depth, active, st))
    decreases Rank(depth), 5, 0
  {
    hide Branches, Accounted, Quiet, ListTold;
    outs := BranchesTell(env, Dropped(out, "allOf"), ListOf(out, "allOf"), true, depth, active, st);
    BranchesOfNone(env, out, true, depth, active, st);
  }

  lemma BranchesOfNone(env: Env, out: Schema, includeRequired: bool, depth: nat, active: set<string>, st: State)
    requires depth <= MAX_DEPTH
    ensures Branches(env, out, [], includeRequired, depth, active, st) == Go(out, st)
  {
  }

  /** What the branches of a `oneOf` or `anyOf` list leave behind. */
  ghost predicate ChoiceTold(root: Schema, items: seq<Json>, outs: seq<Schema>, from: Schema, active: set<string>,
                             n: nat, st: State, r: Reply) {
    Whole(r) ==>
      && (Quiet(r.st) <==> ListFits(root, items, active, n))
      && (Quiet(r.st) ==>
            && ListSays(root, items, outs, n) && Merged(from, outs, false, r.out)
            && (r.st.branchReported <==> st.branchReported || items != []))
  }

  lemma {:induction false} ChoiceTells(env: Env, keyword: string, s: Schema, out: Schema, depth: nat,
                                       active: set<string>, st: State)
    returns (outs: seq<Schema>)
    requires depth <= MAX_DEPTH && Accounted(st) && Quiet(st) && ListOf(out, keyword) == ListOf(s, keyword)
    ensures ChoiceTold(env.root, ListOf(s, keyword), outs, Dropped(out, keyword), active, MAX_DEPTH - depth, st,
                       Choice(env, keyword, out, depth, active, st))
    decreases Rank(depth), 5, 0
  {
    hide Branches, Accounted, ListFits, ListSays, Merged, ListChooses, ListTold;
    var branches := ListOf(out, keyword);
    var noted := if branches == [] then st else NoteBranch(st, keyword);
    NotesCount(st, RefCycle(""), keyword);
    outs := BranchesTell(env, Dropped(out, keyword), branches, false, depth, active, noted);
    BranchesOfNone(env, out, false, depth, active, st);
    BranchesAdvance(env, Dropped(out, keyword), branches, false, depth, active, noted);
    ChoiceFromList(env.root, branches, outs, Dropped(out, keyword), active, MAX_DEPTH - depth, st, noted,
                   Choice(env, keyword, out, depth, active, st));
  }

  lemma ChoiceFromList(root: Schema, items: seq<Json>, outs: seq<Schema>, from: Schema, active: set<string>, n: nat,
                       st: State, noted: State, r: Reply)
    requires ListTold(root, items, outs, false, from, active, n, noted, r)
    requires noted.branchReported <==> st.branchReported || items != []
    ensures ChoiceTold(root, items, outs, from, active, n, st, r)
  {
    hide ListFits, ListSays, Merged, Quiet;
  }

  /** What the rest of a resolution, after the reference, leaves behind. */
  ghost predicate RestTold(root: Schema, s: Schema, active: set<string>, n: nat, st: State, r: Reply) {
    Whole(r) ==>
      && (Quiet(r.st) <==> RestFits(root, s, active, n))
      && (Quiet(r.st) ==>
            && Explained(root, s, r.out, n)
            && (r.st.branchReported <==> st.branchReported || RestChooses(root, s, n)))
  }

  lemma ComposeChain(env: Env, out: Schema, depth: nat, active: set<string>, st: State)
    requires depth <= MAX_DEPTH && Accounted(st)
    ensures (var a := AllOf(env, out, depth, active, st);
             && Accounted(a.st)
             && (a.Go? ==>
                   ChoicesChain(env, a.out, depth, active, a.st, Compose(env, out, depth, active, st))))
  {
    hide AllOf, Choice, Nested, Accounted;
    AllOfAdvances(env, out, depth, active, st);
    var a := AllOf(env, out, depth, active, st);
    if a.Go? {
      ChoiceAdvances(env, "oneOf", a.out, depth, active, a.st);
      var b := Choice(env, "oneOf", a.out, depth, active, a.st);
      if b.Go? {
        ChoiceAdvances(env, "anyOf", b.out, depth, active, b.st);
        var c := Choice(env, "anyOf", b.out, depth, active, b.st);
        if c.Go? {
          NestedAdvances(env, c.out, depth, active, c.st);
        }
      }
    }
  }

  ghost predicate ChoicesChain(env: Env, out: Schema, depth: nat, active: set<string>, st: State, r: Reply)
    requires depth <= MAX_DEPTH
  {
    var b := Choice(env, "oneOf", out, depth, active, st);
    && After(st, r.st) && Accounted(b.st)
    && if b.Cancel? then r == b
       else
         var c := Choice(env, "anyOf", b.out, depth, active, b.st);
         && After(b.st, r.st) && Accounted(c.st)
         && if c.Cancel? then r == c else After(c.st, r.st) && r == Nested(env, c.out, depth, active, c.st)
  }

  /** A part that made the run report something, or did not fit, decides. */
  lemma Decided(root: Schema, s: Schema, active: set<string>, n: nat, st: State, mid: Reply, r: Reply)
    requires mid.Go? ==> After(mid.st, r.st)
    requires mid.Cancel? ==> r == mid
    requires mid.Go? && mid.st.work <= MAX_WORK ==> !Quiet(mid.st) && !RestFits(root, s, active, n)
    ensures RestTold(root, s, active, n, st, r)
  {
    hide Quiet, RestFits, RestChooses, Explained, Accounted;
    if mid.Go? && Quiet(r.st) {
      QuietBefore(mid.st, r.st);
    }
  }

  lemma {:induction false} ComposeTells(env: Env, s: Schema, base: Schema, out: Schema, depth: nat,
                                        active: set<string>, st: State)
    requires depth <= MAX_DEPTH && Accounted(st) && Quiet(st)
    requires RefSays(env.root, s, base, MAX_DEPTH - depth) && Joined(s, base, out)
    ensures RestTold(env.root, s, active, MAX_DEPTH - depth, st, Compose(env, out, depth, active, st))
    decreases Rank(depth), 6, 0
  {
    hide AllOf, Choice, Nested, Accounted, Quiet, RefSays, Joined, ListFits, ListSays, PropertiesFit, Fits, Merged,
         ListChooses, PropertiesChoose, Chooses, RestTold, AllGood, Good, Dropped, NoLists, RestFits;
    var root, n := env.root, MAX_DEPTH - depth;
    var r := Compose(env, out, depth, active, st);
    ComposeChain(env, out, depth, active, st);
    BaseGood(root, s, base, n);
    JoinedLists(s, base, out, "allOf");
    JoinedLists(s, base, out, "oneOf");
    JoinedLists(s, base, out, "anyOf");
    var a := AllOf(env, out, depth, active, st);
    var alls := AllOfTells(env, s, out, depth, active, st);
    RestFitsOnlyIf(root, s, active, n);
    if !(Whole(a) && Quiet(a.st)) {
      Decided(root, s, active, n, st, a, r);
      return;
    }
    ListGood(root, ListOf(s, "allOf"), alls, n);
    AfterAllOf(out, alls, a.out, n - 1);
    var b := Choice(env, "oneOf", a.out, depth, active, a.st);
    var ones := ChoiceTells(env, "oneOf", s, a.out, depth, active, a.st);
    if !(Whole(b) && Quiet(b.st)) {
      Decided(root, s, active, n, st, b, r);
      return;
    }
    ListGood(root, ListOf(s, "oneOf"), ones, n);
    AfterOneOf(a.out, ones, b.out, n - 1);
    var c := Choice(env, "anyOf", b.out, depth, active, b.st);
    var anys := ChoiceTells(env, "anyOf", s, b.out, depth, active, b.st);
    if !(Whole(c) && Quiet(c.st)) {
      Decided(root, s, active, n, st, c, r);
      return;
    }
    ListGood(root, ListOf(s, "anyOf"), anys, n);
    var p := Parts(base, alls, ones, anys);
    ChainedCombines(s, p, out, a.out, b.out, c.out, n - 1);
    NestedTells(env, s, p, c.out, depth, active, c.st);
    Finished(root, s, p, active, n, st, c.st, r);
  }

  lemma RestFitsOnlyIf(root: Schema, s: Schema, active: set<string>, n: nat)
    ensures RestFits(root, s, active, n) ==>
              && ListFits(root, ListOf(s, "allOf"), active, n)
              && ListFits(root, ListOf(s, "oneOf"), active, n)
              && ListFits(root, ListOf(s, "anyOf"), active, n)
  {
    hide ListFits, PropertiesFit, Fits;
  }

  lemma BaseGood(root: Schema, s: Schema, base: Schema, n: nat)
    requires RefSays(root, s, base, n)
    ensures Good(Obj(base), n - 1) && NoLists(base)
  {
    hide Good, Says, NoLists;
    EmptyGood(n - 1);
    if HasRef(s) {
      SaysGood(root, Target(root, s), base, n);
    }
    GoodParts(base, n - 1);
  }

  lemma Finished(root: Schema, s: Schema, p: Parts, active: set<string>, n: nat, st: State, mid: State, r: Reply)
    requires PartsSay(root, s, p, n) && NestTold(root, s, p, active, n, mid, r)
    requires ListFits(root, ListOf(s, "allOf"), active, n) && ListFits(root, ListOf(s, "oneOf"), active, n)
    requires ListFits(root, ListOf(s, "anyOf"), active, n)
    requires mid.branchReported <==> || st.branchReported || ListChooses(root, ListOf(s, "allOf"), n)
                                     || ListOf(s, "oneOf") != [] || ListOf(s, "anyOf") != []
    ensures RestTold(root, s, active, n, st, r)
  {
    hide PartsSay, Holds, ListFits, ListOf, PropertiesFit, Fits, ListChooses, PropertiesChoose, Chooses, Quiet;
  }

  // ---------------------------------------------------------------- properties and items

  /** What resolving the properties and the items leaves behind. */
  ghost predicate NestTold(root: Schema, s: Schema, p: Parts, active: set<string>, n: nat, st: State, r: Reply) {
    Whole(r) ==>
      && (Quiet(r.st) <==> PropertiesFit(root, s, active, n) && Fits(root, MapValue(Get(s, "items")), active, n))
      && (Quiet(r.st) ==>
            && Holds(root, s, p, r.out, n)
            && (r.st.branchReported <==>
                  || st.branchReported || PropertiesChoose(root, s, n)
                  || Chooses(root, MapValue(Get(s, "items")), n)))
  }

  predicate SameKey(a: Schema, b: Schema, but: string, key: string) {
    key != but ==> At(a, key) == At(b, key)
  }

  ghost predicate SameBut(a: Schema, b: Schema, but: string) {
    forall key :: SameKey(a, b, but, key)
  }

  ghost predicate PropertiesTold(root: Schema, s: Schema, p: Parts, c: Schema, active: set<string>, n: nat,
                                 st: State, r: Reply) {
    Whole(r) ==>
      && (Quiet(r.st) <==> PropertiesFit(root, s, active, n))
      && (Quiet(r.st) ==>
            && (forall name :: HoldsProperty(root, s, p, r.out, name, n))
            && SameBut(c, r.out, "properties")
            && (r.st.branchReported <==> st.branchReported || PropertiesChoose(root, s, n)))
  }

  ghost predicate ItemsTold(root: Schema, s: Schema, p: Parts, c: Schema, active: set<string>, n: nat,
                            st: State, r: Reply) {
    Whole(r) ==>
      && (Quiet(r.st) <==> Fits(root, MapValue(Get(s, "items")), active, n))
      && (Quiet(r.st) ==>
            && HoldsItems(root, s, p, r.out, n)
            && SameBut(c, r.out, "items")
            && (r.st.branchReported <==> st.branchReported || Chooses(root, MapValue(Get(s, "items")), n)))
  }

  lemma {:induction false} NestedTells(env: Env, s: Schema, p: Parts, c: Schema, depth: nat,
                                       active: set<string>, st: State)
    requires depth <= MAX_DEPTH && Accounted(st) && Quiet(st)
    requires PartsSay(env.root, s, p, MAX_DEPTH - depth) && Combined(s, p, c)
    ensures NestTold(env.root, s, p, active, MAX_DEPTH - depth, st, Nested(env, c, depth, active, st))
    decreases Rank(depth), 5, 0
  {
    hide Properties, Items, Accounted, Quiet, PartsSay, Combined, PropertiesTold, ItemsTold, NestTold, Get;
    var root, n := env.root, MAX_DEPTH - depth;
    PropertiesTell(env, s, p, c, depth, active, st);
    PropertiesAdvance(env, c, depth, active, st);
    var a := Properties(env, c, depth, active, st);
    var r := Nested(env, c, depth, active, st);
    if a.Go? {
      ItemsAdvance(env, a.out, depth, active, a.st);
      if Whole(a) && Quiet(a.st) {
        var items := At(a.out, "items");
        PropertiesLeaveItems(root, s, p, c, active, n, st, a);
        ItemsTell(env, s, p, c, a.out, depth, active, a.st);
        NestedHolds(root, s, p, c, active, n, st, a, r);
      } else {
        PropertiesDecide(root, s, p, c, active, n, st, a, r);
      }
    } else {
      NothingNested(root, s, p, active, n, st, r);
    }
  }

  lemma NothingNested(root: Schema, s: Schema, p: Parts, active: set<string>, n: nat, st: State, r: Reply)
    requires !Whole(r)
    ensures NestTold(root, s, p, active, n, st, r)
  {
  }

  lemma PropertiesLeaveItems(root: Schema, s: Schema, p: Parts, c: Schema, active: set<string>, n: nat, st: State,
                             a: Reply)
    requires PropertiesTold(root, s, p, c, active, n, st, a) && Whole(a) && Quiet(a.st)
    ensures At(a.out, "items") == At(c, "items")
  {
    hide HoldsProperty, PropertiesFit, PropertiesChoose, Quiet;
    assert SameKey(c, a.out, "properties", "items");
  }

  lemma PropertiesDecide(root: Schema, s: Schema, p: Parts, c: Schema, active: set<string>, n: nat, st: State,
                         a: Reply, r: Reply)
    requires PropertiesTold(root, s, p, c, active, n, st, a) && a.Go? && !(Whole(a) && Quiet(a.st))
    requires After(a.st, r.st)
    ensures NestTold(root, s, p, active, n, st, r)
  {
    hide HoldsProperty, PropertiesFit, PropertiesChoose, Quiet, Accounted, Holds, Fits, Chooses;
    if Quiet(r.st) {
      QuietBefore(a.st, r.st);
    }
  }

  lemma NestedHolds(root: Schema, s: Schema, p: Parts, c: Schema, active: set<string>, n: nat, st: State,
                    a: Reply, r: Reply)
    requires Combined(s, p, c)
    requires PropertiesTold(root, s, p, c, active, n, st, a) && Whole(a) && Quiet(a.st)
    requires ItemsTold(root, s, p, a.out, active, n, a.st, r)
    ensures NestTold(root, s, p, active, n, st, r)
  {
    hide HoldsProperty, HoldsItems, PropertiesFit, PropertiesChoose, Quiet, Fits, Chooses, HoldsRequired, HoldsKeyword,
         Combined;
    if Whole(r) && Quiet(r.st) {
      forall name ensures HoldsProperty(root, s, p, r.out, name, n) {
        PropertyStays(root, s, p, a.out, r.out, name, n);
      }
      CombinedStays(s, p, c, a.out, r.out);
      assert Holds(root, s, p, r.out, n);
    }
  }

  lemma PropertyStays(root: Schema, s: Schema, p: Parts, a: Schema, out: Schema, name: string, n: nat)
    requires HoldsProperty(root, s, p, a, name, n) && SameBut(a, out, "items")
    ensures HoldsProperty(root, s, p, out, name, n)
  {
    hide ResolvedTo, Last;
    assert SameKey(a, out, "items", "properties");
  }

  lemma CombinedStays(s: Schema, p: Parts, c: Schema, a: Schema, out: Schema)
    requires Combined(s, p, c) && SameBut(c, a, "properties") && SameBut(a, out, "items")
    ensures (forall x :: HoldsRequired(s, p, out, x)) && (forall key :: HoldsKeyword(s, p, out, key)) && NoLists(out)
  {
    hide Names, First, Own;
    forall key | key != "properties" && key != "items" ensures At(out, key) == At(c, key) {
      assert SameKey(c, a, "properties", key) && SameKey(a, out, "items", key);
    }
    assert At(out, "required") == At(c, "required");
    forall x ensures HoldsRequired(s, p, out, x) {
      assert HoldsRequired(s, p, c, x);
    }
    forall key ensures HoldsKeyword(s, p, out, key) {
      assert CombinedKey(s, p, c, key);
    }
    assert At(out, "allOf") == At(c, "allOf") && At(out, "oneOf") == At(c, "oneOf");
    assert At(out, "anyOf") == At(c, "anyOf");
  }

  lemma {:induction false} ItemsTell(env: Env, s: Schema, p: Parts, c: Schema, from: Schema, depth: nat,
                                     active: set<string>, st: State)
    requires depth <= MAX_DEPTH && Accounted(st) && Quiet(st)
    requires PartsSay(env.root, s, p, MAX_DEPTH - depth) && Combined(s, p, c) && At(from, "items") == At(c, "items")
    ensures ItemsTold(env.root, s, p, from, active, MAX_DEPTH - depth, st, Items(env, from, depth, active, st))
    decreases Rank(depth), 4, 0
  {
    hide Resolve, Accounted, Quiet, PartsSay, Combined, Says, Fits, Chooses, Good, AllGood, First, ItemsTold, Told,
         Kept;
    var root, n := env.root, MAX_DEPTH - depth;
    var items := MapValue(Get(from, "items"));
    ItemsFrom(s, p, c);
    PartsGood(root, s, p, n);
    AllGoodGive([p.base] + p.Branches(), "", n - 1);
    if items == map[] {
      NoItems(root, s, p, from, active, n, st);
    } else {
      var r := Resolve(env, items, depth + 1, active, st);
      ResolveTells(env, items, depth + 1, active, st);
      if "items" !in s {
        assert Obj(items) == from["items"];
        ResolveKeeps(env, items, depth + 1, active, st);
      }
      ItemsResolved(root, s, p, from, active, n, st, r, Items(env, from, depth, active, st));
    }
  }

  lemma NoItems(root: Schema, s: Schema, p: Parts, from: Schema, active: set<string>, n: nat, st: State)
    requires Quiet(st) && MapValue(Get(from, "items")) == map[]
    requires At(from, "items") == if "items" in s then Some(s["items"]) else First([p.base] + p.Branches(), "items")
    ensures ItemsTold(root, s, p, from, active, n, st, Go(from, st))
  {
    hide Quiet, First, Fits, Chooses, ResolvedTo;
    NothingFits(root, active, n);
  }

  lemma ItemsResolved(root: Schema, s: Schema, p: Parts, from: Schema, active: set<string>, n: nat, st: State,
                      first: Reply, r: Reply)
    requires Quiet(st) && MapValue(Get(from, "items")) != map[]
    requires At(from, "items") == if "items" in s then Some(s["items"]) else First([p.base] + p.Branches(), "items")
    requires Told(root, MapValue(from["items"]), active, n, st, first)
    requires "items" !in s ==> Kept(MapValue(from["items"]), st, first)
    requires if first.Cancel? then r == first else r == Go(from["items" := Obj(first.out)], first.st)
    ensures ItemsTold(root, s, p, from, active, n, st, r)
  {
    hide First, Fits, Chooses, Says;
    NothingFits(root, active, n);
    assert from["items"] == Obj(MapValue(from["items"]));
    if Whole(r) {
      assert Quiet(r.st) <==> Fits(root, MapValue(Get(s, "items")), active, n);
      assert SameBut(from, r.out, "items");
      assert Quiet(r.st) ==> HoldsItems(root, s, p, r.out, n);
    }
  }

  lemma ItemsFrom(s: Schema, p: Parts, c: Schema)
    requires Combined(s, p, c)
    ensures At(c, "items") == if "items" in s then Some(s["items"]) else First([p.base] + p.Branches(), "items")
  {
    hide CombinedProperty, HoldsRequired, First;
    assert CombinedKey(s, p, c, "items");
  }

  lemma NothingFits(root: Schema, active: set<string>, n: nat)
    ensures Fits(root, map[], active, n) && !Chooses(root, map[], n) && Says(root, map[], map[], n)
  {
  }

  /** The names whose property comes from the target or a branch, and is resolved already. */
  predicate FromPart(s: Schema, p: Parts, name: string) {
    Last(p.Branches(), name).Some? || "properties" !in s
  }

  /** What resolving `names` one after another leaves behind. */
  ghost predicate EachTold(root: Schema, s: Schema, p: Parts, names: seq<string>, properties: Schema, done: Schema,
                           active: set<string>, n: nat, st: State, r: Reply)
    requires forall name <- names :: name in properties
  {
    Whole(r) ==>
      && (Quiet(r.st) <==> forall name <- names :: NameFits(root, s, p, properties, name, active, n))
      && (Quiet(r.st) ==>
            && r.out.Keys == done.Keys + (set name <- names)
            && (forall name <- done :: r.out[name] == done[name])
            && (forall name <- names :: NameHolds(root, s, p, properties[name], r.out[name], name, n))
            && (r.st.branchReported <==>
                  st.branchReported || exists name <- names :: NameChooses(root, s, p, properties, name, n)))
  }

  ghost predicate NameFits(root: Schema, s: Schema, p: Parts, properties: Schema, name: string, active: set<string>,
                           n: nat)
    requires name in properties
  {
    FromPart(s, p, name) || Fits(root, MapValue(properties[name]), active, n)
  }

  ghost predicate NameChooses(root: Schema, s: Schema, p: Parts, properties: Schema, name: string, n: nat)
    requires name in properties
  {
    !FromPart(s, p, name) && Chooses(root, MapValue(properties[name]), n)
  }

  ghost predicate NameHolds(root: Schema, s: Schema, p: Parts, j: Json, k: Json, name: string, n: nat) {
    if FromPart(s, p, name) then k == j else ResolvedTo(root, j, k, n)
  }

  lemma {:induction false} EachTells(env: Env, s: Schema, p: Parts, names: seq<string>, properties: Schema,
                                     done: Schema, depth: nat, active: set<string>, st: State)
    requires depth <= MAX_DEPTH && Accounted(st) && Quiet(st)
    requires forall name <- names ::
               && name in properties && name !in done
               && (FromPart(s, p, name) ==> properties[name].Obj? && Good(properties[name], MAX_DEPTH - depth - 1))
    requires forall i, j :: 0 <= i < j < |names| ==> names[i] != names[j]
    ensures EachTold(env.root, s, p, names, properties, done, active, MAX_DEPTH - depth, st,
                     Each(env, names, properties, done, depth, active, st))
    decreases Rank(depth), 3, |names|
  {
    hide Resolve, Accounted, Quiet, Good, FromPart, EachTold, Told, Kept;
    var root, n := env.root, MAX_DEPTH - depth;
    var all := Each(env, names, properties, done, depth, active, st);
    if names == [] {
      NoNamesLeft(root, s, p, properties, done, active, n, st);
    } else {
      var schema := MapValue(properties[names[0]]);
      assert Get(properties, names[0]) == properties[names[0]];
      if FromPart(s, p, names[0]) {
        assert Obj(schema) == properties[names[0]];
        ResolveKeeps(env, schema, depth + 1, active, st);
      }
      ResolveTells(env, schema, depth + 1, active, st);
      ResolveAdvances(env, schema, depth + 1, active, st);
      var r := Resolve(env, schema, depth + 1, active, st);
      OneTold(root, s, p, properties, names[0], active, n, st, r);
      if r.Go? {
        var next := done[names[0] := Obj(r.out)];
        EachAdvances(env, names[1..], properties, next, depth, active, r.st);
        if Whole(r) && Quiet(r.st) {
          EachTells(env, s, p, names[1..], properties, next, depth, active, r.st);
          NextName(root, s, p, names, properties, done, active, n, st, r, all);
        } else {
          NameDecides(root, s, p, names, properties, done, active, n, st, r, all);
        }
      } else {
        NamesCutShort(root, s, p, names, properties, done, active, n, st, all);
      }
    }
  }

  ghost predicate NameTold(root: Schema, s: Schema, p: Parts, properties: Schema, name: string, active: set<string>,
                           n: nat, st: State, r: Reply)
    requires name in properties
  {
    Whole(r) ==>
      && (Quiet(r.st) <==> NameFits(root, s, p, properties, name, active, n))
      && (Quiet(r.st) ==>
            && NameHolds(root, s, p, properties[name], Obj(r.out), name, n)
            && (r.st.branchReported <==> st.branchReported || NameChooses(root, s, p, properties, name, n)))
  }

  lemma OneTold(root: Schema, s: Schema, p: Parts, properties: Schema, name: string, active: set<string>, n: nat,
                st: State, r: Reply)
    requires name in properties && Quiet(st)
    requires Told(root, MapValue(properties[name]), active, n, st, r)
    requires FromPart(s, p, name) ==> properties[name].Obj? && Kept(MapValue(properties[name]), st, r)
    ensures NameTold(root, s, p, properties, name, active, n, st, r)
  {
    hide FromPart, Fits, Chooses, Says;
  }

  lemma NoNamesLeft(root: Schema, s: Schema, p: Parts, properties: Schema, done: Schema, active: set<string>, n: nat,
                    st: State)
    requires Quiet(st)
    ensures EachTold(root, s, p, [], properties, done, active, n, st, Go(done, st))
  {
  }

  lemma NamesCutShort(root: Schema, s: Schema, p: Parts, names: seq<string>, properties: Schema, done: Schema,
                      active: set<string>, n: nat, st: State, r: Reply)
    requires (forall name <- names :: name in properties) && !Whole(r)
    ensures EachTold(root, s, p, names, properties, done, active, n, st, r)
  {
  }

  lemma NameDecides(root: Schema, s: Schema, p: Parts, names: seq<string>, properties: Schema, done: Schema,
                    active: set<string>, n: nat, st: State, first: Reply, all: Reply)
    requires (forall name <- names :: name in properties) && names != [] && After(first.st, all.st) && first.Go?
    requires NameTold(root, s, p, properties, names[0], active, n, st, first) && !(Whole(first) && Quiet(first.st))
    ensures EachTold(root, s, p, names, properties, done, active, n, st, all)
  {
    hide NameFits, NameHolds, NameChooses, Quiet, Accounted;
    if Quiet(all.st) {
      QuietBefore(first.st, all.st);
    }
    assert names[0] in names;
  }

  lemma NextName(root: Schema, s: Schema, p: Parts, names: seq<string>, properties: Schema, done: Schema,
                 active: set<string>, n: nat, st: State, first: Reply, all: Reply)
    requires (forall name <- names :: name in properties) && names != [] && names[0] !in names[1..]
    requires names[0] !in done && Whole(first) && Quiet(first.st)
    requires NameTold(root, s, p, properties, names[0], active, n, st, first)
    requires EachTold(root, s, p, names[1..], properties, done[names[0] := Obj(first.out)], active, n, first.st, all)
    ensures EachTold(root, s, p, names, properties, done, active, n, st, all)
  {
    hide NameFits, NameHolds, NameChooses, Quiet;
    assert forall name :: name in names <==> name == names[0] || name in names[1..];
    if Whole(all) && Quiet(all.st) {
      assert all.out[names[0]] == Obj(first.out);
      assert (set name <- names) == {names[0]} + (set name <- names[1..]);
    }
  }

  lemma {:induction false} PropertiesTell(env: Env, s: Schema, p: Parts, c: Schema, depth: nat,
                                          active: set<string>, st: State)
    requires depth <= MAX_DEPTH && Accounted(st) && Quiet(st)
    requires PartsSay(env.root, s, p, MAX_DEPTH - depth) && Combined(s, p, c)
    ensures PropertiesTold(env.root, s, p, c, active, MAX_DEPTH - depth, st, Properties(env, c, depth, active, st))
    decreases Rank(depth), 4, 0
  {
    hide Each, SortedSet, Accounted, Quiet, PartsSay, Combined, PropertiesTold, FromPart, EachTold, Good;
    var root, n := env.root, MAX_DEPTH - depth;
    var properties := PropertiesOf(c);
    PartPropertiesGood(root, s, p, c, n);
    if properties == map[] {
      NoPropertiesTold(root, s, p, c, active, n, st);
    } else {
      var names := SortedSet(properties.Keys);
      SortedSetDistinct(properties.Keys);
      EachTells(env, s, p, names, properties, map[], depth, active, st);
      var r := Each(env, names, properties, map[], depth, active, st);
      if r.Go? {
        AllNames(root, s, p, c, active, n, st, r);
      } else {
        PropertiesCutShort(root, s, p, c, active, n, st, r);
      }
    }
  }

  lemma PropertiesCutShort(root: Schema, s: Schema, p: Parts, c: Schema, active: set<string>, n: nat, st: State,
                           r: Reply)
    requires !Whole(r)
    ensures PropertiesTold(root, s, p, c, active, n, st, r)
  {
  }

  lemma PartPropertiesGood(root: Schema, s: Schema, p: Parts, c: Schema, n: nat)
    requires PartsSay(root, s, p, n) && Combined(s, p, c)
    ensures forall name <- PropertiesOf(c) :: FromPart(s, p, name) ==>
              PropertiesOf(c)[name].Obj? && Good(PropertiesOf(c)[name], n - 1)
  {
    hide Good, AllGood, PartsSay, Last, Combined;
    PartsGood(root, s, p, n);
    GoodParts(p.base, n - 1);
    forall name <- PropertiesOf(c) | FromPart(s, p, name)
      ensures PropertiesOf(c)[name].Obj? && Good(PropertiesOf(c)[name], n - 1)
    {
      PropertyCombined(s, p, c, name);
      AllGoodGive(p.Branches(), name, n - 1);
    }
  }

  lemma PropertyCombined(s: Schema, p: Parts, c: Schema, name: string)
    requires Combined(s, p, c)
    ensures CombinedProperty(s, p, c, name)
  {
    hide CombinedKey, HoldsRequired, CombinedProperty;
  }

  /** Names of the schema's own that no branch replaces are those that must fit. */
  lemma OwnNames(root: Schema, s: Schema, p: Parts, c: Schema, active: set<string>, n: nat)
    requires PartsSay(root, s, p, n) && Combined(s, p, c)
    ensures PropertiesFit(root, s, active, n) <==>
              forall name <- PropertiesOf(c) :: NameFits(root, s, p, PropertiesOf(c), name, active, n)
    ensures PropertiesChoose(root, s, n) <==>
              exists name <- PropertiesOf(c) :: NameChooses(root, s, p, PropertiesOf(c), name, n)
  {
    hide PartsSay, Last, Combined, BranchOffers, Fits, Chooses;
    forall name
      ensures BranchOffers(root, s, name, n) <==> Last(p.Branches(), name).Some?
      ensures CombinedProperty(s, p, c, name)
    {
      BranchesOffer(root, s, p, name, n);
      PropertyCombined(s, p, c, name);
    }
    forall name | !FromPart(s, p, name)
      ensures Prop(c, name) == Prop(s, name)
    {
    }
    assert forall name <- PropertiesOf(s) :: "properties" in s;
    forall name <- PropertiesOf(s) | !FromPart(s, p, name) ensures name in PropertiesOf(c) {
      assert Prop(c, name) == Prop(s, name);
    }
    forall name <- PropertiesOf(c) | !FromPart(s, p, name) ensures name in PropertiesOf(s) {
      assert Prop(c, name) == Prop(s, name);
    }
  }

  lemma NoPropertiesTold(root: Schema, s: Schema, p: Parts, c: Schema, active: set<string>, n: nat, st: State)
    requires PartsSay(root, s, p, n) && Combined(s, p, c) && PropertiesOf(c) == map[] && Quiet(st)
    ensures PropertiesTold(root, s, p, c, active, n, st, Go(c, st))
  {
    hide PartsSay, Combined, PropertiesFit, PropertiesChoose, Last, ResolvedTo;
    OwnNames(root, s, p, c, active, n);
    forall name ensures HoldsProperty(root, s, p, c, name, n) {
      PropertyCombined(s, p, c, name);
    }
  }

  lemma AllNames(root: Schema, s: Schema, p: Parts, c: Schema, active: set<string>, n: nat, st: State, r: Reply)
    requires PartsSay(root, s, p, n) && Combined(s, p, c) && r.Go?
    requires EachTold(root, s, p, SortedSet(PropertiesOf(c).Keys), PropertiesOf(c), map[], active, n, st, r)
    ensures PropertiesTold(root, s, p, c, active, n, st, Go(c["properties" := Obj(r.out)], r.st))
  {
    hide PartsSay, Combined, PropertiesFit, PropertiesChoose, NameFits, NameChooses, NameHolds, SortedSet, Quiet,
         HoldsProperty;
    var names := SortedSet(PropertiesOf(c).Keys);
    assert forall name :: name in names <==> name in PropertiesOf(c);
    OwnNames(root, s, p, c, active, n);
    if Whole(r) && Quiet(r.st) {
      var out := c["properties" := Obj(r.out)];
      forall name ensures HoldsProperty(root, s, p, out, name, n) {
        PropertyCombined(s, p, c, name);
        NameToProperty(root, s, p, c, r.out, name, n);
      }
    }
  }

  lemma NameToProperty(root: Schema, s: Schema, p: Parts, c: Schema, resolved: Schema, name: string, n: nat)
    requires CombinedProperty(s, p, c, name) && (name in resolved <==> name in PropertiesOf(c))
    requires name in resolved ==> NameHolds(root, s, p, PropertiesOf(c)[name], resolved[name], name, n)
    ensures HoldsProperty(root, s, p, c["properties" := Obj(resolved)], name, n)
  {
    hide ResolvedTo, Last;
    assert PropertiesOf(c["properties" := Obj(resolved)]) == resolved;
  }

  // ---------------------------------------------------------------- the results

  /** On every document: a run that is not cancelled reports no more than branch selections
      exactly when it stays within the work limit and everything it visits fits.  Then it
      returns what the schema stands for, and it reports a branch selection exactly when a
      choice is visited. */
  lemma ResolutionSays(env: Env, schema: Schema)
    requires Resolve(env, schema, 0, {}, Start).Go?
    ensures (var r := Resolve(env, schema, 0, {}, Start);
             && (Quiet(r.st) <==> r.st.work <= MAX_WORK && Fits(env.root, schema, {}, MAX_DEPTH + 1))
             && (Quiet(r.st) ==>
                   && Says(env.root, schema, r.out, MAX_DEPTH + 1)
                   && (r.st.issues == [] <==> !Chooses(env.root, schema, MAX_DEPTH + 1))))
  {
    hide Resolve, Says, Fits, Chooses;
    var r := Resolve(env, schema, 0, {}, Start);
    ResolveAdvances(env, schema, 0, {}, Start);
    ResolveTells(env, schema, 0, {}, Start);
    if r.st.limitReported {
      assert LimitExceeded in multiset(r.st.issues);
      NotQuiet(r.st, LimitExceeded);
    }
    if Quiet(r.st) && r.st.issues != [] {
      assert r.st.issues[0] in r.st.issues;
    }
  }

  /** Read off the document: after a run that reports no more than branch selections, the
      properties, the required names and the other keywords of the result. */
  lemma ResolvedHolds(env: Env, schema: Schema, name: string, key: string)
    requires (var r := Resolve(env, schema, 0, {}, Start); r.Go? && Quiet(r.st)) && !Special(key)
    ensures (var out := Resolve(env, schema, 0, {}, Start).out;
             && (name in PropertiesOf(out) <==> Offers(env.root, schema, name, MAX_DEPTH + 1))
             && (Names(Get(out, "required"), name) <==> Demands(env.root, schema, name, MAX_DEPTH + 1))
             && At(out, key) == Keyword(env.root, schema, key, MAX_DEPTH + 1)
             && NoLists(out) && Expanded(Obj(out)))
  {
    hide Resolve, Says, Offers, Names, Demands, Keyword, Expanded, NoLists, Within;
    var out := Resolve(env, schema, 0, {}, Start).out;
    ResolutionSays(env, schema);
    SaysOffers(env.root, schema, out, name, MAX_DEPTH + 1);
    SaysDemands(env.root, schema, out, name, MAX_DEPTH + 1);
    SaysKeyword(env.root, schema, out, key, MAX_DEPTH + 1);
    SaysGood(env.root, schema, out, MAX_DEPTH + 1);
    GoodParts(out, MAX_DEPTH);
  }
}
