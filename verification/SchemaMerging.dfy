/** How the branches of a schema are merged into it, one list after another. */
module SchemaMerging {
  import opened Json
  import opened Ordering
  import opened SchemaMeaning
  import opened SchemaProofs
  import opened SchemaSpec
  import opened Text
  import opened Wrappers

  // ---------------------------------------------------------------- merging branches

  /** `out` is `from` with the branches `qs` merged into it in order. */
  ghost predicate Merged(from: Schema, qs: seq<Schema>, includeRequired: bool, out: Schema) {
    && (forall key :: MergedKey(from, qs, out, key))
    && (forall name :: MergedProperty(from, qs, out, name))
    && (forall x :: MergedRequired(from, qs, includeRequired, out, x))
  }

  predicate MergedKey(from: Schema, qs: seq<Schema>, out: Schema, key: string) {
    key != "properties" && key != "required" ==> At(out, key) == Or(At(from, key), First(qs, key))
  }

  predicate MergedProperty(from: Schema, qs: seq<Schema>, out: Schema, name: string) {
    Prop(out, name) == Or(Last(qs, name), Prop(from, name))
  }

  ghost predicate MergedRequired(from: Schema, qs: seq<Schema>, includeRequired: bool, out: Schema, x: string) {
    Names(Get(out, "required"), x) <==>
      || Names(Get(from, "required"), x)
      || (includeRequired && exists q <- qs :: Names(Get(q, "required"), x))
  }

  lemma NothingMerged(from: Schema, includeRequired: bool)
    ensures Merged(from, [], includeRequired, from)
  {
    hide Names, Prop;
  }

  lemma MergedTwice(from: Schema, a: seq<Schema>, mid: Schema, b: seq<Schema>, includeRequired: bool, out: Schema)
    requires Merged(from, a, includeRequired, mid) && Merged(mid, b, includeRequired, out)
    ensures Merged(from, a + b, includeRequired, out)
  {
    hide Names, First, Last, Prop, At;
    forall key ensures MergedKey(from, a + b, out, key) {
      FirstAppends(a, b, key);
      assert MergedKey(from, a, mid, key) && MergedKey(mid, b, out, key);
    }
    forall name ensures MergedProperty(from, a + b, out, name) {
      LastAppends(a, b, name);
      assert MergedProperty(from, a, mid, name) && MergedProperty(mid, b, out, name);
    }
    forall x ensures MergedRequired(from, a + b, includeRequired, out, x) {
      assert MergedRequired(from, a, includeRequired, mid, x) && MergedRequired(mid, b, includeRequired, out, x);
      assert forall q :: q in a + b <==> q in a || q in b;
    }
  }

  lemma MergeSchemaMerges(from: Schema, q: Schema, includeRequired: bool)
    ensures Merged(from, [q], includeRequired, MergeSchema(from, q, includeRequired))
  {
    hide Names, Prop, MergeSchema, Last;
    var out := MergeSchema(from, q, includeRequired);
    forall key ensures MergedKey(from, [q], out, key) {
      if key != "properties" && key != "required" {
        MergeKey(from, q, includeRequired, key);
      }
      assert First([q], key) == At(q, key);
    }
    forall name ensures MergedProperty(from, [q], out, name) {
      MergeProperty(from, q, includeRequired, name);
    }
    forall x ensures MergedRequired(from, [q], includeRequired, out, x) {
      MergeRequired(from, q, includeRequired, x);
      assert [q][0] == q;
    }
  }

  lemma MergeKey(from: Schema, q: Schema, includeRequired: bool, key: string)
    requires key != "properties" && key != "required"
    ensures At(MergeSchema(from, q, includeRequired), key) == Or(At(from, key), At(q, key))
  {
    hide StringSlice, SortedUniqueStrings;
  }

  lemma MergeProperty(from: Schema, q: Schema, includeRequired: bool, name: string)
    ensures Prop(MergeSchema(from, q, includeRequired), name) == Or(Last([q], name), Prop(from, name))
  {
    hide StringSlice, SortedUniqueStrings;
    var out := MergeSchema(from, q, includeRequired);
    assert Last([q], name) == Prop(q, name);
    assert "properties" in q ==> PropertiesOf(out) == PropertiesOf(from) + PropertiesOf(q);
  }

  lemma MergeRequired(from: Schema, q: Schema, includeRequired: bool, x: string)
    ensures Names(Get(MergeSchema(from, q, includeRequired), "required"), x) <==>
              || Names(Get(from, "required"), x) || (includeRequired && Names(Get(q, "required"), x))
  {
    hide StringSlice, SortedUniqueStrings, Names;
    NoNames(x);
    if "required" in q && includeRequired {
      UnionNames(Get(from, "required"), q["required"], x);
    }
  }

  lemma NoNames(x: string)
    ensures !Names(Null, x)
  {
    assert TrimSpace("") == "";
  }

  lemma UnionNames(v: Json, w: Json, x: string)
    ensures Names(Strs(SortedUniqueStrings(StringSlice(v) + StringSlice(w))), x) <==> Names(v, x) || Names(w, x)
  {
    hide StringSlice, Names, TrimSpace, SortedUniqueStrings;
    var list := StringSlice(v) + StringSlice(w);
    UniqueNames(list, x);
    SliceNames(v, x);
    SliceNames(w, x);
    assert forall s :: s in list <==> s in StringSlice(v) || s in StringSlice(w);
  }

  lemma UniqueNames(list: seq<string>, x: string)
    ensures Names(Strs(SortedUniqueStrings(list)), x) <==> x != "" && exists s <- list :: TrimSpace(s) == x
  {
    hide TrimSpace, SortedSet;
    var set_ := TrimmedSet(list);
    assert forall s :: s in SortedSet(set_) <==> s in set_;
    forall s <- list ensures TrimSpace(TrimSpace(s)) == TrimSpace(s) {
      TrimSpaceIdempotent(s);
    }
    if s :| s in list && TrimSpace(s) == x && x != "" {
      assert x in set_;
    }
  }

  lemma SliceNames(v: Json, x: string)
    ensures Names(v, x) <==> x != "" && exists s <- StringSlice(v) :: TrimSpace(s) == x
  {
    hide TrimSpace, SortedSet, SortBy, StringValue;
    match v
    case Strs(list) =>
      UniqueNames(list, x);
    case Arr(items) =>
      SortBySorts(Same, Texts(items));
      assert forall s :: s in SortBy(Same, Texts(items)) <==> s in multiset(SortBy(Same, Texts(items)));
      assert forall s :: s in Texts(items) <==> s in multiset(Texts(items));
      if x != "" {
        TextsNames(items, x);
      }
    case _ =>
      assert TrimSpace("") == "" by { EmptyTrims(); }
      if StringValue(v) != "" {
        assert [StringValue(v)][0] == StringValue(v);
      }
  }

  lemma EmptyTrims()
    ensures TrimSpace("") == ""
  {
  }

  lemma {:induction false} TextsNames(items: seq<Json>, x: string)
    requires x != ""
    ensures (exists s <- Texts(items) :: TrimSpace(s) == x) <==>
            (exists item <- items :: TrimSpace(StringValue(item)) == x)
  {
    hide TrimSpace, StringValue;
    EmptyTrims();
    if items != [] {
      TextsNames(items[1..], x);
      var head := StringValue(items[0]);
      assert items[0] in items && forall item <- items :: item == items[0] || item in items[1..];
      assert Texts(items) == (if head == "" then [] else [head]) + Texts(items[1..]);
      if head != "" {
        assert head in Texts(items);
      }
    }
  }

  // ---------------------------------------------------------------- the target of a reference and three lists

  /** `out` is `s` over the result `base` for the target of its reference. */
  predicate JoinedKey(s: Schema, base: Schema, out: Schema, key: string) {
    At(out, key) == if Own(s, key) then Some(s[key]) else At(base, key)
  }

  ghost predicate Joined(s: Schema, base: Schema, out: Schema) {
    forall key :: JoinedKey(s, base, out, key)
  }

  /** `s` without the branches under `keyword`, if there are any. */
  function Dropped(s: Schema, keyword: string): Schema {
    if ListOf(s, keyword) == [] then s else s - {keyword}
  }

  lemma DroppedKeeps(s: Schema, keyword: string)
    requires keyword == "allOf" || keyword == "oneOf" || keyword == "anyOf"
    ensures NoList(Dropped(s, keyword), keyword)
    ensures forall key :: key != keyword ==> At(Dropped(s, keyword), key) == At(s, key)
    ensures PropertiesOf(Dropped(s, keyword)) == PropertiesOf(s)
    ensures Get(Dropped(s, keyword), "required") == Get(s, "required")
  {
  }

  /** Expanded branches bring no lists with them. */
  lemma ListsStay(from: Schema, qs: seq<Schema>, includeRequired: bool, out: Schema, key: string, n: int)
    requires Merged(from, qs, includeRequired, out) && AllGood(qs, n)
    requires key == "allOf" || key == "oneOf" || key == "anyOf"
    ensures ListOf(out, key) == ListOf(from, key)
  {
    hide Good, First, MergedProperty, MergedRequired;
    assert MergedKey(from, qs, out, key);
    FirstIn(qs, key);
    forall q <- qs ensures NoList(q, key) {
      GoodParts(q, n);
    }
  }

  /** Before its properties and items are resolved: what `s` and its parts give together. */
  ghost predicate Combined(s: Schema, p: Parts, out: Schema) {
    && (forall key :: CombinedKey(s, p, out, key))
    && (forall name :: CombinedProperty(s, p, out, name))
    && (forall x :: HoldsRequired(s, p, out, x))
    && NoLists(out)
  }

  predicate CombinedKey(s: Schema, p: Parts, out: Schema, key: string) {
    !Special(key) || key == "items" ==>
      At(out, key) == if Own(s, key) then Some(s[key]) else First([p.base] + p.Branches(), key)
  }

  predicate CombinedProperty(s: Schema, p: Parts, out: Schema, name: string) {
    Prop(out, name) == Or(Last(p.Branches(), name), Prop(if "properties" in s then s else p.base, name))
  }

  lemma JoinedLists(s: Schema, base: Schema, out: Schema, key: string)
    requires Joined(s, base, out) && NoLists(base) && (key == "allOf" || key == "oneOf" || key == "anyOf")
    ensures ListOf(out, key) == ListOf(s, key)
  {
    assert JoinedKey(s, base, out, key);
  }

  lemma JoinedRest(s: Schema, base: Schema, out: Schema)
    requires Joined(s, base, out)
    ensures PropertiesOf(out) == PropertiesOf(if "properties" in s then s else base)
    ensures Get(out, "required") == Get(if "required" in s then s else base, "required")
  {
    assert JoinedKey(s, base, out, "properties") && JoinedKey(s, base, out, "required");
  }

  /** The four schemas a composition goes through. */
  ghost predicate Chained(s: Schema, p: Parts, from: Schema, a: Schema, b: Schema, c: Schema) {
    && Joined(s, p.base, from)
    && Merged(Dropped(from, "allOf"), p.alls, true, a)
    && Merged(Dropped(a, "oneOf"), p.ones, false, b)
    && Merged(Dropped(b, "anyOf"), p.anys, false, c)
  }

  lemma ChainedKey(s: Schema, p: Parts, from: Schema, a: Schema, b: Schema, c: Schema, key: string)
    requires Chained(s, p, from, a, b, c)
    ensures CombinedKey(s, p, c, key)
  {
    hide First, Own, MergedProperty, MergedRequired, Dropped;
    if !Special(key) || key == "items" {
      DroppedKeeps(from, "allOf");
      DroppedKeeps(a, "oneOf");
      DroppedKeeps(b, "anyOf");
      assert JoinedKey(s, p.base, from, key);
      assert MergedKey(Dropped(from, "allOf"), p.alls, a, key);
      assert MergedKey(Dropped(a, "oneOf"), p.ones, b, key);
      assert MergedKey(Dropped(b, "anyOf"), p.anys, c, key);
      FirstAppends(p.alls, p.ones, key);
      FirstAppends(p.alls + p.ones, p.anys, key);
      FirstAppends([p.base], p.Branches(), key);
      OneFirst(p.base, key);
    }
  }

  lemma OneFirst(q: Schema, key: string)
    ensures First([q], key) == At(q, key)
  {
  }

  lemma ChainedProperty(s: Schema, p: Parts, from: Schema, a: Schema, b: Schema, c: Schema, name: string)
    requires Chained(s, p, from, a, b, c)
    ensures CombinedProperty(s, p, c, name)
  {
    hide Last, Joined, MergedKey, MergedRequired, Dropped;
    DroppedKeeps(from, "allOf");
    DroppedKeeps(a, "oneOf");
    DroppedKeeps(b, "anyOf");
    JoinedRest(s, p.base, from);
    assert MergedProperty(Dropped(from, "allOf"), p.alls, a, name);
    assert MergedProperty(Dropped(a, "oneOf"), p.ones, b, name);
    assert MergedProperty(Dropped(b, "anyOf"), p.anys, c, name);
    LastAppends(p.alls, p.ones, name);
    LastAppends(p.alls + p.ones, p.anys, name);
  }

  lemma ChainedRequired(s: Schema, p: Parts, from: Schema, a: Schema, b: Schema, c: Schema, x: string)
    requires Chained(s, p, from, a, b, c)
    ensures HoldsRequired(s, p, c, x)
  {
    hide Names, Joined, MergedKey, MergedProperty, Dropped;
    DroppedKeeps(from, "allOf");
    DroppedKeeps(a, "oneOf");
    DroppedKeeps(b, "anyOf");
    JoinedRest(s, p.base, from);
    assert MergedRequired(Dropped(from, "allOf"), p.alls, true, a, x);
    assert MergedRequired(Dropped(a, "oneOf"), p.ones, false, b, x);
    assert MergedRequired(Dropped(b, "anyOf"), p.anys, false, c, x);
  }

  lemma ChainedLists(s: Schema, p: Parts, from: Schema, a: Schema, b: Schema, c: Schema, n: int)
    requires Chained(s, p, from, a, b, c) && AllGood(p.alls, n) && AllGood(p.ones, n) && AllGood(p.anys, n)
    ensures NoLists(c)
  {
    hide Merged, Joined, Dropped, AllGood;
    DroppedKeeps(from, "allOf");
    DroppedKeeps(a, "oneOf");
    DroppedKeeps(b, "anyOf");
    ListsStay(Dropped(from, "allOf"), p.alls, true, a, "allOf", n);
    ListsStay(Dropped(a, "oneOf"), p.ones, false, b, "allOf", n);
    ListsStay(Dropped(a, "oneOf"), p.ones, false, b, "oneOf", n);
    ListsStay(Dropped(b, "anyOf"), p.anys, false, c, "allOf", n);
    ListsStay(Dropped(b, "anyOf"), p.anys, false, c, "oneOf", n);
    ListsStay(Dropped(b, "anyOf"), p.anys, false, c, "anyOf", n);
    assert At(Dropped(a, "oneOf"), "allOf") == At(a, "allOf");
    assert At(Dropped(b, "anyOf"), "allOf") == At(b, "allOf");
    assert At(Dropped(b, "anyOf"), "oneOf") == At(b, "oneOf");
  }

  lemma ChainedCombines(s: Schema, p: Parts, from: Schema, a: Schema, b: Schema, c: Schema, n: int)
    requires Chained(s, p, from, a, b, c) && AllGood(p.alls, n) && AllGood(p.ones, n) && AllGood(p.anys, n)
    ensures Combined(s, p, c)
  {
    hide Chained, AllGood, CombinedKey, CombinedProperty, HoldsRequired, NoLists;
    forall key ensures CombinedKey(s, p, c, key) {
      ChainedKey(s, p, from, a, b, c, key);
    }
    forall name ensures CombinedProperty(s, p, c, name) {
      ChainedProperty(s, p, from, a, b, c, name);
    }
    forall x ensures HoldsRequired(s, p, c, x) {
      ChainedRequired(s, p, from, a, b, c, x);
    }
    ChainedLists(s, p, from, a, b, c, n);
  }

  lemma AfterAllOf(out: Schema, alls: seq<Schema>, a: Schema, n: int)
    requires Merged(Dropped(out, "allOf"), alls, true, a) && AllGood(alls, n)
    ensures ListOf(a, "oneOf") == ListOf(out, "oneOf") && ListOf(a, "anyOf") == ListOf(out, "anyOf")
  {
    hide Merged, AllGood, Dropped;
    DroppedKeeps(out, "allOf");
    ListsStay(Dropped(out, "allOf"), alls, true, a, "oneOf", n);
    ListsStay(Dropped(out, "allOf"), alls, true, a, "anyOf", n);
    assert At(Dropped(out, "allOf"), "oneOf") == At(out, "oneOf");
    assert At(Dropped(out, "allOf"), "anyOf") == At(out, "anyOf");
  }

  lemma AfterOneOf(a: Schema, ones: seq<Schema>, b: Schema, n: int)
    requires Merged(Dropped(a, "oneOf"), ones, false, b) && AllGood(ones, n)
    ensures ListOf(b, "anyOf") == ListOf(a, "anyOf")
  {
    hide Merged, AllGood, Dropped;
    DroppedKeeps(a, "oneOf");
    ListsStay(Dropped(a, "oneOf"), ones, false, b, "anyOf", n);
    assert At(Dropped(a, "oneOf"), "anyOf") == At(a, "anyOf");
  }
}
