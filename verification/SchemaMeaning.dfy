/** What a resolved schema holds, told from the schemas it was put together from: the
    target of its reference and the branches of its `allOf`, `oneOf` and `anyOf` lists.

    `Says` describes a result level by level; `Offers`, `Demands` and `Keyword` read the
    properties, the required names and the other keywords of the result off the document.
    A level `n` counts down from one more than the depth limit. */
module SchemaMeaning {
  import opened Json
  import opened Ordering
  import opened SchemaProofs
  import opened SchemaSpec
  import opened Text
  import opened Wrappers

  // ---------------------------------------------------------------- what one schema holds

  /** The branches under a composition keyword. */
  function ListOf(s: Schema, keyword: string): seq<Json> {
    SliceValue(Get(s, keyword))
  }

  function AllBranches(s: Schema): seq<Json> {
    ListOf(s, "allOf") + ListOf(s, "oneOf") + ListOf(s, "anyOf")
  }

  function Target(root: Schema, s: Schema): Schema {
    LocalObjectRef(root, RefOf(s))
  }

  predicate HasRef(s: Schema) {
    IsLocal(RefOf(s))
  }

  /** `s` has `key`; a local reference does not count, its target takes its place. */
  predicate Own(s: Schema, key: string) {
    key in s && !(key == "$ref" && HasRef(s))
  }

  function At(s: Schema, key: string): Option<Json> {
    if key in s then Some(s[key]) else None
  }

  function Prop(s: Schema, name: string): Option<Json> {
    At(PropertiesOf(s), name)
  }

  /** The value, or values, that a `required` entry names. */
  ghost predicate Names(v: Json, x: string) {
    x != "" && (match v
                case Strs(list) => exists s <- list :: TrimSpace(s) == x
                case Arr(items) => exists item <- items :: TrimSpace(StringValue(item)) == x
                case _ => TrimSpace(StringValue(v)) == x)
  }

  function Or(a: Option<Json>, b: Option<Json>): Option<Json> {
    if a.Some? then a else b
  }

  /** The value under `key` in the first schema that has one. */
  function First(qs: seq<Schema>, key: string): Option<Json> {
    if qs == [] then None else Or(At(qs[0], key), First(qs[1..], key))
  }

  /** The property in the last schema that has it. */
  function Last(qs: seq<Schema>, name: string): Option<Json> {
    if qs == [] then None else Or(Last(qs[1..], name), Prop(qs[0], name))
  }

  // ---------------------------------------------------------------- what a result holds

  /** The results for the target of a reference (empty without one) and for the branches. */
  datatype Parts = Parts(base: Schema, alls: seq<Schema>, ones: seq<Schema>, anys: seq<Schema>) {
    function Branches(): seq<Schema> {
      alls + ones + anys
    }
  }

  /** `out` is what `s` stands for in the document, at most `n` levels deep. */
  ghost predicate Says(root: Schema, s: Schema, out: Schema, n: nat)
    decreases n, 2
  {
    if s == map[] then out == map[] else n > 0 && Explained(root, s, out, n - 1)
  }

  ghost predicate Explained(root: Schema, s: Schema, out: Schema, n: nat)
    decreases n, 6
  {
    exists p: Parts :: PartsSay(root, s, p, n) && Holds(root, s, p, out, n)
  }

  ghost predicate PartsSay(root: Schema, s: Schema, p: Parts, n: nat)
    decreases n, 4
  {
    && RefSays(root, s, p.base, n)
    && ListSays(root, ListOf(s, "allOf"), p.alls, n)
    && ListSays(root, ListOf(s, "oneOf"), p.ones, n)
    && ListSays(root, ListOf(s, "anyOf"), p.anys, n)
  }

  ghost predicate RefSays(root: Schema, s: Schema, base: Schema, n: nat)
    decreases n, 3
  {
    if HasRef(s) then Target(root, s) != map[] && Says(root, Target(root, s), base, n) else base == map[]
  }

  ghost predicate ListSays(root: Schema, items: seq<Json>, outs: seq<Schema>, n: nat)
    decreases n, 3
  {
    |items| == |outs| && forall i :: 0 <= i < |items| ==> Says(root, MapValue(items[i]), outs[i], n)
  }

  ghost predicate Holds(root: Schema, s: Schema, p: Parts, out: Schema, n: nat)
    decreases n, 5
  {
    && (forall name :: HoldsProperty(root, s, p, out, name, n))
    && (forall x :: HoldsRequired(s, p, out, x))
    && HoldsItems(root, s, p, out, n)
    && (forall key :: HoldsKeyword(s, p, out, key))
    && NoLists(out)
  }

  /** A property is that of the last branch that has it; else the schema's own, resolved;
      else, when the schema has no `properties` itself, that of the target. */
  ghost predicate HoldsProperty(root: Schema, s: Schema, p: Parts, out: Schema, name: string, n: nat)
    decreases n, 4
  {
    if Last(p.Branches(), name).Some? then Prop(out, name) == Last(p.Branches(), name)
    else if "properties" !in s then Prop(out, name) == Prop(p.base, name)
    else if name !in PropertiesOf(s) then name !in PropertiesOf(out)
    else name in PropertiesOf(out) && ResolvedTo(root, PropertiesOf(s)[name], PropertiesOf(out)[name], n)
  }

  ghost predicate ResolvedTo(root: Schema, j: Json, k: Json, n: nat)
    decreases n, 3
  {
    k.Obj? && Says(root, MapValue(j), k.fields, n)
  }

  /** Required are the schema's own names, else those of the target, and those of `allOf`
      branches, but not those of `oneOf` and `anyOf` branches. */
  ghost predicate HoldsRequired(s: Schema, p: Parts, out: Schema, x: string) {
    Names(Get(out, "required"), x) <==>
      || Names(Get(if "required" in s then s else p.base, "required"), x)
      || exists q <- p.alls :: Names(Get(q, "required"), x)
  }

  /** Items are the schema's own, resolved; else those of the target, else of a branch. */
  ghost predicate HoldsItems(root: Schema, s: Schema, p: Parts, out: Schema, n: nat)
    decreases n, 4
  {
    if "items" !in s then At(out, "items") == First([p.base] + p.Branches(), "items")
    else if MapValue(s["items"]) == map[] then At(out, "items") == Some(s["items"])
    else "items" in out && ResolvedTo(root, s["items"], out["items"], n)
  }

  predicate Special(key: string) {
    key == "properties" || key == "required" || key == "items" || key == "allOf" || key == "oneOf" || key == "anyOf"
  }

  /** Any other keyword is the schema's own, else that of the target, else of a branch. */
  ghost predicate HoldsKeyword(s: Schema, p: Parts, out: Schema, key: string) {
    !Special(key) ==>
      At(out, key) == if Own(s, key) then Some(s[key]) else First([p.base] + p.Branches(), key)
  }

  // ---------------------------------------------------------------- reading it off the document

  /** A property of this name comes with the schema, its target or a branch. */
  ghost predicate Offers(root: Schema, s: Schema, name: string, n: nat)
    decreases n, 0
  {
    n > 0 &&
    (|| name in PropertiesOf(s)
     || ("properties" !in s && HasRef(s) && Offers(root, Target(root, s), name, n - 1))
     || BranchOffers(root, s, name, n - 1))
  }

  ghost predicate BranchOffers(root: Schema, s: Schema, name: string, n: nat)
    decreases n, 1
  {
    exists b <- AllBranches(s) :: Offers(root, MapValue(b), name, n)
  }

  ghost predicate Demands(root: Schema, s: Schema, x: string, n: nat)
    decreases n
  {
    n > 0 &&
    (|| (if "required" in s then Names(s["required"], x) else HasRef(s) && Demands(root, Target(root, s), x, n - 1))
     || exists b <- ListOf(s, "allOf") :: Demands(root, MapValue(b), x, n - 1))
  }

  ghost function Keyword(root: Schema, s: Schema, key: string, n: nat): Option<Json>
    decreases n, 0, 0
  {
    if n == 0 then None
    else if Own(s, key) then Some(s[key])
    else Or(if HasRef(s) then Keyword(root, Target(root, s), key, n - 1) else None,
            BranchKeyword(root, AllBranches(s), key, n - 1))
  }

  ghost function BranchKeyword(root: Schema, branches: seq<Json>, key: string, n: nat): Option<Json>
    decreases n, 1, |branches|
  {
    if branches == [] then None
    else Or(Keyword(root, MapValue(branches[0]), key, n), BranchKeyword(root, branches[1..], key, n))
  }

  // ---------------------------------------------------------------- when everything is expanded

  /** What resolution visits lies within `n` levels, every local reference on the way finds
      a target, and none stands below its own target.  A property that a branch replaces is
      not visited. */
  ghost predicate Fits(root: Schema, s: Schema, active: set<string>, n: nat)
    decreases n, 1
  {
    s != map[] ==> n > 0 && RefFits(root, s, active, n - 1) && RestFits(root, s, active, n - 1)
  }

  ghost predicate RestFits(root: Schema, s: Schema, active: set<string>, n: nat)
    decreases n, 3
  {
    && ListFits(root, ListOf(s, "allOf"), active, n)
    && ListFits(root, ListOf(s, "oneOf"), active, n)
    && ListFits(root, ListOf(s, "anyOf"), active, n)
    && PropertiesFit(root, s, active, n)
    && Fits(root, MapValue(Get(s, "items")), active, n)
  }

  ghost predicate RefFits(root: Schema, s: Schema, active: set<string>, n: nat)
    decreases n, 2
  {
    HasRef(s) ==>
      RefOf(s) !in active && Target(root, s) != map[] && Fits(root, Target(root, s), active + {RefOf(s)}, n)
  }

  ghost predicate ListFits(root: Schema, items: seq<Json>, active: set<string>, n: nat)
    decreases n, 2
  {
    forall item <- items :: Fits(root, MapValue(item), active, n)
  }

  ghost predicate PropertiesFit(root: Schema, s: Schema, active: set<string>, n: nat)
    decreases n, 2
  {
    forall name <- PropertiesOf(s) ::
      BranchOffers(root, s, name, n) || Fits(root, MapValue(PropertiesOf(s)[name]), active, n)
  }

  /** A `oneOf` or `anyOf` list with branches is visited. */
  ghost predicate Chooses(root: Schema, s: Schema, n: nat)
    decreases n, 0
  {
    s != map[] && n > 0 && (RefChooses(root, s, n - 1) || RestChooses(root, s, n - 1))
  }

  ghost predicate RefChooses(root: Schema, s: Schema, n: nat)
    decreases n, 1
  {
    HasRef(s) && Chooses(root, Target(root, s), n)
  }

  ghost predicate RestChooses(root: Schema, s: Schema, n: nat)
    decreases n, 2
  {
    || ListOf(s, "oneOf") != [] || ListOf(s, "anyOf") != []
    || ListChooses(root, ListOf(s, "allOf"), n)
    || PropertiesChoose(root, s, n)
    || Chooses(root, MapValue(Get(s, "items")), n)
  }

  ghost predicate ListChooses(root: Schema, items: seq<Json>, n: nat)
    decreases n, 1
  {
    exists item <- items :: Chooses(root, MapValue(item), n)
  }

  ghost predicate PropertiesChoose(root: Schema, s: Schema, n: nat)
    decreases n, 1
  {
    exists name <- PropertiesOf(s) ::
      !BranchOffers(root, s, name, n) && Chooses(root, MapValue(PropertiesOf(s)[name]), n)
  }

  // ---------------------------------------------------------------- first and last

  lemma {:induction false} FirstAppends(a: seq<Schema>, b: seq<Schema>, key: string)
    ensures First(a + b, key) == Or(First(a, key), First(b, key))
  {
    if a == [] {
      assert a + b == b;
    } else {
      FirstAppends(a[1..], b, key);
      assert (a + b)[0] == a[0] && (a + b)[1..] == a[1..] + b;
    }
  }

  lemma {:induction false} LastAppends(a: seq<Schema>, b: seq<Schema>, name: string)
    ensures Last(a + b, name) == Or(Last(b, name), Last(a, name))
  {
    hide Prop;
    if a == [] {
      assert a + b == b;
    } else {
      LastAppends(a[1..], b, name);
      assert (a + b)[0] == a[0] && (a + b)[1..] == a[1..] + b;
    }
  }

  lemma {:induction false} FirstIn(qs: seq<Schema>, key: string)
    ensures match First(qs, key)
            case None => forall q <- qs :: key !in q
            case Some(v) => exists q <- qs :: At(q, key) == Some(v)
  {
    if qs != [] {
      FirstIn(qs[1..], key);
      assert qs[0] in qs;
    }
  }

  lemma {:induction false} LastIn(qs: seq<Schema>, name: string)
    ensures match Last(qs, name)
            case None => forall q <- qs :: name !in PropertiesOf(q)
            case Some(v) => exists q <- qs :: Prop(q, name) == Some(v)
  {
    hide PropertiesOf;
    if qs != [] {
      LastIn(qs[1..], name);
      assert qs[0] in qs;
    }
  }

  // ---------------------------------------------------------------- results are expanded

  lemma {:induction false} WithinGrows(j: Json, m: int, n: int)
    requires Within(j, m) && m <= n
    ensures Within(j, n)
    decreases j
  {
    if j.Obj? && j.fields != map[] {
      forall name <- PropertiesOf(j.fields) ensures Within(PropertiesOf(j.fields)[name], n - 1) {
        WithinGrows(PropertiesOf(j.fields)[name], m - 1, n - 1);
      }
      if "items" in j.fields {
        WithinGrows(j.fields["items"], m - 1, n - 1);
      }
    }
  }

  /** An expanded value, at most `n` levels deep. */
  ghost predicate Good(j: Json, n: int) {
    Expanded(j) && Within(j, n)
  }

  ghost predicate AllGood(qs: seq<Schema>, n: int) {
    forall q <- qs :: Good(Obj(q), n)
  }

  lemma GoodParts(q: Schema, n: int)
    requires Good(Obj(q), n)
    ensures NoLocalRef(q) && NoLists(q)
    ensures forall name <- PropertiesOf(q) :: PropertiesOf(q)[name].Obj? && Good(PropertiesOf(q)[name], n)
    ensures "items" in q ==> Good(q["items"], n)
  {
    hide Expanded, Within, NoLocalRef, NoLists;
    GoodUnfolds(q, n);
    forall name <- PropertiesOf(q) ensures Good(PropertiesOf(q)[name], n) {
      WithinGrows(PropertiesOf(q)[name], n - 1, n);
    }
    if "items" in q {
      WithinGrows(q["items"], n - 1, n);
    }
  }

  lemma GoodUnfolds(q: Schema, n: int)
    requires Good(Obj(q), n)
    ensures NoLocalRef(q) && NoLists(q)
    ensures forall name <- PropertiesOf(q) ::
              && PropertiesOf(q)[name].Obj? && Expanded(PropertiesOf(q)[name])
              && Within(PropertiesOf(q)[name], n - 1)
    ensures "items" in q ==> Expanded(q["items"]) && Within(q["items"], n - 1)
  {
    hide NoLocalRef, NoLists;
    assert Expanded(Obj(q)) && Within(Obj(q), n);
    assert Obj(q).fields == q;
  }

  /** What branches pass on of a property, of items and of references. */
  lemma AllGoodGive(qs: seq<Schema>, name: string, n: int)
    requires AllGood(qs, n)
    ensures Last(qs, name).Some? ==> Last(qs, name).value.Obj? && Good(Last(qs, name).value, n)
    ensures First(qs, "items").Some? ==> Good(First(qs, "items").value, n)
    ensures First(qs, "$ref").Some? ==> !IsLocal(StringValue(First(qs, "$ref").value))
  {
    hide Good, First, Last, IsLocal, StringValue;
    forall q <- qs
      ensures NoLocalRef(q) && ("items" in q ==> Good(q["items"], n))
      ensures forall name <- PropertiesOf(q) :: PropertiesOf(q)[name].Obj? && Good(PropertiesOf(q)[name], n)
    {
      GoodParts(q, n);
    }
    LastIn(qs, name);
    FirstIn(qs, "items");
    FirstIn(qs, "$ref");
  }

  lemma {:induction false} SaysGood(root: Schema, s: Schema, out: Schema, n: nat)
    requires Says(root, s, out, n)
    ensures Good(Obj(out), n - 1)
    decreases n, 0
  {
    hide Good, Explained;
    if s == map[] {
      EmptyGood(n - 1);
    } else {
      ExplainedGood(root, s, out, n - 1);
    }
  }

  lemma EmptyGood(n: int)
    ensures Good(Obj(map[]), n)
  {
    EmptyExpanded(n);
  }

  lemma {:induction false} ExplainedGood(root: Schema, s: Schema, out: Schema, n: nat)
    requires Explained(root, s, out, n)
    ensures Good(Obj(out), n)
    decreases n, 2, 1
  {
    hide PartsSay, Holds;
    var p: Parts :| PartsSay(root, s, p, n) && Holds(root, s, p, out, n);
    PartsGood(root, s, p, n);
    HoldsGood(root, s, p, out, n);
  }

  lemma {:induction false} PartsGood(root: Schema, s: Schema, p: Parts, n: nat)
    requires PartsSay(root, s, p, n)
    ensures Good(Obj(p.base), n - 1) && AllGood(p.alls, n - 1) && AllGood(p.ones, n - 1) && AllGood(p.anys, n - 1)
    ensures AllGood(p.Branches(), n - 1) && AllGood([p.base] + p.Branches(), n - 1)
    decreases n, 2, 0
  {
    hide Good, Says, Target, HasRef;
    EmptyGood(n - 1);
    if HasRef(s) {
      SaysGood(root, Target(root, s), p.base, n);
    }
    ListGood(root, ListOf(s, "allOf"), p.alls, n);
    ListGood(root, ListOf(s, "oneOf"), p.ones, n);
    ListGood(root, ListOf(s, "anyOf"), p.anys, n);
  }

  lemma {:induction false} ListGood(root: Schema, items: seq<Json>, outs: seq<Schema>, n: nat)
    requires ListSays(root, items, outs, n)
    ensures AllGood(outs, n - 1)
    decreases n, 1, 1
  {
    hide Good, Says;
    forall q <- outs ensures Good(Obj(q), n - 1) {
      var i :| 0 <= i < |outs| && q == outs[i];
      SaysGood(root, MapValue(items[i]), outs[i], n);
    }
  }

  lemma {:induction false} HoldsGood(root: Schema, s: Schema, p: Parts, out: Schema, n: nat)
    requires Holds(root, s, p, out, n)
    requires Good(Obj(p.base), n - 1) && AllGood(p.Branches(), n - 1) && AllGood([p.base] + p.Branches(), n - 1)
    ensures Good(Obj(out), n)
    decreases n, 2, 0
  {
    hide Good, AllGood, Says, First, Last, Prop, IsLocal, StringValue, NoLists;
    forall name <- PropertiesOf(out)
      ensures PropertiesOf(out)[name].Obj? && Good(PropertiesOf(out)[name], n - 1)
    {
      PropertyGood(root, s, p, out, name, n);
    }
    AllGoodGive([p.base] + p.Branches(), "", n - 1);
    if "items" in out {
      ItemsGood(root, s, p, out, n);
    }
    assert HoldsKeyword(s, p, out, "$ref");
    NotLocal(s, [p.base] + p.Branches(), out);
    GoodFolds(out, n);
  }

  lemma NotLocal(s: Schema, qs: seq<Schema>, out: Schema)
    requires First(qs, "$ref").Some? ==> !IsLocal(StringValue(First(qs, "$ref").value))
    requires At(out, "$ref") == if Own(s, "$ref") then Some(s["$ref"]) else First(qs, "$ref")
    ensures NoLocalRef(out)
  {
    hide First, IsLocal;
    assert !IsLocal(StringValue(Null)) by { NoneLocal(); }
  }

  lemma NoneLocal()
    ensures !IsLocal(StringValue(Null))
  {
  }

  lemma GoodFolds(out: Schema, n: nat)
    requires NoLocalRef(out) && NoLists(out)
    requires forall name <- PropertiesOf(out) :: PropertiesOf(out)[name].Obj? && Good(PropertiesOf(out)[name], n - 1)
    requires "items" in out ==> Good(out["items"], n - 1)
    ensures Good(Obj(out), n)
  {
    hide NoLocalRef, NoLists;
    assert Obj(out).fields == out;
  }

  lemma {:induction false} PropertyGood(root: Schema, s: Schema, p: Parts, out: Schema, name: string, n: nat)
    requires HoldsProperty(root, s, p, out, name, n) && name in PropertiesOf(out)
    requires Good(Obj(p.base), n - 1) && AllGood(p.Branches(), n - 1)
    ensures PropertiesOf(out)[name].Obj? && Good(PropertiesOf(out)[name], n - 1)
    decreases n, 1, 1
  {
    hide Good, AllGood, Says, Last;
    AllGoodGive(p.Branches(), name, n - 1);
    GoodParts(p.base, n - 1);
    if Last(p.Branches(), name).None? && "properties" in s {
      SaysGood(root, MapValue(PropertiesOf(s)[name]), PropertiesOf(out)[name].fields, n);
    }
  }

  lemma {:induction false} ItemsGood(root: Schema, s: Schema, p: Parts, out: Schema, n: nat)
    requires HoldsItems(root, s, p, out, n) && "items" in out
    requires AllGood([p.base] + p.Branches(), n - 1)
    ensures Good(out["items"], n - 1)
    decreases n, 1, 1
  {
    hide Good, AllGood, Says, First;
    AllGoodGive([p.base] + p.Branches(), "", n - 1);
    if "items" in s {
      if MapValue(s["items"]) == map[] {
        ScalarGood(s["items"], n - 1);
      } else {
        SaysGood(root, MapValue(s["items"]), out["items"].fields, n);
      }
    }
  }

  lemma ScalarGood(j: Json, n: int)
    requires MapValue(j) == map[]
    ensures Good(j, n)
  {
    ScalarExpanded(j, n);
  }

  // ---------------------------------------------------------------- results read off the document

  /** The properties of a result are those that are offered. */
  lemma {:induction false} SaysOffers(root: Schema, s: Schema, out: Schema, name: string, n: nat)
    requires Says(root, s, out, n)
    ensures name in PropertiesOf(out) <==> Offers(root, s, name, n)
    decreases n, 1
  {
    hide RefSays, ListSays, Holds, BranchOffers, Target, HasRef;
    if s == map[] {
      NothingOffered(root, name, n);
    } else {
      var p: Parts :| PartsSay(root, s, p, n - 1) && Holds(root, s, p, out, n - 1);
      PropertySaid(root, s, p, out, name, n - 1);
      BranchesOffer(root, s, p, name, n - 1);
      if "properties" !in s {
        BaseOffers(root, s, p.base, name, n - 1);
      }
    }
  }

  lemma NothingOffered(root: Schema, name: string, n: nat)
    ensures !Offers(root, map[], name, n)
  {
    assert AllBranches(map[]) == [] && StringValue(Null) == "";
  }

  lemma PropertySaid(root: Schema, s: Schema, p: Parts, out: Schema, name: string, n: nat)
    requires Holds(root, s, p, out, n)
    ensures name in PropertiesOf(out) <==>
              || Last(p.Branches(), name).Some?
              || name in PropertiesOf(if "properties" in s then s else p.base)
  {
    hide Says, Last;
    assert HoldsProperty(root, s, p, out, name, n);
  }

  lemma {:induction false} BaseOffers(root: Schema, s: Schema, base: Schema, name: string, n: nat)
    requires RefSays(root, s, base, n)
    ensures name in PropertiesOf(base) <==> HasRef(s) && Offers(root, Target(root, s), name, n)
    decreases n, 2
  {
    hide Says, Offers, Target, HasRef;
    if HasRef(s) {
      SaysOffers(root, Target(root, s), base, name, n);
    }
  }

  lemma {:induction false} BranchesOffer(root: Schema, s: Schema, p: Parts, name: string, n: nat)
    requires PartsSay(root, s, p, n)
    ensures Last(p.Branches(), name).Some? <==> BranchOffers(root, s, name, n)
    decreases n, 2
  {
    hide Says, Offers, Last;
    var branches, outs := AllBranches(s), p.Branches();
    AllSay(root, s, p, n);
    forall i | 0 <= i < |branches|
      ensures name in PropertiesOf(outs[i]) <==> Offers(root, MapValue(branches[i]), name, n)
    {
      SaysOffers(root, MapValue(branches[i]), outs[i], name, n);
    }
    LastIn(outs, name);
    if Last(outs, name).Some? {
      var q :| q in outs && Prop(q, name) == Last(outs, name);
      var i :| 0 <= i < |outs| && outs[i] == q;
      assert branches[i] in branches;
    }
    if BranchOffers(root, s, name, n) {
      var b :| b in branches && Offers(root, MapValue(b), name, n);
      var i :| 0 <= i < |branches| && branches[i] == b;
      assert outs[i] in outs;
    }
  }

  lemma AllSay(root: Schema, s: Schema, p: Parts, n: nat)
    requires PartsSay(root, s, p, n)
    ensures ListSays(root, AllBranches(s), p.Branches(), n)
  {
    hide Says;
  }

  /** The required names of a result are those that are demanded. */
  lemma {:induction false} SaysDemands(root: Schema, s: Schema, out: Schema, x: string, n: nat)
    requires Says(root, s, out, n)
    ensures Names(Get(out, "required"), x) <==> Demands(root, s, x, n)
    decreases n, 1
  {
    hide RefSays, ListSays, Holds, Target, HasRef, Names;
    if s == map[] {
      NothingDemanded(root, x, n);
    } else {
      var p: Parts :| PartsSay(root, s, p, n - 1) && Holds(root, s, p, out, n - 1);
      RequiredSaid(root, s, p, out, x, n - 1);
      ListDemands(root, ListOf(s, "allOf"), p.alls, x, n - 1);
      if "required" !in s {
        BaseDemands(root, s, p.base, x, n - 1);
      }
    }
  }

  lemma NothingDemanded(root: Schema, x: string, n: nat)
    ensures !Demands(root, map[], x, n) && !Names(Null, x)
  {
    assert ListOf(map[], "allOf") == [] && StringValue(Null) == "" && TrimSpace("") == "";
  }

  lemma RequiredSaid(root: Schema, s: Schema, p: Parts, out: Schema, x: string, n: nat)
    requires Holds(root, s, p, out, n)
    ensures HoldsRequired(s, p, out, x)
  {
  }

  lemma {:induction false} BaseDemands(root: Schema, s: Schema, base: Schema, x: string, n: nat)
    requires RefSays(root, s, base, n)
    ensures Names(Get(base, "required"), x) <==> HasRef(s) && Demands(root, Target(root, s), x, n)
    decreases n, 2
  {
    hide Says, Demands, Target, HasRef, Names;
    if HasRef(s) {
      SaysDemands(root, Target(root, s), base, x, n);
    } else {
      NothingDemanded(root, x, n);
    }
  }

  lemma {:induction false} ListDemands(root: Schema, items: seq<Json>, outs: seq<Schema>, x: string, n: nat)
    requires ListSays(root, items, outs, n)
    ensures (exists q <- outs :: Names(Get(q, "required"), x)) <==>
            (exists b <- items :: Demands(root, MapValue(b), x, n))
    decreases n, 2
  {
    hide Says, Demands, Names;
    forall i | 0 <= i < |items|
      ensures Names(Get(outs[i], "required"), x) <==> Demands(root, MapValue(items[i]), x, n)
    {
      SaysDemands(root, MapValue(items[i]), outs[i], x, n);
    }
    if q :| q in outs && Names(Get(q, "required"), x) {
      var i :| 0 <= i < |outs| && outs[i] == q;
      assert items[i] in items;
    }
    if b :| b in items && Demands(root, MapValue(b), x, n) {
      var i :| 0 <= i < |items| && items[i] == b;
      assert outs[i] in outs;
    }
  }

  /** Every other keyword is the first one found: in the schema, its target, its branches. */
  lemma {:induction false} SaysKeyword(root: Schema, s: Schema, out: Schema, key: string, n: nat)
    requires Says(root, s, out, n) && !Special(key)
    ensures At(out, key) == Keyword(root, s, key, n)
    decreases n, 1
  {
    hide RefSays, ListSays, Holds, Target, HasRef, Own, BranchKeyword;
    if s == map[] {
      NothingFound(root, key, n);
    } else {
      var p: Parts :| PartsSay(root, s, p, n - 1) && Holds(root, s, p, out, n - 1);
      KeywordSaid(root, s, p, out, key, n - 1);
      if !Own(s, key) {
        FirstAppends([p.base], p.Branches(), key);
        BaseKeyword(root, s, p.base, key, n - 1);
        AllSay(root, s, p, n - 1);
        ListKeyword(root, AllBranches(s), p.Branches(), key, n - 1);
        assert First([p.base], key) == At(p.base, key);
      }
    }
  }

  lemma NothingFound(root: Schema, key: string, n: nat)
    ensures Keyword(root, map[], key, n) == None
  {
    assert AllBranches(map[]) == [] && StringValue(Null) == "";
  }

  lemma KeywordSaid(root: Schema, s: Schema, p: Parts, out: Schema, key: string, n: nat)
    requires Holds(root, s, p, out, n)
    ensures HoldsKeyword(s, p, out, key)
  {
  }

  lemma {:induction false} BaseKeyword(root: Schema, s: Schema, base: Schema, key: string, n: nat)
    requires RefSays(root, s, base, n) && !Special(key)
    ensures At(base, key) == if HasRef(s) then Keyword(root, Target(root, s), key, n) else None
    decreases n, 2
  {
    hide Says, Keyword, Target, HasRef;
    if HasRef(s) {
      SaysKeyword(root, Target(root, s), base, key, n);
    }
  }

  lemma {:induction false} ListKeyword(root: Schema, items: seq<Json>, outs: seq<Schema>, key: string, n: nat)
    requires ListSays(root, items, outs, n) && !Special(key)
    ensures First(outs, key) == BranchKeyword(root, items, key, n)
    decreases n, 2, |items|
  {
    hide Says, Keyword;
    if items != [] {
      assert Says(root, MapValue(items[0]), outs[0], n);
      SaysKeyword(root, MapValue(items[0]), outs[0], key, n);
      ListKeyword(root, items[1..], outs[1..], key, n);
    }
  }
}
