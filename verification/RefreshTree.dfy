/** A decoded document in memory: maps and lists that refer to each other as a tree. */
module RefreshTree {
  import opened Json
  import opened RefreshProofs
  import opened RefreshSpec
  import opened Text

  /** A scalar, or a reference to a map or a list. */
  datatype Value = Leaf(json: Json) | Ref(node: Node)

  class Node {
    const isList: bool
    var fields: map<string, Value>
    const items: seq<Value>
    ghost var repr: set<Node>

    /** A new empty map. */
    constructor ()
      ensures Valid() && fresh(repr) && Model() == Obj(map[]) && !isList && repr == {this}
    {
      isList := false;
      fields := map[];
      items := [];
      repr := {this};
    }

    ghost predicate Owns(v: Value)
      reads this, repr
      decreases repr, 0
    {
      match v
      case Leaf(json) => Scalar(json)
      case Ref(c) => this in repr && c in repr && c.repr <= repr - {this} && c.Valid()
    }

    /** Two values share no node. */
    ghost predicate Apart(a: Value, b: Value)
      requires Held(a) && Held(b)
      reads this, repr
    {
      a.Ref? && b.Ref? ==> a.node.repr !! b.node.repr
    }

    ghost predicate Held(v: Value)
      reads this
    {
      v.Ref? ==> v.node in repr
    }

    ghost predicate Valid()
      reads this, repr
      decreases repr, 1
    {
      && this in repr
      && (isList ==> fields == map[]) && (!isList ==> items == [])
      && (forall k <- fields.Keys :: Owns(fields[k]))
      && (forall i :: 0 <= i < |items| ==> Owns(items[i]))
      && (forall j, k :: j in fields && k in fields && j != k ==> Apart(fields[j], fields[k]))
      && (forall i, j :: 0 <= i < j < |items| ==> Apart(items[i], items[j]))
    }

    ghost function Model(): Json
      requires Valid()
      reads this, repr
      decreases repr, 1
    {
      if isList
        then Arr(seq(|items|, i requires 0 <= i < |items| && Owns(items[i]) reads this, repr => ModelOf(items[i])))
      else Obj(map k | k in fields.Keys :: ModelOf(fields[k]))
    }

    ghost function ModelOf(v: Value): Json
      requires Owns(v)
      reads this, repr
      decreases repr, 0
    {
      match v
      case Leaf(json) => json
      case Ref(c) => c.Model()
    }

    /** The scalar under a key; null when there is none. */
    function At(k: string): (j: Json)
      requires Valid() && !isList
      reads this, repr
      ensures Scalar(j)
      ensures Get(Model().fields, k) == j || (!Scalar(Get(Model().fields, k)) && j == Bool(true))
    {
      ModelFields();
      if k !in fields then Null
      else
        ValueShape(fields[k]);
        if fields[k].Leaf? then fields[k].json else Bool(true)
    }

    lemma ModelFields()
      requires Valid() && !isList
      ensures Model().Obj? && Model().fields.Keys == fields.Keys
      ensures forall k <- fields.Keys :: Owns(fields[k]) && Model().fields[k] == ModelOf(fields[k])
    {
      hide Owns;
    }

    lemma ModelItems()
      requires Valid() && isList
      ensures Model().Arr? && |Model().items| == |items|
      ensures forall i :: 0 <= i < |items| ==> Owns(items[i]) && Model().items[i] == ModelOf(items[i])
    {
      hide Owns;
    }

    lemma ValueShape(v: Value)
      requires Owns(v)
      ensures v.Ref? ==> !Scalar(ModelOf(v))
      ensures v.Leaf? ==> Scalar(v.json) && ModelOf(v) == v.json
    {
      if v.Ref? {
        v.node.Shape();
      }
    }

    lemma FieldsOwned()
      requires Valid()
      ensures this in repr && (!isList ==> items == []) && (isList ==> fields == map[])
      ensures forall k <- fields.Keys :: Owns(fields[k])
      ensures forall i :: 0 <= i < |items| ==> Owns(items[i])
      ensures forall j, k :: j in fields && k in fields && j != k ==>
                Held(fields[j]) && Held(fields[k]) && Apart(fields[j], fields[k])
      ensures forall i, j :: 0 <= i < j < |items| ==> Held(items[i]) && Held(items[j]) && Apart(items[i], items[j])
    {
      assert forall i :: 0 <= i < |items| ==> Owns(items[i]);
      forall i | 0 <= i < |items| ensures Held(items[i]) {
        OwnedHeld(items[i]);
      }
    }

    lemma OwnedHeld(v: Value)
      requires Owns(v)
      ensures Held(v) && (v.Ref? ==> this in repr && v.node.repr <= repr - {this} && v.node.Valid())
    {
    }

    /** Every tree below this map is its own, and shares no node with the one under `k`. */
    lemma Siblings(k: string)
      requires Valid() && k in fields && fields[k].Ref?
      ensures Held(fields[k])
      ensures forall j <- fields.Keys :: Held(fields[j]) && (fields[j].Ref? ==> fields[j].node.repr <= repr - {this})
      ensures forall j <- fields.Keys :: j != k && fields[j].Ref? ==> fields[j].node.repr !! fields[k].node.repr
    {
      hide Valid, Owns;
      FieldsOwned();
      forall j <- fields.Keys
        ensures Held(fields[j]) && (fields[j].Ref? ==> fields[j].node.repr <= repr - {this})
        ensures j != k && fields[j].Ref? ==> fields[j].node.repr !! fields[k].node.repr
      {
        OwnedHeld(fields[j]);
        assert j != k ==> Apart(fields[j], fields[k]);
      }
    }

    lemma MakeValid()
      requires this in repr && (!isList ==> items == []) && (isList ==> fields == map[])
      requires forall k <- fields.Keys :: Owns(fields[k])
      requires forall i :: 0 <= i < |items| ==> Owns(items[i])
      requires forall j, k :: j in fields && k in fields && j != k ==>
                 Held(fields[j]) && Held(fields[k]) && Apart(fields[j], fields[k])
      requires forall i, j :: 0 <= i < j < |items| ==> Held(items[i]) && Held(items[j]) && Apart(items[i], items[j])
      ensures Valid()
    {
    }

    /** A value whose nodes did not change is what it was. */
    twostate lemma Kept(v: Value)
      requires old(Owns(v))
      requires v.Ref? ==> this in repr && v.node in repr && old(v.node.repr) <= repr - {this}
      requires v.Ref? ==> forall x <- old(v.node.repr) :: unchanged(x)
      ensures Owns(v) && ModelOf(v) == old(ModelOf(v)) && (v.Ref? ==> v.node.repr == old(v.node.repr))
    {
      hide Model;
      if v.Ref? {
        assert old(v.node.Valid());
        assert v.node in old(v.node.repr);
      }
    }

    lemma Shape()
      requires Valid()
      ensures Model().Obj? || Model().Arr?
    {
    }

    lemma NewOwned(c: Node)
      requires this in repr && c in repr && c.repr <= repr - {this} && c.Valid()
      ensures Owns(Ref(c)) && ModelOf(Ref(c)) == c.Model()
    {
      hide Model;
    }

    method Put(k: string, json: Json)
      requires Valid() && !isList && Scalar(json)
      modifies this`fields
      ensures Valid() && Model() == Obj(old(Model().fields)[k := json])
    {
      ModelFields();
      ghost var before := Model().fields;
      FieldsOwned();
      fields := fields[k := Leaf(json)];
      forall j <- fields.Keys ensures Owns(fields[j]) && ModelOf(fields[j]) == before[k := json][j] {
        if j != k {
          Kept(fields[j]);
        }
      }
      MakeValid();
      ModelFields();
      assert Model().fields == before[k := json];
    }

    method Delete(k: string)
      requires Valid() && !isList
      modifies this`fields
      ensures Valid() && Model() == Obj(old(Model().fields) - {k})
    {
      hide Valid, Model;
      ModelFields();
      ghost var before := Model().fields;
      FieldsOwned();
      fields := fields - {k};
      forall j <- fields.Keys ensures Owns(fields[j]) && ModelOf(fields[j]) == before[j] {
        Kept(fields[j]);
      }
      MakeValid();
      ModelFields();
      assert Model().fields == before - {k};
    }

    /** Puts a tree that shares no node with this one under a key. */
    method Attach(k: string, c: Node)
      requires Valid() && !isList && c.Valid() && c.repr !! repr
      modifies this`fields, this`repr
      ensures Valid() && repr == old(repr) + c.repr && c.repr == old(c.repr)
      ensures c.Valid() && c.Model() == old(c.Model())
      ensures old(Model()).Obj? && Model() == Obj(old(Model()).fields[k := c.Model()])
      ensures fields == old(fields)[k := Ref(c)]
    {
      hide Valid, Model, Owns;
      ModelFields();
      c.FieldsOwned();
      ghost var before, tree := Model().fields, c.Model();
      FieldsOwned();
      forall j <- fields.Keys
        ensures fields[j].Ref? ==> fields[j].node in repr && fields[j].node.repr <= repr - {this}
      {
        OwnedHeld(fields[j]);
      }
      ghost var held := repr;
      fields := fields[k := Ref(c)];
      repr := repr + c.repr;
      c.SameTree(c.repr);
      forall j <- fields.Keys
        ensures Owns(fields[j]) && Held(fields[j]) && ModelOf(fields[j]) == before[k := tree][j]
        ensures j != k && fields[j].Ref? ==>
                  fields[j].node.repr == old(fields[j].node.repr) && fields[j].node.repr <= held
      {
        if j != k {
          Kept(fields[j]);
        } else {
          NewOwned(c);
        }
      }
      MakeValid();
      ModelFields();
      assert Model().fields == before[k := tree];
    }

    /** A tree whose nodes did not change is what it was. */
    twostate lemma SameTree(nodes: set<Node>)
      requires old(Valid()) && old(repr) == nodes && forall x <- nodes :: unchanged(x)
      ensures Valid() && Model() == old(Model()) && repr == old(repr)
    {
      assert this in nodes;
    }
  }

  predicate Scalar(j: Json) {
    !j.Obj? && !j.Arr?
  }

  lemma LeafCorrected(rule: Rule, v: Json)
    requires Scalar(v)
    ensures Corrected(rule, v) == v
  {
  }

  lemma FieldsNested(f: Schema, d: nat)
    requires Nested(Obj(f), d)
    ensures forall k <- f.Keys :: d > 0 && Nested(f[k], d - 1)
  {
  }

  lemma ItemsNested(items: seq<Json>, d: nat)
    requires Nested(Arr(items), d)
    ensures forall x <- items :: d > 0 && Nested(x, d - 1)
  {
  }

  lemma ChildModel(n: Node, c: Node)
    requires n.Owns(Ref(c))
    ensures c.Valid() && n.ModelOf(Ref(c)) == c.Model()
  {
    hide Node.Model;
  }

  class Correction {
    const rule: Rule
    var changed: bool

    constructor (rule: Rule)
      ensures this.rule == rule && !changed
    {
      this.rule := rule;
      changed := false;
    }

    /** The walk below one key; what the other keys hold stays as it is. */
    method WalkField(n: Node, k: string, ghost d: nat)
      requires n.Valid() && !n.isList && k in n.fields && n.fields[k].Ref?
      requires n.Owns(n.fields[k]) && Nested(n.ModelOf(n.fields[k]), d)
      modifies this, n.repr
      ensures n.Valid() && n.fields == old(n.fields) && fresh(n.repr - old(n.repr))
      ensures forall j <- n.fields.Keys :: old(n.Owns(n.fields[j])) && n.Owns(n.fields[j])
                && n.ModelOf(n.fields[j])
                   == if j == k then Corrected(rule, old(n.ModelOf(n.fields[k]))) else old(n.ModelOf(n.fields[j]))
      ensures changed == (old(changed) || n.ModelOf(n.fields[k]) != old(n.ModelOf(n.fields[k])))
      decreases d, 2
    {
      hide Corrected, Nested, Node.Valid, Node.Model, Node.Owns, Node.ModelOf;
      var c := n.fields[k].node;
      n.FieldsOwned();
      n.OwnedHeld(n.fields[k]);
      ChildModel(n, c);
      ghost var held, own := n.repr, c.repr;
      n.Siblings(k);
      Walk(c, d);
      n.repr := n.repr + c.repr;
      forall j <- n.fields.Keys
        ensures n.Owns(n.fields[j]) && n.Held(n.fields[j])
        ensures j != k ==> n.ModelOf(n.fields[j]) == old(n.ModelOf(n.fields[j]))
        ensures j != k && n.fields[j].Ref? ==> n.fields[j].node.repr == old(n.fields[j].node.repr)
      {
        if j != k {
          n.Kept(n.fields[j]);
        } else {
          n.NewOwned(c);
        }
      }
      n.NewOwned(c);
      assert fresh(c.repr - own);
      forall i, j | i in n.fields && j in n.fields && i != j ensures n.Apart(n.fields[i], n.fields[j]) {
        assert old(n.Apart(n.fields[i], n.fields[j]));
      }
      n.MakeValid();
    }

    /** The loop over the fields of a map, in any order. */
    method WalkFields(n: Node, ghost d: nat)
      requires n.Valid() && !n.isList && Nested(n.Model(), d)
      modifies this, n.repr
      ensures n.Valid() && fresh(n.repr - old(n.repr))
      ensures old(n.Model()).Obj? && n.Model() == Obj(Children(rule, old(n.Model()).fields))
      ensures changed == (old(changed) || n.Model() != old(n.Model()))
      decreases d, 0
    {
      hide Corrected, Nested, Node.Valid, Node.Model, Node.Owns, Node.ModelOf;
      n.ModelFields();
      ghost var before := n.Model().fields;
      FieldsNested(before, d);
      var rest := n.fields.Keys;
      while rest != {}
        invariant n.Valid() && fresh(n.repr - old(n.repr)) && n.fields == old(n.fields)
        invariant rest <= n.fields.Keys
        invariant forall k <- n.fields.Keys :: n.Owns(n.fields[k])
                    && n.ModelOf(n.fields[k]) == if k in rest then before[k] else Corrected(rule, before[k])
        invariant changed == (old(changed)
                              || exists k <- before.Keys :: k !in rest && Corrected(rule, before[k]) != before[k])
        decreases |rest|
      {
        var k: string :| k in rest;
        n.ValueShape(n.fields[k]);
        match n.fields[k] {
          case Leaf(json) => LeafCorrected(rule, json);
          case Ref(_) => WalkField(n, k, d - 1);
        }
        rest := rest - {k};
      }
      n.ModelFields();
      assert n.Model().fields == Children(rule, before);
    }

    method WalkItem(n: Node, k: nat, ghost d: nat)
      requires n.Valid() && n.isList && k < |n.items| && n.items[k].Ref?
      requires n.Owns(n.items[k]) && Nested(n.ModelOf(n.items[k]), d)
      modifies this, n.repr
      ensures n.Valid() && fresh(n.repr - old(n.repr))
      ensures forall j | 0 <= j < |n.items| :: old(n.Owns(n.items[j])) && n.Owns(n.items[j])
                && n.ModelOf(n.items[j])
                   == if j == k then Corrected(rule, old(n.ModelOf(n.items[k]))) else old(n.ModelOf(n.items[j]))
      ensures changed == (old(changed) || n.ModelOf(n.items[k]) != old(n.ModelOf(n.items[k])))
      decreases d, 2
    {
      hide Corrected, Nested, Node.Valid, Node.Model, Node.Owns, Node.ModelOf;
      var c := n.items[k].node;
      n.FieldsOwned();
      n.OwnedHeld(n.items[k]);
      ChildModel(n, c);
      ghost var held, own := n.repr, c.repr;
      forall j | 0 <= j < |n.items|
        ensures n.Held(n.items[j]) && (n.items[j].Ref? ==> n.items[j].node.repr <= held - {n})
        ensures j != k && n.items[j].Ref? ==> n.items[j].node.repr !! own
      {
        n.OwnedHeld(n.items[j]);
        assert j < k ==> n.Apart(n.items[j], n.items[k]);
        assert k < j ==> n.Apart(n.items[k], n.items[j]);
      }
      Walk(c, d);
      n.repr := n.repr + c.repr;
      forall j | 0 <= j < |n.items|
        ensures n.Owns(n.items[j]) && n.Held(n.items[j])
        ensures j != k ==> n.ModelOf(n.items[j]) == old(n.ModelOf(n.items[j]))
        ensures j != k && n.items[j].Ref? ==> n.items[j].node.repr == old(n.items[j].node.repr)
      {
        if j != k {
          n.Kept(n.items[j]);
        } else {
          n.NewOwned(c);
        }
      }
      n.NewOwned(c);
      assert fresh(c.repr - own);
      forall i, j | 0 <= i < j < |n.items| ensures n.Apart(n.items[i], n.items[j]) {
        assert old(n.Apart(n.items[i], n.items[j]));
      }
      n.MakeValid();
    }

    method WalkItems(n: Node, ghost d: nat)
      requires n.Valid() && n.isList && Nested(n.Model(), d)
      modifies this, n.repr
      ensures n.Valid() && fresh(n.repr - old(n.repr))
      ensures n.Model() == Corrected(rule, old(n.Model()))
      ensures changed == (old(changed) || n.Model() != old(n.Model()))
      decreases d, 0
    {
      hide Corrected, Nested, Node.Valid, Node.Model, Node.Owns, Node.ModelOf;
      n.ModelItems();
      ghost var before := n.Model().items;
      ItemsNested(before, d);
      for i := 0 to |n.items|
        invariant n.Valid() && fresh(n.repr - old(n.repr))
        invariant forall k | 0 <= k < |n.items| :: n.Owns(n.items[k])
                    && n.ModelOf(n.items[k]) == if k < i then Corrected(rule, before[k]) else before[k]
        invariant changed == (old(changed) || exists k :: 0 <= k < i && Corrected(rule, before[k]) != before[k])
      {
        n.ValueShape(n.items[i]);
        match n.items[i] {
          case Leaf(json) => LeafCorrected(rule, json);
          case Ref(_) =>
            assert before[i] in before;
            WalkItem(n, i, d - 1);
        }
      }
      n.ModelItems();
      CorrectedItems(rule, before);
      assert n.Model().items == Corrected(rule, Arr(before)).items;
    }

    method PutPlaceholder(n: Node)
      requires n.Valid() && !n.isList
      modifies this, n`fields, n`repr
      ensures n.Valid() && fresh(n.repr - old(n.repr))
      ensures old(n.Model()).Obj? && n.Model() == Obj(WithPlaceholder(old(n.Model()).fields))
      ensures changed == (old(changed) || n.Model() != old(n.Model()))
    {
      hide Node.Valid, Node.Model, TrimSpace, IsExternalRef, StringOf;
      n.ModelFields();
      ghost var f := n.Model().fields;
      PlaceholderShows(f);
      var ref := StringOf(n.At("$ref"));
      StringAt(Get(f, "$ref"), n.At("$ref"));
      if ref != "" && IsExternalRef(ref) {
        n.Delete("$ref");
        n.Put("type", Str("object"));
        n.Put("additionalProperties", Bool(true));
        changed := true;
      }
    }

    method PutLocalRef(n: Node)
      requires n.Valid() && !n.isList
      modifies this, n`fields, n`repr
      ensures n.Valid() && fresh(n.repr - old(n.repr))
      ensures old(n.Model()).Obj? && n.Model() == Obj(WithLocalRef(old(n.Model()).fields))
      ensures changed == (old(changed) || n.Model() != old(n.Model()))
    {
      hide Node.Valid, Node.Model, StringOf;
      n.ModelFields();
      ghost var f := n.Model().fields;
      LocalRefShows(f);
      var ref := StringOf(n.At("$ref"));
      StringAt(Get(f, "$ref"), n.At("$ref"));
      if COMMON_PREFIX <= ref {
        n.Put("$ref", Str(LOCAL_PREFIX + ref[|COMMON_PREFIX|..]));
        changed := true;
      }
    }

    method PutDescription(n: Node)
      requires n.Valid() && !n.isList
      modifies this, n`fields, n`repr
      ensures n.Valid() && fresh(n.repr - old(n.repr))
      ensures old(n.Model()).Obj? && n.Model() == Obj(WithDescription(old(n.Model()).fields))
      ensures changed == (old(changed) || n.Model() != old(n.Model()))
    {
      hide Node.Valid, Node.Model, TrimSpace;
      n.ModelFields();
      DescriptionShows(n.Model().fields);
      var description := n.At("description");
      if description.Str? && TrimSpace(description.s) == "" {
        n.Put("description", Str("Successful response"));
        changed := true;
      }
    }

    method PutItems(n: Node)
      requires n.Valid() && !n.isList
      modifies this, n`fields, n`repr
      ensures n.Valid() && fresh(n.repr - old(n.repr))
      ensures old(n.Model()).Obj? && n.Model() == Obj(WithItems(old(n.Model()).fields))
      ensures changed == (old(changed) || n.Model() != old(n.Model()))
    {
      hide Node.Valid, Node.Model, StringOf;
      n.ModelFields();
      ghost var f := n.Model().fields;
      ItemsShows(f);
      var typ, items := n.At("type"), n.At("items");
      StringAt(Get(f, "type"), typ);
      if StringOf(typ) == "array" && items.Null? {
        var c := new Node();
        n.Attach("items", c);
        changed := true;
      }
    }

    /** The visitor: rewrites the object in place and sets the flag when it does. */
    method VisitNode(n: Node)
      requires n.Valid() && !n.isList
      modifies this, n`fields, n`repr
      ensures n.Valid() && fresh(n.repr - old(n.repr))
      ensures old(n.Model()).Obj? && n.Model() == Obj(Visit(rule, old(n.Model()).fields))
      ensures changed == (old(changed) || n.Model() != old(n.Model()))
    {
      hide Node.Valid, Node.Model, WithPlaceholder, WithLocalRef, WithDescription, WithItems;
      n.ModelFields();
      ghost var f := n.Model().fields;
      match rule {
        case Placeholder => PutPlaceholder(n);
        case HighLevel =>
          RewritesShow(f);
          PutLocalRef(n);
          PutDescription(n);
          PutItems(n);
      }
    }

    /** walkCatalogRefreshObjects: visits a map, then walks what it holds. */
    method Walk(n: Node, ghost d: nat)
      requires n.Valid() && Nested(n.Model(), d)
      modifies this, n.repr
      ensures n.Valid() && fresh(n.repr - old(n.repr))
      ensures n.Model() == Corrected(rule, old(n.Model()))
      ensures changed == (old(changed) || n.Model() != old(n.Model()))
      decreases d, 1
    {
      hide Corrected, Nested, Node.Valid, Node.Model, Visit, Children;
      if n.isList {
        WalkItems(n, d);
      } else {
        n.ModelFields();
        n.FieldsOwned();
        ghost var f := n.Model().fields;
        VisitNode(n);
        VisitNests(rule, f, d);
        n.FieldsOwned();
        WalkFields(n, d);
        FieldsCorrected(rule, f);
      }
    }
  }

  lemma StringAt(v: Json, j: Json)
    requires v == j || (!Scalar(v) && j == Bool(true))
    ensures StringOf(v) == StringOf(j)
  {
    hide TrimSpace;
  }

  lemma PlaceholderShows(f: Schema)
    ensures (var ref := StringOf(Get(f, "$ref"));
             WithPlaceholder(f) != f <==> ref != "" && IsExternalRef(ref))
  {
    hide TrimSpace, IsExternalRef;
    var ref := StringOf(Get(f, "$ref"));
    if ref != "" && IsExternalRef(ref) {
      assert "$ref" in f && "$ref" !in WithPlaceholder(f);
    }
  }

  /** The visitor changes an object exactly when one of its three rewrites does. */
  lemma RewritesShow(f: Schema)
    ensures (var f1 := WithLocalRef(f); var f2 := WithDescription(f1);
             Visit(HighLevel, f) == f <==> f1 == f && f2 == f1 && WithItems(f2) == f2)
  {
    hide TrimSpace, WithLocalRef, WithDescription, WithItems, StringOf;
    HighLevelCleanMeans(f);
    LocalRefShows(f);
    DescriptionShows(WithLocalRef(f));
    ItemsShows(WithDescription(WithLocalRef(f)));
    SameElsewhere(f);
  }

  lemma CorrectedItems(rule: Rule, items: seq<Json>)
    ensures (var c := Corrected(rule, Arr(items));
             c.Arr? && |c.items| == |items| && forall i :: 0 <= i < |items| ==> c.items[i] == Corrected(rule, items[i]))
  {
    hide Visit;
  }

  /** The object after the visit and its children's walks; it differs when either did. */
  lemma FieldsCorrected(rule: Rule, f: Schema)
    ensures Corrected(rule, Obj(f)) == Obj(Children(rule, Visit(rule, f)))
    ensures Corrected(rule, Obj(f)) == Obj(f) <==>
            && Visit(rule, f) == f && Children(rule, Visit(rule, f)) == Visit(rule, f)
  {
    hide Visit, Corrected;
    CorrectedObj(rule, f);
    VisitCommutes(rule, f);
    UnchangedExactly(rule, f);
  }

  // ---------------------------------------------------------------- the corrections

  /** applyExternalRefObjectPlaceholderCorrection: true exactly when an external reference
      was there; none is left. */
  method ApplyPlaceholder(root: Node) returns (changed: bool)
    requires root.Valid() && !root.isList
    modifies root.repr
    ensures root.Valid() && root.Model() == Corrected(Placeholder, old(root.Model()))
    ensures changed <==> HasExternal(old(root.Model()))
    ensures !HasExternal(root.Model())
  {
    hide Corrected, HasExternal, Node.Valid, Node.Model;
    var c := new Correction(Placeholder);
    PlaceholderSatisfiesChecker(root.Model());
    c.Walk(root, Depth(root.Model()));
    changed := c.changed;
  }

  /** The decoded common schemas: trees that share no node with each other.  `reprs` are
      their nodes. */
  ghost predicate Decoded(common: map<string, Node>, expected: Schema, reprs: map<string, set<Node>>)
    reads common.Values, AllOf(reprs)
  {
    && common.Keys == expected.Keys == reprs.Keys
    && (forall k <- common.Keys :: Holds(common[k], expected[k], reprs[k]))
    && NoneShared(reprs)
  }

  ghost predicate NoneShared(reprs: map<string, set<Node>>) {
    forall j, k :: j in reprs && k in reprs && j != k ==> reprs[j] !! reprs[k]
  }

  ghost function AllOf(reprs: map<string, set<Node>>): set<Node> {
    set k, x | k in reprs && x in reprs[k] :: x
  }

  ghost predicate Holds(c: Node, expected: Json, nodes: set<Node>)
    reads c, nodes
  {
    c.repr == nodes && c.Valid() && c.Model() == expected
  }

  /** The objects on a path, created where they are missing, and the common schemas in the
      last one. */
  function BundledAt(f: Schema, keys: seq<string>, common: Schema): Schema
    decreases |keys|
  {
    if keys == [] then common + f
    else f[keys[0] := Obj(BundledAt(MapValue(Get(f, keys[0])), keys[1..], common))]
  }

  /** What the last object of the path holds before. */
  function ReachedAt(f: Schema, keys: seq<string>): Schema
    decreases |keys|
  {
    if keys == [] then f else ReachedAt(MapValue(Get(f, keys[0])), keys[1..])
  }

  lemma BundledPath(root: Schema)
    ensures BundledAt(root, ["components", "schemas"], Common) == Bundled(root)
    ensures Common.Keys <= ReachedAt(root, ["components", "schemas"]).Keys <==> HasCommon(root)
  {
    assert ["components", "schemas"][1..] == ["schemas"] && ["schemas"][1..] == [];
    assert "BadRequestDTO" in Common.Keys;
  }

  /** The common schemas added so far, under what was there. */
  function Added(before: Schema, common: Schema, keys: set<string>): Schema {
    (map k | k in keys && k in common :: common[k]) + before
  }

  lemma AddedMore(before: Schema, common: Schema, keys: set<string>, k: string)
    requires k in common
    ensures (var now := Added(before, common, keys);
             && (k in now <==> k in before || k in keys)
             && Added(before, common, keys + {k}) == if k in now then now else now[k := common[k]])
    ensures k !in keys ==> (keys + {k} <= before.Keys <==> keys <= before.Keys && k in Added(before, common, keys))
  {
  }

  lemma NothingAdded(before: Schema, common: Schema)
    ensures Added(before, common, {}) == before
    ensures Added(before, common, common.Keys) == common + before
  {
    assert (map k | k in common.Keys && k in common :: common[k]) == common;
  }

  lemma HoldsMeans(c: Node, expected: Json, nodes: set<Node>)
    requires Holds(c, expected, nodes)
    ensures c.Valid() && c.repr == nodes && c.Model() == expected && c in nodes
  {
    hide Node.Model;
  }

  /** Adds one common schema unless there is one of that name. */
  method AddOne(schemas: Node, k: string, c: Node, ghost expected: Json, ghost nodes: set<Node>) returns (added: bool)
    requires schemas.Valid() && !schemas.isList && Holds(c, expected, nodes) && nodes !! schemas.repr
    modifies schemas`fields, schemas`repr
    ensures schemas.Valid() && schemas.repr <= old(schemas.repr) + nodes
    ensures old(schemas.Model()).Obj? && (added <==> k !in old(schemas.Model()).fields)
    ensures schemas.Model() == if added then Obj(old(schemas.Model()).fields[k := expected]) else old(schemas.Model())
  {
    hide Node.Valid, Node.Model, Holds;
    schemas.ModelFields();
    HoldsMeans(c, expected, nodes);
    added := k !in schemas.fields;
    if added {
      schemas.Attach(k, c);
    }
  }

  lemma StillApart(reprs: map<string, set<Node>>, j: string, k: string, held: set<Node>, now: set<Node>)
    requires NoneShared(reprs) && j in reprs && k in reprs && j != k
    requires reprs[j] !! held && now <= held + reprs[k]
    ensures reprs[j] !! now
  {
  }

  lemma DecodedAt(common: map<string, Node>, expected: Schema, reprs: map<string, set<Node>>, k: string)
    requires Decoded(common, expected, reprs) && k in common
    ensures Holds(common[k], expected[k], reprs[k]) && reprs[k] <= AllOf(reprs) && common[k] in reprs[k]
  {
    hide NoneShared, Node.Model;
  }

  /** The loop has added the schemas that are not in `rest`. */
  ghost predicate Progress(schemas: Node, common: map<string, Node>, expected: Schema, reprs: map<string, set<Node>>,
                           before: Schema, rest: set<string>)
    reads schemas, schemas.repr, common.Values, AllOf(reprs)
  {
    && common.Keys == expected.Keys == reprs.Keys && rest <= common.Keys
    && schemas.Valid() && !schemas.isList
    && schemas.Model() == Obj(Added(before, expected, expected.Keys - rest))
    && forall k <- rest :: reprs[k] <= AllOf(reprs) && common[k] in reprs[k] && reprs[k] !! schemas.repr
                           && Holds(common[k], expected[k], reprs[k])
  }

  method AddStep(schemas: Node, common: map<string, Node>, ghost expected: Schema, ghost reprs: map<string, set<Node>>,
                 ghost before: Schema, ghost rest: set<string>, k: string) returns (added: bool)
    requires Progress(schemas, common, expected, reprs, before, rest) && k in rest && NoneShared(reprs)
    modifies schemas`fields, schemas`repr
    ensures Progress(schemas, common, expected, reprs, before, rest - {k})
    ensures schemas.repr <= old(schemas.repr) + AllOf(reprs)
    ensures added <==> k !in Added(before, expected, expected.Keys - rest)
  {
    hide Node.Valid, Node.Model, Added, Holds, NoneShared, AllOf;
    ghost var held := schemas.repr;
    AddedMore(before, expected, expected.Keys - rest, k);
    schemas.FieldsOwned();
    added := AddOne(schemas, k, common[k], expected[k], reprs[k]);
    assert expected.Keys - (rest - {k}) == (expected.Keys - rest) + {k};
    forall j <- rest - {k} ensures reprs[j] !! schemas.repr && Holds(common[j], expected[j], reprs[j]) {
      StillApart(reprs, j, k, held, schemas.repr);
    }
  }

  lemma Missing(before: Schema, expected: Schema, rest: set<string>, k: string)
    requires rest <= expected.Keys && k in rest
    ensures !(expected.Keys - (rest - {k}) <= before.Keys)
       <==> !(expected.Keys - rest <= before.Keys) || k !in Added(before, expected, expected.Keys - rest)
  {
    AddedMore(before, expected, expected.Keys - rest, k);
    assert expected.Keys - (rest - {k}) == (expected.Keys - rest) + {k};
  }

  lemma Starts(schemas: Node, common: map<string, Node>, expected: Schema, reprs: map<string, set<Node>>)
    requires schemas.Valid() && !schemas.isList && Decoded(common, expected, reprs) && AllOf(reprs) !! schemas.repr
    ensures schemas.Model().Obj? && Progress(schemas, common, expected, reprs, schemas.Model().fields, common.Keys)
    ensures common.Keys == expected.Keys && NoneShared(reprs)
  {
    hide Node.Valid, Node.Model, Added, Holds, NoneShared, AllOf;
    schemas.ModelFields();
    NothingAdded(schemas.Model().fields, expected);
    assert expected.Keys - common.Keys == {};
    forall k <- common.Keys ensures common[k] in reprs[k] && reprs[k] <= AllOf(reprs) {
      DecodedAt(common, expected, reprs, k);
    }
  }

  lemma Ends(schemas: Node, common: map<string, Node>, expected: Schema, reprs: map<string, set<Node>>, before: Schema)
    requires Progress(schemas, common, expected, reprs, before, {})
    ensures schemas.Valid() && schemas.Model() == Obj(expected + before)
  {
    hide Node.Valid, Node.Model, Added;
    NothingAdded(before, expected);
    assert expected.Keys - {} == expected.Keys;
  }

  /** Adds the common schemas that are missing; true when one was. */
  method AddCommon(schemas: Node, common: map<string, Node>, ghost expected: Schema,
                   ghost reprs: map<string, set<Node>>)
    returns (added: bool)
    requires schemas.Valid() && !schemas.isList && Decoded(common, expected, reprs) && AllOf(reprs) !! schemas.repr
    modifies schemas`fields, schemas`repr
    ensures schemas.Valid() && schemas.repr <= old(schemas.repr) + AllOf(reprs)
    ensures old(schemas.Model()).Obj? && schemas.Model() == Obj(expected + old(schemas.Model()).fields)
    ensures added <==> !(expected.Keys <= old(schemas.Model()).fields.Keys)
  {
    hide Node.Valid, Node.Model, Added, Progress, Decoded, AllOf, NoneShared;
    added := false;
    Starts(schemas, common, expected, reprs);
    ghost var before := schemas.Model().fields;
    var rest := common.Keys;
    assert expected.Keys - rest == {};
    while rest != {}
      invariant rest <= common.Keys && Progress(schemas, common, expected, reprs, before, rest)
      invariant schemas.repr <= old(schemas.repr) + AllOf(reprs)
      invariant added <==> !(expected.Keys - rest <= before.Keys)
      decreases |rest|
    {
      var k: string :| k in rest;
      Missing(before, expected, rest, k);
      var one := AddStep(schemas, common, expected, reprs, before, rest, k);
      added := added || one;
      rest := rest - {k};
    }
    Ends(schemas, common, expected, reprs, before);
    assert expected.Keys - {} == expected.Keys;
  }

  lemma DecodedNodes(common: map<string, Node>, expected: Schema, reprs: map<string, set<Node>>)
    requires Decoded(common, expected, reprs)
    ensures common.Values <= AllOf(reprs)
  {
    hide Decoded, AllOf;
    forall c <- common.Values ensures c in AllOf(reprs) {
      var k :| k in common && common[k] == c;
      assert Decoded(common, expected, reprs);
      DecodedAt(common, expected, reprs, k);
    }
  }

  /** The object under a key, put there when there is none. */
  method EnsureObject(n: Node, k: string) returns (c: Node)
    requires n.Valid() && !n.isList
    modifies n`fields, n`repr
    ensures n.Valid() && fresh(n.repr - old(n.repr))
    ensures k in n.fields && n.fields[k] == Ref(c) && !c.isList
    ensures (var f := old(n.Model()).fields; n.Model() == Obj(f[k := Obj(MapValue(Get(f, k)))]))
  {
    hide Node.Valid, Node.Model, Node.Owns;
    n.ModelFields();
    ghost var f := n.Model().fields;
    if k in n.fields {
      ObjectShows(n, n.fields[k]);
    }
    if k in n.fields && n.fields[k].Ref? && !n.fields[k].node.isList {
      c := n.fields[k].node;
      assert f[k := Obj(MapValue(Get(f, k)))] == f;
    } else {
      c := new Node();
      n.Attach(k, c);
    }
  }

  lemma ObjectShows(n: Node, v: Value)
    requires n.Owns(v)
    ensures n.ModelOf(v).Obj? <==> v.Ref? && !v.node.isList
  {
  }

  /** Bundling below one key; what the other keys hold stays as it is. */
  method BundleField(n: Node, k: string, keys: seq<string>, common: map<string, Node>,
                     ghost expected: Schema, ghost reprs: map<string, set<Node>>) returns (added: bool)
    requires n.Valid() && !n.isList && k in n.fields && n.fields[k].Ref? && !n.fields[k].node.isList
    requires n.Owns(n.fields[k]) && Decoded(common, expected, reprs) && AllOf(reprs) !! n.repr
    modifies n.repr
    ensures n.Valid() && n.fields == old(n.fields) && fresh(n.repr - old(n.repr) - AllOf(reprs))
    ensures forall j <- n.fields.Keys :: old(n.Owns(n.fields[j])) && n.Owns(n.fields[j])
              && (j != k ==> n.ModelOf(n.fields[j]) == old(n.ModelOf(n.fields[j])))
    ensures old(n.ModelOf(n.fields[k])).Obj?
    ensures (var f := old(n.ModelOf(n.fields[k])).fields;
             && n.ModelOf(n.fields[k]) == Obj(BundledAt(f, keys, expected))
             && (added <==> !(expected.Keys <= ReachedAt(f, keys).Keys)))
    decreases |keys|, 1
  {
    hide Decoded, BundledAt, ReachedAt, AllOf, Node.Valid, Node.Model, Node.Owns, Node.ModelOf;
    var c := n.fields[k].node;
    n.FieldsOwned();
    n.OwnedHeld(n.fields[k]);
    ObjectShows(n, n.fields[k]);
    ChildModel(n, c);
    ghost var own := c.repr;
    n.Siblings(k);
    added := Bundle(c, keys, common, expected, reprs);
    n.repr := n.repr + c.repr;
    forall j <- n.fields.Keys
      ensures n.Owns(n.fields[j]) && n.Held(n.fields[j])
      ensures j != k ==> n.ModelOf(n.fields[j]) == old(n.ModelOf(n.fields[j]))
      ensures j != k && n.fields[j].Ref? ==> n.fields[j].node.repr == old(n.fields[j].node.repr)
    {
      if j != k {
        n.Kept(n.fields[j]);
      } else {
        n.NewOwned(c);
      }
    }
    n.NewOwned(c);
    assert fresh(c.repr - own - AllOf(reprs));
    forall i, j | i in n.fields && j in n.fields && i != j ensures n.Apart(n.fields[i], n.fields[j]) {
      assert old(n.Apart(n.fields[i], n.fields[j]));
    }
    n.MakeValid();
  }

  method BundleBelow(n: Node, k: string, keys: seq<string>, common: map<string, Node>,
                     ghost expected: Schema, ghost reprs: map<string, set<Node>>) returns (added: bool)
    requires n.Valid() && !n.isList && k in n.fields && n.fields[k].Ref? && !n.fields[k].node.isList
    requires Decoded(common, expected, reprs) && AllOf(reprs) !! n.repr
    modifies n.repr
    ensures n.Valid() && fresh(n.repr - old(n.repr) - AllOf(reprs))
    ensures (var f := old(n.Model()).fields;
             && k in f && f[k].Obj? && n.Model() == Obj(f[k := Obj(BundledAt(f[k].fields, keys, expected))])
             && (added <==> !(expected.Keys <= ReachedAt(f[k].fields, keys).Keys)))
    decreases |keys|, 2
  {
    hide Decoded, BundledAt, ReachedAt, AllOf, Node.Valid, Node.Model, Node.Owns, Node.ModelOf;
    n.ModelFields();
    n.FieldsOwned();
    ObjectShows(n, n.fields[k]);
    ghost var before := n.Model().fields;
    added := BundleField(n, k, keys, common, expected, reprs);
    n.ModelFields();
    assert n.Model().fields == before[k := Obj(BundledAt(before[k].fields, keys, expected))];
  }

  /** ensureCatalogRefreshObject and the loop over the common schemas: reaches the last
      object of a path, creating what is missing, and adds the schemas it lacks. */
  method Bundle(n: Node, keys: seq<string>, common: map<string, Node>,
                ghost expected: Schema, ghost reprs: map<string, set<Node>>) returns (added: bool)
    requires n.Valid() && !n.isList && Decoded(common, expected, reprs) && AllOf(reprs) !! n.repr
    modifies n.repr
    ensures n.Valid() && fresh(n.repr - old(n.repr) - AllOf(reprs))
    ensures old(n.Model()).Obj? && n.Model() == Obj(BundledAt(old(n.Model()).fields, keys, expected))
    ensures added <==> !(expected.Keys <= ReachedAt(old(n.Model()).fields, keys).Keys)
    decreases |keys|, 0
  {
    hide Decoded, Node.Valid, Node.Model, Node.Owns, Node.ModelOf;
    n.ModelFields();
    n.FieldsOwned();
    DecodedNodes(common, expected, reprs);
    if keys == [] {
      added := AddCommon(n, common, expected, reprs);
    } else {
      ghost var f := n.Model().fields;
      assert n !in AllOf(reprs) && n !in common.Values;
      var c := EnsureObject(n, keys[0]);
      assert Decoded(common, expected, reprs);
      assert AllOf(reprs) !! n.repr;
      added := BundleBelow(n, keys[0], keys[1..], common, expected, reprs);
    }
  }

  /** applyHighLevelRefreshCorrection: true exactly when the document changed. */
  method ApplyHighLevel(root: Node, common: map<string, Node>, ghost reprs: map<string, set<Node>>)
    returns (changed: bool)
    requires root.Valid() && !root.isList && Decoded(common, Common, reprs) && AllOf(reprs) !! root.repr
    modifies root.repr, AllOf(reprs)
    ensures root.Valid() && old(root.Model()).Obj?
    ensures root.Model() == Obj(HighLevelCorrected(old(root.Model()).fields))
    ensures changed <==> root.Model() != old(root.Model())
  {
    hide *;
    root.ModelFields();
    ghost var f := root.Model().fields;
    BundledPath(f);
    changed := Bundle(root, ["components", "schemas"], common, Common, reprs);
    var c := new Correction(HighLevel);
    c.changed := changed;
    c.Walk(root, Depth(root.Model()));
    changed := c.changed;
    HighLevelShows(f);
  }

  /** The document changes exactly when it lacks a common schema or the walk rewrites it. */
  lemma HighLevelShows(f: Schema)
    ensures Corrected(HighLevel, Obj(Bundled(f))) == Obj(HighLevelCorrected(f))
    ensures HighLevelCorrected(f) == f <==> HasCommon(f) && Corrected(HighLevel, Obj(Bundled(f))) == Obj(Bundled(f))
  {
    hide Corrected, Bundled, HasCommon, Clean;
    HighLevelOnce(f);
    BundledExactly(f);
    CleanExactly(HighLevel, Obj(f));
    CorrectedIsObj(Bundled(f));
  }
}
