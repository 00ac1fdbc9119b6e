/** Decoded documents as the resolver sees them: maps in memory that may be shared between a
    document and the copies made of it.  Lists are never written to and are values here. */
module SchemaHeap {
  import opened Json
  import opened SchemaSpec
  import opened Text

  /** A scalar, a list, or a reference to a map, which may be nil. */
  datatype Value = Leaf(json: Json) | List(items: seq<Value>) | Ref(target: JsonMap?)

  predicate Scalar(j: Json) {
    !j.Obj? && !j.Arr?
  }

  /** map[string]any */
  class JsonMap {
    var fields: map<string, Value>
    ghost var repr: set<JsonMap>

    constructor ()
      ensures Valid() && fresh(this) && repr == {this} && fields == map[] && Model() == Obj(map[])
    {
      fields := map[];
      repr := {this};
    }

    /** `repr` holds this map and everything it refers to. */
    ghost predicate Valid()
      reads this, repr
      decreases repr, 0, Leaf(Null)
    {
      this in repr && forall k <- fields.Keys :: Within(fields[k], repr - {this})
    }

    ghost function Model(): Json
      requires Valid()
      reads this, repr
      decreases repr, 0, Leaf(Null)
    {
      Obj(map k | k in fields.Keys :: ModelOf(fields[k], repr - {this}))
    }

    /** m[k], nil when there is no such key. */
    function At(k: string): Value
      reads this
    {
      if k in fields then fields[k] else Leaf(Null)
    }

    lemma Parts()
      requires Valid()
      ensures this in repr && Model().Obj? && Model().fields.Keys == fields.Keys
      ensures forall k <- fields.Keys ::
                Within(fields[k], repr - {this}) && Model().fields[k] == ModelOf(fields[k], repr - {this})
    {
      hide Within, ModelOf;
    }

    lemma PartAt(k: string)
      requires Valid()
      ensures this in repr && Model().Obj? && (k in fields <==> k in Model().fields)
      ensures Within(At(k), repr - {this}) && Get(Model().fields, k) == ModelOf(At(k), repr - {this})
    {
      hide Model, Valid;
      Parts();
    }

    lemma MakeValid(before: Schema)
      requires this in repr && before.Keys == fields.Keys
      requires forall k <- fields.Keys ::
                 Within(fields[k], repr - {this}) && before[k] == ModelOf(fields[k], repr - {this})
      ensures Valid() && Model() == Obj(before)
    {
      hide Within, ModelOf;
    }

    /** m[k] = v, for a value that does not refer to this map. */
    method Put(k: string, v: Value, ghost nodes: set<JsonMap>)
      requires Valid() && Within(v, nodes) && this !in nodes
      modifies this
      ensures Valid() && repr == old(repr) + nodes && fields == old(fields)[k := v]
      ensures Within(v, nodes) && ModelOf(v, nodes) == old(ModelOf(v, nodes))
      ensures old(Model()).Obj? && Model() == Obj(old(Model()).fields[k := ModelOf(v, nodes)])
    {
      hide Valid, Model, Within, ModelOf;
      Parts();
      ghost var before, below := Model().fields, repr - {this};
      fields := fields[k := v];
      repr := repr + nodes;
      forall j <- fields.Keys
        ensures Within(fields[j], repr - {this})
        ensures before[k := ModelOf(v, nodes)][j] == ModelOf(fields[j], repr - {this})
      {
        WithinMore(fields[j], if j == k then nodes else below, repr - {this});
      }
      MakeValid(before[k := ModelOf(v, nodes)]);
    }

    /** delete(m, k) */
    method Remove(k: string)
      requires Valid()
      modifies this`fields
      ensures Valid() && fields == old(fields) - {k}
      ensures old(Model()).Obj? && Model() == Obj(old(Model()).fields - {k})
    {
      hide Valid, Model, Within, ModelOf;
      Parts();
      ghost var before, below := Model().fields, repr - {this};
      fields := fields - {k};
      forall j <- fields.Keys ensures Within(fields[j], below) && (before - {k})[j] == ModelOf(fields[j], below) {
      }
      MakeValid(before - {k});
    }
  }

  /** All maps a value refers to are among `nodes`. */
  ghost predicate Within(v: Value, nodes: set<JsonMap>)
    reads nodes
    decreases nodes, 1, v
  {
    match v
    case Leaf(json) => Scalar(json)
    case List(items) => forall i :: 0 <= i < |items| ==> Within(items[i], nodes)
    case Ref(m) => m == null || (m in nodes && m.repr <= nodes && m.Valid())
  }

  ghost function ModelOf(v: Value, nodes: set<JsonMap>): Json
    requires Within(v, nodes)
    reads nodes
    decreases nodes, 1, v
  {
    match v
    case Leaf(json) => json
    case List(items) =>
      Arr(seq(|items|, i requires 0 <= i < |items| && Within(items[i], nodes) reads nodes => ModelOf(items[i], nodes)))
    case Ref(m) => if m == null then Obj(map[]) else m.Model()
  }

  lemma {:induction false} WithinMore(v: Value, a: set<JsonMap>, b: set<JsonMap>)
    requires Within(v, a) && a <= b
    ensures Within(v, b) && ModelOf(v, b) == ModelOf(v, a)
    decreases v
  {
    match v {
      case Leaf(_) =>
      case Ref(_) =>
      case List(items) =>
        forall i | 0 <= i < |items| ensures Within(items[i], b) && ModelOf(items[i], b) == ModelOf(items[i], a) {
          WithinMore(items[i], a, b);
        }
    }
  }

  // ---------------------------------------------------------------- accessors

  /** mapValue */
  function MapOf(v: Value): JsonMap? {
    if v.Ref? then v.target else null
  }

  /** sliceValue */
  function ListOf(v: Value): seq<Value> {
    if v.List? then v.items else []
  }

  ghost predicate Sound(m: JsonMap?)
    reads m, if m == null then {} else m.repr
  {
    m != null ==> m.Valid()
  }

  ghost function Nodes(m: JsonMap?): set<JsonMap>
    reads m
  {
    if m == null then {} else m.repr
  }

  ghost function FieldsOf(m: JsonMap?): Schema
    requires Sound(m)
    reads m, if m == null then {} else m.repr
  {
    if m == null then map[] else m.Model().fields
  }

  /** len(m) == 0 */
  predicate IsEmpty(m: JsonMap?)
    reads m
  {
    m == null || m.fields == map[]
  }

  lemma EmptyMeans(m: JsonMap?)
    requires Sound(m)
    ensures IsEmpty(m) <==> FieldsOf(m) == map[]
  {
    hide Within, ModelOf;
    if m != null {
      m.Parts();
    }
  }

  lemma MapValueOf(v: Value, nodes: set<JsonMap>)
    requires Within(v, nodes)
    ensures (var m := MapOf(v); Sound(m) && Nodes(m) <= nodes && FieldsOf(m) == MapValue(ModelOf(v, nodes)))
  {
    hide JsonMap.Valid, JsonMap.Model;
    if v.Ref? && v.target != null {
      v.target.Parts();
    }
  }

  ghost predicate AllWithin(vs: seq<Value>, nodes: set<JsonMap>)
    reads nodes
  {
    forall i :: 0 <= i < |vs| ==> Within(vs[i], nodes)
  }

  ghost function Models(vs: seq<Value>, nodes: set<JsonMap>): seq<Json>
    requires AllWithin(vs, nodes)
    reads nodes
  {
    seq(|vs|, i requires 0 <= i < |vs| && Within(vs[i], nodes) reads nodes => ModelOf(vs[i], nodes))
  }

  lemma SliceValueOf(v: Value, nodes: set<JsonMap>)
    requires Within(v, nodes)
    ensures AllWithin(ListOf(v), nodes) && Models(ListOf(v), nodes) == SliceValue(ModelOf(v, nodes))
  {
    hide JsonMap.Valid, JsonMap.Model;
    if v.Ref? && v.target != null {
      v.target.Parts();
    }
  }

  lemma RefWithin(m: JsonMap?, nodes: set<JsonMap>)
    requires Sound(m) && Nodes(m) <= nodes
    ensures Within(Ref(m), nodes) && ModelOf(Ref(m), nodes) == Obj(FieldsOf(m))
  {
    hide JsonMap.Model;
    if m != null {
      m.Parts();
    }
  }

  function ScalarOf(v: Value): Json {
    if v.Leaf? then v.json else Bool(true)
  }

  /** What stringValue and stringSlice look at. */
  function Flat(v: Value): Json {
    if v.List? then Arr(seq(|v.items|, i requires 0 <= i < |v.items| => ScalarOf(v.items[i]))) else ScalarOf(v)
  }

  lemma ScalarText(v: Value, nodes: set<JsonMap>)
    requires Within(v, nodes)
    ensures StringValue(ScalarOf(v)) == StringValue(ModelOf(v, nodes))
    ensures v.Ref? ==> ModelOf(v, nodes).Obj?
  {
    hide JsonMap.Valid, JsonMap.Model, TrimSpace;
    if v.Ref? && v.target != null {
      v.target.Parts();
    }
  }

  lemma {:induction false} SameTexts(a: seq<Json>, b: seq<Json>)
    requires |a| == |b| && forall i | 0 <= i < |a| :: StringValue(a[i]) == StringValue(b[i])
    ensures Texts(a) == Texts(b)
  {
    hide StringValue;
    if a != [] {
      SameTexts(a[1..], b[1..]);
    }
  }

  lemma FlatReads(v: Value, nodes: set<JsonMap>)
    requires Within(v, nodes)
    ensures StringValue(Flat(v)) == StringValue(ModelOf(v, nodes))
            && StringSlice(Flat(v)) == StringSlice(ModelOf(v, nodes))
  {
    hide StringValue, SortedUniqueStrings, JsonMap.Valid, JsonMap.Model;
    ScalarText(v, nodes);
    NoText(v, nodes);
    if v.List? {
      var flat, model := Flat(v), ModelOf(v, nodes);
      forall i | 0 <= i < |v.items| ensures StringValue(flat.items[i]) == StringValue(model.items[i]) {
        ScalarText(v.items[i], nodes);
      }
      SameTexts(flat.items, model.items);
    }
  }

  lemma NoText(v: Value, nodes: set<JsonMap>)
    requires Within(v, nodes)
    ensures v.List? ==> StringValue(Flat(v)) == StringValue(ModelOf(v, nodes)) == ""
    ensures v.Ref? ==> StringSlice(Flat(v)) == StringSlice(ModelOf(v, nodes))
  {
    hide JsonMap.Valid, JsonMap.Model;
    if v.Ref? && v.target != null {
      v.target.Parts();
    }
  }

  // ---------------------------------------------------------------- copies

  /** out[k] = source[k] */
  method PutField(out: JsonMap, source: JsonMap, k: string)
    requires out.Valid() && source.Valid() && out !in source.repr && k in source.fields
    modifies out
    ensures out.Valid() && out.repr == old(out.repr) + (source.repr - {source})
    ensures source.Valid() && source.Model() == old(source.Model())
    ensures old(source.Model()).Obj? && k in old(source.Model()).fields
    ensures old(out.Model()).Obj? && out.Model() == Obj(old(out.Model()).fields[k := old(source.Model()).fields[k]])
  {
    hide JsonMap.Valid, JsonMap.Model, Within, ModelOf;
    source.Parts();
    out.Put(k, source.fields[k], source.repr - {source});
  }

  /** Puts the fields of `source` under the given keys into another map. */
  method PutFields(out: JsonMap, source: JsonMap, keys: set<string>)
    requires out.Valid() && source.Valid() && out !in source.repr && keys <= source.fields.Keys
    modifies out
    ensures out.Valid() && out.repr == old(out.repr) + (if keys == {} then {} else source.repr - {source})
    ensures source.Valid() && source.Model() == old(source.Model()) && old(source.Model()).Obj?
    ensures old(out.Model()).Obj?
    ensures out.Model() == Obj(old(out.Model()).fields + Chosen(old(source.Model()).fields, keys))
  {
    hide JsonMap.Valid, JsonMap.Model, Within, ModelOf, Chosen;
    source.Parts();
    out.Parts();
    ghost var before, from := out.Model().fields, source.Model().fields;
    var rest := keys;
    NothingChosen(before, from);
    assert keys - rest == {};
    while rest != {}
      invariant rest <= keys && out.Valid() && source.Valid() && source.Model() == Obj(from)
      invariant out.repr == old(out.repr) + (if rest == keys then {} else source.repr - {source})
      invariant out.Model() == Obj(before + Chosen(from, keys - rest))
      decreases |rest|
    {
      var k: string :| k in rest;
      ChosenMore(before, from, keys, rest, k);
      PutField(out, source, k);
      rest := rest - {k};
    }
    assert keys - {} == keys;
  }

  function Chosen(fields: Schema, keys: set<string>): Schema {
    map k | k in keys && k in fields :: fields[k]
  }

  lemma NothingChosen(before: Schema, from: Schema)
    ensures before + Chosen(from, {}) == before
  {
  }

  lemma ChosenMore(before: Schema, from: Schema, keys: set<string>, rest: set<string>, k: string)
    requires k in rest && rest <= keys <= from.Keys
    ensures before + Chosen(from, keys - (rest - {k})) == (before + Chosen(from, keys - rest))[k := from[k]]
  {
  }

  /** Puts all fields of `source` into another map. */
  method PutAll(out: JsonMap, source: JsonMap?)
    requires out.Valid() && Sound(source) && out !in Nodes(source)
    modifies out
    ensures out.Valid() && out.repr <= old(out.repr) + Nodes(source)
    ensures Sound(source) && FieldsOf(source) == old(FieldsOf(source)) && old(out.Model()).Obj?
    ensures out.Model() == Obj(old(out.Model()).fields + FieldsOf(source))
  {
    hide JsonMap.Valid, JsonMap.Model, Within, ModelOf;
    out.Parts();
    ghost var before := out.Model().fields;
    if source != null {
      source.Parts();
      PutFields(out, source, source.fields.Keys);
      assert Chosen(source.Model().fields, source.fields.Keys) == source.Model().fields;
    } else {
      assert before + map[] == before;
    }
  }

  /** copyStringAnyMap */
  method Copy(m: JsonMap?) returns (out: JsonMap)
    requires Sound(m)
    ensures fresh(out) && out.Valid() && out.repr <= {out} + Nodes(m) && out.Model() == Obj(FieldsOf(m))
  {
    hide JsonMap.Valid, JsonMap.Model, Within, ModelOf;
    out := new JsonMap();
    PutAll(out, m);
    assert map[] + FieldsOf(m) == FieldsOf(m);
  }
}
