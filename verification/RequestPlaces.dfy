/** The places of a schema that the list of request fields is made from: positions in the tree
    of properties and items, each with its mark.  A second definition of the list, without
    path strings, without the cap and without a running list. */
module RequestPlaces {
  import opened Json
  import opened Ordering
  import opened RequestFieldSpec
  import opened Text
  import opened Wrappers

  datatype Step = Prop(name: string) | Item

  /** A position below the root, the schema there and whether it is required. */
  datatype Place = Place(pos: seq<Step>, required: bool, schema: Schema)

  function StepPath(path: string, s: Step): string {
    match s
    case Prop(name) => ChildPath(path, name)
    case Item => ItemPath(path)
  }

  /** The path string of a position. */
  function PathOf(pos: seq<Step>): string {
    if pos == [] then "" else StepPath(PathOf(pos[..|pos| - 1]), pos[|pos| - 1])
  }

  lemma PathMore(pos: seq<Step>, s: Step)
    ensures PathOf(pos + [s]) == StepPath(PathOf(pos), s)
  {
    assert (pos + [s])[..|pos|] == pos;
  }

  /** The listed places at and below a position, in the order of the walk. */
  ghost function Places(schema: Schema, pos: seq<Step>, required: bool, depth: nat): seq<Place>
    decreases MAX_FIELD_DEPTH + 1 - depth, 1, 0
  {
    if depth > MAX_FIELD_DEPTH then []
    else
      (if Listed(PathOf(pos)) then [Place(pos, required, schema)] else [])
      + PlacesBelow(schema, pos, required, depth)
  }

  ghost function PlacesBelow(schema: Schema, pos: seq<Step>, required: bool, depth: nat): seq<Place>
    requires depth <= MAX_FIELD_DEPTH
    decreases MAX_FIELD_DEPTH + 1 - depth, 0, 1
  {
    var properties, items := MapValue(Get(schema, "properties")), MapValue(Get(schema, "items"));
    if properties != map[] then
      PlacesOfEach(SortedSet(properties.Keys), properties, StringSlice(Get(schema, "required")), pos, required, depth)
    else if items != map[] then Places(items, pos + [Item], required, depth + 1)
    else []
  }

  ghost function PlacesOfEach(names: seq<string>, properties: Schema, needed: seq<string>, pos: seq<Step>,
                              required: bool, depth: nat)
    : seq<Place>
    requires depth <= MAX_FIELD_DEPTH
    decreases MAX_FIELD_DEPTH + 1 - depth, 0, 0, |names|
  {
    if names == [] then []
    else Places(MapValue(Get(properties, names[0])), pos + [Prop(names[0])], required && names[0] in needed, depth + 1)
         + PlacesOfEach(names[1..], properties, needed, pos, required, depth)
  }

  // ---------------------------------------------------------------- the list is the first places

  ghost function InfoOf(p: Place): FieldInfo {
    if p.schema == map[] then FieldInfo(PathOf(p.pos), p.required, "", "", "", "")
    else Describe(PathOf(p.pos), p.required, p.schema)
  }

  ghost function Infos(places: seq<Place>): seq<FieldInfo> {
    seq(|places|, i requires 0 <= i < |places| => InfoOf(places[i]))
  }

  function Capped<T>(s: seq<T>): seq<T> {
    if |s| > MAX_FIELDS then s[..MAX_FIELDS] else s
  }

  lemma CappedTwice<T>(a: seq<T>, b: seq<T>, c: seq<T>)
    requires |a| <= MAX_FIELDS
    ensures Capped(Capped(a + b) + c) == Capped(a + (b + c))
    ensures |Capped(a + b)| >= MAX_FIELDS ==> Capped(a + (b + c)) == Capped(a + b)
  {
  }

  lemma InfosJoin(a: seq<Place>, b: seq<Place>)
    ensures Infos(a + b) == Infos(a) + Infos(b)
  {
    hide InfoOf;
  }

  lemma NothingKept(found: seq<FieldInfo>)
    requires |found| <= MAX_FIELDS
    ensures Capped(found + Infos([])) == found
  {
    assert found + Infos([]) == found;
  }

  lemma FullStays(found: seq<FieldInfo>, places: seq<Place>)
    requires |found| == MAX_FIELDS
    ensures Capped(found + Infos(places)) == found
  {
    hide InfoOf;
  }

  /** Below the last level that is read nothing is listed. */
  lemma {:induction false} NothingDeeper(names: seq<string>, properties: Schema, needed: seq<string>, pos: seq<Step>,
                                         required: bool)
    ensures PlacesOfEach(names, properties, needed, pos, required, MAX_FIELD_DEPTH) == []
  {
    if names != [] {
      NothingDeeper(names[1..], properties, needed, pos, required);
    }
  }

  lemma NothingBelow(schema: Schema, pos: seq<Step>, required: bool)
    ensures PlacesBelow(schema, pos, required, MAX_FIELD_DEPTH) == []
  {
    hide SortedSet, StringSlice;
    var properties := MapValue(Get(schema, "properties"));
    NothingDeeper(SortedSet(properties.Keys), properties, StringSlice(Get(schema, "required")), pos, required);
  }

  lemma EmptySchema(pos: seq<Step>, required: bool, depth: nat)
    requires depth <= MAX_FIELD_DEPTH
    ensures PlacesBelow(map[], pos, required, depth) == []
  {
  }

  /** The list grows by the places of the walk, up to the cap. */
  lemma {:induction false} CollectKeeps(schema: Schema, pos: seq<Step>, required: bool, depth: nat,
                                        found: seq<FieldInfo>)
    requires |found| <= MAX_FIELDS
    ensures Collect(schema, PathOf(pos), required, depth, found)
         == Capped(found + Infos(Places(schema, pos, required, depth)))
    decreases MAX_FIELD_DEPTH + 1 - depth, 1, 0
  {
    hide Below, PlacesBelow, Describe, Infos, Capped, PathOf, Listed;
    if |found| >= MAX_FIELDS {
      FullStays(found, Places(schema, pos, required, depth));
    } else if depth > MAX_FIELD_DEPTH {
      NothingKept(found);
    } else {
      EmptySchema(pos, required, depth);
      var self := if Listed(PathOf(pos)) then [Place(pos, required, schema)] else [];
      var here := found + Infos(self);
      SelfKept(found, pos, required, schema);
      var below := PlacesBelow(schema, pos, required, depth);
      InfosJoin(self, below);
      assert found + Infos(self + below) == here + Infos(below);
      if schema == map[] {
        NothingKept(here);
      } else if Listed(PathOf(pos)) && |here| >= MAX_FIELDS {
        FullStays(here, below);
      } else {
        BelowKeeps(schema, pos, required, depth, here);
        if depth == MAX_FIELD_DEPTH {
          NothingBelow(schema, pos, required);
          NothingKept(here);
        }
      }
    }
  }

  lemma SelfKept(found: seq<FieldInfo>, pos: seq<Step>, required: bool, schema: Schema)
    ensures Infos([Place(pos, required, schema)])
         == [if schema == map[] then FieldInfo(PathOf(pos), required, "", "", "", "")
             else Describe(PathOf(pos), required, schema)]
    ensures found + Infos([]) == found
  {
    hide Describe, PathOf;
  }

  lemma {:induction false} BelowKeeps(schema: Schema, pos: seq<Step>, required: bool, depth: nat, found: seq<FieldInfo>)
    requires depth <= MAX_FIELD_DEPTH && |found| <= MAX_FIELDS
    ensures Below(schema, PathOf(pos), required, depth, found)
         == Capped(found + Infos(PlacesBelow(schema, pos, required, depth)))
    decreases MAX_FIELD_DEPTH + 1 - depth, 0, 1
  {
    hide Collect, CollectEach, Places, PlacesOfEach, SortedSet, StringSlice, Infos, Capped, PathOf;
    var properties, items := MapValue(Get(schema, "properties")), MapValue(Get(schema, "items"));
    if properties != map[] {
      EachKeeps(SortedSet(properties.Keys), properties, StringSlice(Get(schema, "required")), pos, required, depth,
                found);
    } else if items != map[] {
      PathMore(pos, Item);
      CollectKeeps(items, pos + [Item], required, depth + 1, found);
    } else {
      NothingKept(found);
    }
  }

  lemma {:induction false} EachKeeps(names: seq<string>, properties: Schema, needed: seq<string>, pos: seq<Step>,
                                     required: bool,
                                     depth: nat, found: seq<FieldInfo>)
    requires depth <= MAX_FIELD_DEPTH && |found| <= MAX_FIELDS
    ensures CollectEach(names, properties, needed, PathOf(pos), required, depth, found)
         == Capped(found + Infos(PlacesOfEach(names, properties, needed, pos, required, depth)))
    decreases MAX_FIELD_DEPTH + 1 - depth, 0, 0, |names|
  {
    hide Collect, Places, Infos, PathOf, Capped;
    if names == [] {
      NothingKept(found);
    } else {
      var name := names[0];
      var schema, mark := MapValue(Get(properties, name)), required && name in needed;
      PathMore(pos, Prop(name));
      CollectKeeps(schema, pos + [Prop(name)], mark, depth + 1, found);
      var first, others := Places(schema, pos + [Prop(name)], mark, depth + 1),
          PlacesOfEach(names[1..], properties, needed, pos, required, depth);
      InfosJoin(first, others);
      CappedTwice(found, Infos(first), Infos(others));
      CappedShort(found + Infos(first));
      var next := Capped(found + Infos(first));
      if |next| < MAX_FIELDS {
        EachKeeps(names[1..], properties, needed, pos, required, depth, next);
      }
    }
  }

  lemma CappedShort<T>(s: seq<T>)
    ensures |Capped(s)| <= MAX_FIELDS && (forall x <- Capped(s) :: x in s)
  {
  }

  // ---------------------------------------------------------------- which places

  /** The schema at a position and its mark: required where every property on the way is. */
  ghost function Lookup(schema: Schema, steps: seq<Step>, required: bool, depth: nat): Option<(Schema, bool)>
    decreases |steps|
  {
    if depth > MAX_FIELD_DEPTH then None
    else if steps == [] then Some((schema, required))
    else
      var properties, items := MapValue(Get(schema, "properties")), MapValue(Get(schema, "items"));
      match steps[0]
      case Prop(name) =>
        if name !in properties then None
        else Lookup(MapValue(properties[name]), steps[1..], required && name in StringSlice(Get(schema, "required")),
                    depth + 1)
      case Item =>
        if properties != map[] || items == map[] then None
        else Lookup(items, steps[1..], required, depth + 1)
  }

  ghost predicate Found(schema: Schema, pos: seq<Step>, required: bool, depth: nat, p: Place) {
    && pos <= p.pos && Listed(PathOf(p.pos))
    && Lookup(schema, p.pos[|pos|..], required, depth) == Some((p.schema, p.required))
  }

  /** The walk lists exactly the places that looking up a position finds. */
  lemma {:induction false} PlacesExactly(schema: Schema, pos: seq<Step>, required: bool, depth: nat, p: Place)
    ensures p in Places(schema, pos, required, depth) <==> Found(schema, pos, required, depth, p)
    decreases MAX_FIELD_DEPTH + 1 - depth, 1, 0
  {
    hide Listed, PathOf, StringSlice, SortedSet, PlacesOfEach;
    if depth <= MAX_FIELD_DEPTH {
      var properties, items := MapValue(Get(schema, "properties")), MapValue(Get(schema, "items"));
      if properties != map[] {
        var names := SortedSet(properties.Keys);
        SortedSetHas(properties.Keys);
        EachExactly(names, properties, StringSlice(Get(schema, "required")), pos, required, depth, p);
      } else if items != map[] {
        PlacesExactly(items, pos + [Item], required, depth + 1, p);
      }
      NextStep(schema, pos, required, depth, p);
    }
  }

  lemma SortedSetHas(s: set<string>)
    ensures forall x :: x in SortedSet(s) <==> x in s
  {
    SortedSetDistinct(s);
  }

  lemma StepTaken(pos: seq<Step>, longer: seq<Step>, s: Step)
    requires pos < longer
    ensures pos + [s] <= longer <==> longer[|pos|] == s
    ensures longer[|pos|..] == [longer[|pos|]] + longer[|pos| + 1..]
  {
    if pos + [s] <= longer {
      assert (pos + [s])[|pos|] == s;
    }
    if longer[|pos|] == s {
      assert pos + [s] == longer[..|pos| + 1];
    }
  }

  /** One step of the lookup, at the position below. */
  lemma NextFound(schema: Schema, pos: seq<Step>, required: bool, depth: nat, p: Place)
    requires depth <= MAX_FIELD_DEPTH && pos < p.pos
    ensures (var properties, items := MapValue(Get(schema, "properties")), MapValue(Get(schema, "items"));
             Found(schema, pos, required, depth, p) <==>
               match p.pos[|pos|]
               case Prop(name) =>
                 name in properties && FoundUnder(properties, StringSlice(Get(schema, "required")), pos, required,
                                                  depth, p, name)
               case Item => properties == map[] && items != map[] && Found(items, pos + [Item], required, depth + 1, p))
  {
    hide Listed, PathOf, StringSlice;
    var s, rest := p.pos[|pos|], p.pos[|pos| + 1..];
    StepTaken(pos, p.pos, s);
    assert ([s] + rest)[1..] == rest && ([s] + rest)[0] == s;
    assert |pos + [s]| == |pos| + 1;
  }

  lemma FoundFrom(schema: Schema, pos: seq<Step>, required: bool, depth: nat, p: Place)
    ensures Found(schema, pos, required, depth, p) ==> pos <= p.pos
    ensures pos == p.pos && depth <= MAX_FIELD_DEPTH ==>
              (Found(schema, pos, required, depth, p) <==>
                 p.schema == schema && p.required == required && Listed(PathOf(pos)))
  {
    hide Listed, PathOf, StringSlice;
    if pos == p.pos {
      assert p.pos[|pos|..] == [];
    }
  }

  /** One step of the lookup, from the position it is made at. */
  lemma NextStep(schema: Schema, pos: seq<Step>, required: bool, depth: nat, p: Place)
    requires depth <= MAX_FIELD_DEPTH
    ensures (var properties, items := MapValue(Get(schema, "properties")), MapValue(Get(schema, "items"));
             Found(schema, pos, required, depth, p) <==>
               || (p.pos == pos && p.schema == schema && p.required == required && Listed(PathOf(pos)))
               || (properties != map[] && exists name <- properties.Keys ::
                     FoundUnder(properties, StringSlice(Get(schema, "required")), pos, required, depth, p, name))
               || (properties == map[] && items != map[] && Found(items, pos + [Item], required, depth + 1, p)))
  {
    hide Listed, PathOf, StringSlice, Found, MapValue, Lookup;
    var properties, items := MapValue(Get(schema, "properties")), MapValue(Get(schema, "items"));
    var needed := StringSlice(Get(schema, "required"));
    FoundFrom(schema, pos, required, depth, p);
    FoundFrom(items, pos + [Item], required, depth + 1, p);
    forall name ensures FoundUnder(properties, needed, pos, required, depth, p, name) ==> pos + [Prop(name)] <= p.pos {
      FoundFrom(MapValue(Get(properties, name)), pos + [Prop(name)], required && name in needed, depth + 1, p);
    }
    if pos < p.pos {
      NextFound(schema, pos, required, depth, p);
      StepTaken(pos, p.pos, Item);
      forall name ensures pos + [Prop(name)] <= p.pos <==> p.pos[|pos|] == Prop(name) {
        StepTaken(pos, p.pos, Prop(name));
      }
    } else {
      assert forall s :: pos + [s] <= p.pos ==> pos < p.pos;
    }
  }

  ghost predicate FoundUnder(properties: Schema, needed: seq<string>, pos: seq<Step>, required: bool, depth: nat,
                             p: Place, name: string) {
    Found(MapValue(Get(properties, name)), pos + [Prop(name)], required && name in needed, depth + 1, p)
  }

  lemma {:induction false} EachExactly(names: seq<string>, properties: Schema, needed: seq<string>, pos: seq<Step>,
                                       required: bool,
                                       depth: nat, p: Place)
    requires depth <= MAX_FIELD_DEPTH
    ensures p in PlacesOfEach(names, properties, needed, pos, required, depth)
       <==> exists name <- names :: FoundUnder(properties, needed, pos, required, depth, p, name)
    decreases MAX_FIELD_DEPTH + 1 - depth, 0, 0, |names|
  {
    hide Found, Places;
    if names != [] {
      var name, rest := names[0], names[1..];
      PlacesExactly(MapValue(Get(properties, name)), pos + [Prop(name)], required && name in needed, depth + 1, p);
      EachExactly(rest, properties, needed, pos, required, depth, p);
      forall n ensures n in names <==> n == name || n in rest {
        assert names == [name] + rest;
      }
      assert p in Places(MapValue(Get(properties, name)), pos + [Prop(name)], required && name in needed, depth + 1)
        <==> FoundUnder(properties, needed, pos, required, depth, p, name);
    }
  }

  /** On the way to a position everything is at least as required. */
  lemma {:induction false} LookupChain(schema: Schema, a: seq<Step>, b: seq<Step>, required: bool, depth: nat)
    requires a <= b && Lookup(schema, b, required, depth).Some?
    ensures Lookup(schema, a, required, depth).Some?
    ensures Lookup(schema, b, required, depth).value.1 ==> Lookup(schema, a, required, depth).value.1
    decreases |b|
  {
    hide StringSlice;
    if a == [] {
      LookupMarks(schema, b, required, depth);
    } else {
      var properties, items := MapValue(Get(schema, "properties")), MapValue(Get(schema, "items"));
      match b[0] {
        case Prop(name) =>
          LookupChain(MapValue(properties[name]), a[1..], b[1..],
                      required && name in StringSlice(Get(schema, "required")), depth + 1);
        case Item => LookupChain(items, a[1..], b[1..], required, depth + 1);
      }
    }
  }

  lemma {:induction false} LookupMarks(schema: Schema, steps: seq<Step>, required: bool, depth: nat)
    ensures Lookup(schema, steps, required, depth).Some? ==>
              depth <= MAX_FIELD_DEPTH && (Lookup(schema, steps, required, depth).value.1 ==> required)
    decreases |steps|
  {
    hide StringSlice;
    if steps != [] {
      var properties, items := MapValue(Get(schema, "properties")), MapValue(Get(schema, "items"));
      match steps[0] {
        case Prop(name) =>
          if name in properties {
            LookupMarks(MapValue(properties[name]), steps[1..],
                        required && name in StringSlice(Get(schema, "required")), depth + 1);
          }
        case Item => LookupMarks(items, steps[1..], required, depth + 1);
      }
    }
  }

  // ---------------------------------------------------------------- each place once

  ghost predicate Once(places: seq<Place>) {
    forall i, j :: 0 <= i < j < |places| ==> places[i].pos != places[j].pos
  }

  lemma OnceJoin(a: seq<Place>, b: seq<Place>)
    requires Once(a) && Once(b) && forall x, y :: x in a && y in b ==> x.pos != y.pos
    ensures Once(a + b)
  {
    var ab := a + b;
    forall i, j | 0 <= i < j < |ab| ensures ab[i].pos != ab[j].pos {
      if i < |a| <= j {
        assert ab[i] in a && ab[j] in b;
      }
    }
  }

  lemma {:induction false} PlacesOnce(schema: Schema, pos: seq<Step>, required: bool, depth: nat)
    ensures Once(Places(schema, pos, required, depth))
            && forall p <- Places(schema, pos, required, depth) :: pos <= p.pos
    decreases MAX_FIELD_DEPTH + 1 - depth, 1, 0
  {
    hide Listed, PathOf, StringSlice, SortedSet, PlacesOfEach, Once;
    NoneTwice(Place(pos, required, schema));
    if depth <= MAX_FIELD_DEPTH {
      var properties, items := MapValue(Get(schema, "properties")), MapValue(Get(schema, "items"));
      var below := PlacesBelow(schema, pos, required, depth);
      if properties != map[] {
        SortedSetDistinct(properties.Keys);
        EachOnce(SortedSet(properties.Keys), properties, StringSlice(Get(schema, "required")), pos, required, depth);
      } else if items != map[] {
        PlacesOnce(items, pos + [Item], required, depth + 1);
      }
      assert Once(below) && forall p <- below :: pos < p.pos;
      var self := if Listed(PathOf(pos)) then [Place(pos, required, schema)] else [];
      OnceJoin(self, below);
    }
  }

  lemma NoneTwice(p: Place)
    ensures Once([]) && Once([p])
  {
  }

  lemma {:induction false} EachOnce(names: seq<string>, properties: Schema, needed: seq<string>, pos: seq<Step>,
                                    required: bool, depth: nat)
    requires depth <= MAX_FIELD_DEPTH && forall i, j :: 0 <= i < j < |names| ==> names[i] != names[j]
    ensures Once(PlacesOfEach(names, properties, needed, pos, required, depth))
    ensures forall p <- PlacesOfEach(names, properties, needed, pos, required, depth) ::
              |p.pos| > |pos| && pos <= p.pos && p.pos[|pos|].Prop? && p.pos[|pos|].name in names
    decreases MAX_FIELD_DEPTH + 1 - depth, 0, 0, |names|
  {
    hide Places, Once;
    if names == [] {
      NoneTwice(Place([], false, map[]));
    } else {
      var name, rest := names[0], names[1..];
      var first := Places(MapValue(Get(properties, name)), pos + [Prop(name)], required && name in needed, depth + 1);
      PlacesOnce(MapValue(Get(properties, name)), pos + [Prop(name)], required && name in needed, depth + 1);
      EachOnce(rest, properties, needed, pos, required, depth);
      forall p <- first ensures |p.pos| > |pos| && pos <= p.pos && p.pos[|pos|] == Prop(name) {
        assert (pos + [Prop(name)])[|pos|] == Prop(name);
      }
      assert name !in rest;
      OnceJoin(first, PlacesOfEach(rest, properties, needed, pos, required, depth));
      assert names == [name] + rest;
    }
  }

  // ---------------------------------------------------------------- positions behind path strings

  /** The position a path string shows: properties without a name add nothing at the start of
      a path, and items there look like those of a property called `body`. */
  function Canon(pos: seq<Step>): seq<Step> {
    if pos == [] then []
    else
      var before, s := Canon(pos[..|pos| - 1]), pos[|pos| - 1];
      if before != [] then before + [s]
      else if s == Prop("") then []
      else if s == Item then [Prop("body"), Item]
      else [s]
  }

  predicate Simple(s: Step) {
    s.Prop? ==> '.' !in s.name && '[' !in s.name
  }

  predicate AllSimple(pos: seq<Step>) {
    forall i :: 0 <= i < |pos| ==> Simple(pos[i])
  }

  function Unit(s: Step): string {
    match s
    case Prop(name) => "." + name
    case Item => "[]"
  }

  function Tail(steps: seq<Step>): string {
    if steps == [] then "" else Unit(steps[0]) + Tail(steps[1..])
  }

  predicate Canonical(c: seq<Step>) {
    c != [] ==> c[0].Prop? && c[0].name != ""
  }

  function TextOf(c: seq<Step>): string
    requires Canonical(c)
  {
    if c == [] then "" else c[0].name + Tail(c[1..])
  }

  lemma {:induction false} TailMore(steps: seq<Step>, s: Step)
    ensures Tail(steps + [s]) == Tail(steps) + Unit(s)
  {
    hide Unit;
    if steps == [] {
      assert [] + [s] == [s] && [s][1..] == [];
    } else {
      assert (steps + [s])[1..] == steps[1..] + [s];
      TailMore(steps[1..], s);
    }
  }

  lemma TextMore(c: seq<Step>, s: Step)
    requires c != [] && Canonical(c)
    ensures Canonical(c + [s]) && TextOf(c + [s]) == StepPath(TextOf(c), s) != ""
  {
    hide Tail, Unit, StepPath;
    assert (c + [s])[1..] == c[1..] + [s] && (c + [s])[0] == c[0];
    TailMore(c[1..], s);
    StepUnit(TextOf(c), s);
    assert c[0].name + (Tail(c[1..]) + Unit(s)) == c[0].name + Tail(c[1..]) + Unit(s);
  }

  lemma StepUnit(path: string, s: Step)
    requires path != ""
    ensures StepPath(path, s) == path + Unit(s) != ""
  {
  }

  lemma {:induction false} CanonText(pos: seq<Step>)
    requires AllSimple(pos)
    ensures Canonical(Canon(pos)) && AllSimple(Canon(pos)) && PathOf(pos) == TextOf(Canon(pos))
    decreases |pos|
  {
    hide TextOf, Tail, StepPath;
    if pos == [] {
      EmptyText();
    } else {
      var before, s := pos[..|pos| - 1], pos[|pos| - 1];
      CanonText(before);
      if Canon(before) != [] {
        TextMore(Canon(before), s);
      } else {
        EmptyText();
        OneText(s);
      }
    }
  }

  lemma EmptyText()
    ensures Canonical([]) && TextOf([]) == ""
  {
  }

  lemma OneText(s: Step)
    ensures s.Prop? && s.name != "" ==> Canonical([s]) && TextOf([s]) == StepPath("", s)
    ensures s == Prop("") ==> StepPath("", s) == ""
    ensures s == Item ==> Canonical([Prop("body"), Item]) && TextOf([Prop("body"), Item]) == StepPath("", s)
    ensures AllSimple([Prop("body"), Item])
  {
    assert [s][1..] == [] && [Prop("body"), Item][1..] == [Item] && [Item][1..] == [];
    assert "body" + "[]" == "body[]";
  }

  /** What follows a part of a path. */
  predicate Starts(t: string) {
    t != "" && (t[0] == '.' || t[0] == '[')
  }

  predicate Follows(t: string) {
    t == "" || Starts(t)
  }

  lemma TailStarts(steps: seq<Step>)
    ensures Follows(Tail(steps)) && (steps != [] ==> Starts(Tail(steps)))
  {
  }

  lemma StartsJoin(s: string, t: string)
    requires Follows(s) && Starts(t)
    ensures Starts(s + t)
  {
  }

  lemma Dropped(a: string, b: string)
    ensures (a + b)[|a|..] == b && (a != "" ==> (a + b)[0] == a[0])
  {
  }

  /** The name a path starts with. */
  function FirstName(s: string): string {
    if s == "" || s[0] == '.' || s[0] == '[' then "" else [s[0]] + FirstName(s[1..])
  }

  lemma {:induction false} FirstNameEnds(name: string, tail: string)
    requires '.' !in name && '[' !in name && Follows(tail)
    ensures FirstName(name + tail) == name
  {
    if name == "" {
      assert name + tail == tail;
    } else {
      assert (name + tail)[1..] == name[1..] + tail;
      FirstNameEnds(name[1..], tail);
    }
  }

  /** Two names before the rest of a path are the same when the whole texts are. */
  lemma NamesSplit(a: string, s: string, b: string, t: string)
    requires '.' !in a && '[' !in a && '.' !in b && '[' !in b
    requires Follows(s) && Follows(t) && a + s == b + t
    ensures a == b && s == t
  {
    hide FirstName;
    FirstNameEnds(a, s);
    FirstNameEnds(b, t);
    Dropped(a, s);
    Dropped(b, t);
  }

  lemma {:induction false} TailsNest(a: seq<Step>, b: seq<Step>, t: string)
    requires AllSimple(a) && AllSimple(b) && Starts(t) && Tail(b) == Tail(a) + t
    ensures a < b
    decreases |a|
  {
    hide Unit, Starts, Follows, Simple, Tail;
    if a == [] {
      NoTail(t);
    } else {
      TailStarts(a[1..]);
      StartsJoin(Tail(a[1..]), t);
      TailParts(a);
      NoTail(t);
      assert b != [];
      TailParts(b);
      TailStarts(b[1..]);
      assert Unit(a[0]) + (Tail(a[1..]) + t) == Unit(a[0]) + Tail(a[1..]) + t;
      StartsFollows(Tail(a[1..]) + t);
      UnitsSplit(a[0], Tail(a[1..]) + t, b[0], Tail(b[1..]));
      TailsNest(a[1..], b[1..], t);
      assert a == [a[0]] + a[1..] && b == [b[0]] + b[1..];
    }
  }

  lemma StartsFollows(t: string)
    requires Starts(t)
    ensures Follows(t)
  {
  }

  lemma NoTail(t: string)
    ensures Tail([]) == "" && "" + t == t && (Starts(t) ==> t != "")
    ensures forall s: string :: Starts(t) ==> s + t != ""
  {
  }

  lemma TailParts(steps: seq<Step>)
    requires steps != []
    ensures Tail(steps) == Unit(steps[0]) + Tail(steps[1..])
  {
    hide Unit;
  }

  lemma UnitsSplit(x: Step, s: string, y: Step, t: string)
    requires Simple(x) && Simple(y) && Follows(s) && Follows(t) && Unit(x) + s == Unit(y) + t
    ensures x == y && s == t
  {
    hide Follows;
    UnitFirst(x);
    UnitFirst(y);
    Dropped(Unit(x), s);
    Dropped(Unit(y), t);
    assert x.Prop? <==> y.Prop?;
    if x.Prop? {
      Dropped(".", x.name + s);
      Dropped(".", y.name + t);
      assert Unit(x) + s == "." + (x.name + s) && Unit(y) + t == "." + (y.name + t);
      NamesSplit(x.name, s, y.name, t);
    }
  }

  lemma UnitFirst(s: Step)
    ensures Unit(s) != "" && Unit(s)[0] == if s.Prop? then '.' else '['
  {
  }

  lemma {:induction false} TailJoin(a: seq<Step>, b: seq<Step>)
    ensures Tail(a + b) == Tail(a) + Tail(b)
  {
    hide Unit;
    if a == [] {
      assert a + b == b;
    } else {
      assert (a + b)[1..] == a[1..] + b;
      TailJoin(a[1..], b);
    }
  }

  lemma BeneathJoin(top: string, t: string)
    requires top != "" && Starts(t)
    ensures Beneath(top, top + t)
  {
  }

  lemma BeneathSplit(top: string, path: string) returns (t: string)
    requires Beneath(top, path)
    ensures Starts(t) && path == top + t && top != ""
  {
    t := path[|top|..];
  }

  lemma TextParts(c: seq<Step>)
    requires Canonical(c)
    ensures c == [] <==> TextOf(c) == ""
    ensures c != [] ==> TextOf(c) == c[0].name + Tail(c[1..]) && c == [c[0]] + c[1..]
  {
    hide Tail;
  }

  lemma TextsJoin(a: seq<Step>, b: seq<Step>)
    requires Canonical(a) && Canonical(b) && a != [] && a < b
    ensures Beneath(TextOf(a), TextOf(b))
  {
    hide Tail, Beneath, Starts, Follows;
    var rest := b[|a|..];
    assert b[1..] == a[1..] + rest && b[0] == a[0];
    TailJoin(a[1..], rest);
    TailStarts(rest);
    TextParts(a);
    assert a[0].name + (Tail(a[1..]) + Tail(rest)) == TextOf(a) + Tail(rest);
    BeneathJoin(TextOf(a), Tail(rest));
  }

  /** One path string stands beneath another exactly when one position does. */
  lemma TextsNest(a: seq<Step>, b: seq<Step>)
    requires Canonical(a) && Canonical(b) && AllSimple(a) && AllSimple(b) && a != []
    ensures Beneath(TextOf(a), TextOf(b)) <==> a < b
  {
    hide Tail, Beneath, Starts, Follows, TextOf;
    if a < b {
      TextsJoin(a, b);
    } else if Beneath(TextOf(a), TextOf(b)) {
      var t := BeneathSplit(TextOf(a), TextOf(b));
      TextParts(a);
      TextParts(b);
      TailStarts(a[1..]);
      StartsJoin(Tail(a[1..]), t);
      StartsFollows(Tail(a[1..]) + t);
      assert b != [];
      TailStarts(b[1..]);
      assert a[0].name + (Tail(a[1..]) + t) == TextOf(a) + t;
      NamesSplit(a[0].name, Tail(a[1..]) + t, b[0].name, Tail(b[1..]));
      TailsNest(a[1..], b[1..], t);
    }
  }

  // ---------------------------------------------------------------- the required chain

  /** Strictly below a path that is not the root. */
  predicate Beneath(top: string, path: string) {
    top != "" && top < path && (path[|top|] == '.' || path[|top|] == '[')
  }

  /** A required field has only required fields above it. */
  ghost predicate Chained(found: seq<FieldInfo>) {
    forall f, g :: f in found && g in found && g.required && Beneath(f.path, g.path) ==> f.required
  }

  /** The places the list is made from: the first sixty. */
  ghost function Kept(schema: Schema, required: bool): seq<Place> {
    Capped(Places(schema, [], required, 0))
  }

  /** Every listed place below a listed place is required only if that one is, whatever the
      properties are called. */
  lemma PlacesChained(schema: Schema, required: bool, a: Place, b: Place)
    requires a in Places(schema, [], required, 0) && b in Places(schema, [], required, 0)
    requires a.pos <= b.pos && b.required
    ensures a.required
  {
    hide Lookup, Listed, PathOf;
    PlacesExactly(schema, [], required, 0, a);
    PlacesExactly(schema, [], required, 0, b);
    assert a.pos[0..] == a.pos && b.pos[0..] == b.pos;
    LookupChain(schema, a.pos, b.pos, required, 0);
  }

  /** No property name has a dot or an opening bracket, down to the depth that is read. */
  ghost predicate SimpleNames(schema: Schema, depth: nat)
    decreases MAX_FIELD_DEPTH + 1 - depth
  {
    depth > MAX_FIELD_DEPTH ||
    (var properties := MapValue(Get(schema, "properties"));
     && (forall name <- properties.Keys :: Simple(Prop(name)) && SimpleNames(MapValue(properties[name]), depth + 1))
     && SimpleNames(MapValue(Get(schema, "items")), depth + 1))
  }

  lemma {:induction false} LookupSimple(schema: Schema, steps: seq<Step>, required: bool, depth: nat)
    requires SimpleNames(schema, depth) && Lookup(schema, steps, required, depth).Some?
    ensures AllSimple(steps)
    decreases |steps|
  {
    hide StringSlice, Simple;
    if steps != [] {
      var properties, items := MapValue(Get(schema, "properties")), MapValue(Get(schema, "items"));
      match steps[0] {
        case Prop(name) =>
          LookupSimple(MapValue(properties[name]), steps[1..],
                       required && name in StringSlice(Get(schema, "required")), depth + 1);
        case Item =>
          LookupSimple(items, steps[1..], required, depth + 1);
          assert Simple(Item) by { ItemSimple(); }
      }
      assert steps == [steps[0]] + steps[1..];
    }
  }

  lemma ItemSimple()
    ensures Simple(Item)
  {
  }

  /** Two kept places whose path strings nest although the places do not, the lower one
      required and the upper one not. */
  ghost predicate Clash(schema: Schema, required: bool) {
    exists a, b :: a in Kept(schema, required) && b in Kept(schema, required) && Clashing(a, b)
  }

  predicate Clashing(a: Place, b: Place) {
    !(a.pos <= b.pos) && Canon(a.pos) < Canon(b.pos) && b.required && !a.required
  }
}
