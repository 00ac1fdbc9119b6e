/** What a list of request fields guarantees. */
module RequestFieldProofs {
  import opened Json
  import opened Ordering
  import opened RequestFieldSpec
  import opened RequestPlaces
  import opened Text

  // ---------------------------------------------------------------- suppression goes downward

  lemma {:induction false} PartEnds(a: string, b: string)
    requires b != "" && IsSeparator(b[0])
    ensures PartLength(a + b) == PartLength(a)
  {
    if a == "" {
      assert a + b == b;
    } else if !IsSeparator(a[0]) {
      assert (a + b)[1..] == a[1..] + b;
      PartEnds(a[1..], b);
    }
  }

  lemma {:induction false} PartsJoin(a: string, b: string)
    requires b != "" && IsSeparator(b[0])
    ensures Parts(a + b) == Parts(a) + Parts(b)
    decreases |a|
  {
    hide PartLength;
    if a == "" {
      assert a + b == b;
    } else if IsSeparator(a[0]) {
      assert (a + b)[1..] == a[1..] + b;
      PartsJoin(a[1..], b);
    } else {
      PartEnds(a, b);
      var n := PartLength(a);
      assert (a + b)[..n] == a[..n] && (a + b)[n..] == a[n..] + b;
      PartsJoin(a[n..], b);
    }
  }

  lemma {:induction false} ContainsMore(a: string, b: string, part: string)
    requires Contains(a, part)
    ensures Contains(a + b, part)
  {
    if part <= a {
      assert part <= a + b;
    } else {
      assert (a + b)[1..] == a[1..] + b;
      ContainsMore(a[1..], b, part);
    }
  }

  /** Whatever stands below a credential-like path is credential-like. */
  lemma CredentialBelow(path: string, rest: string)
    requires IsCredential(path) && rest != "" && IsSeparator(rest[0])
    ensures IsCredential(path + rest)
  {
    hide Contains, Parts;
    var a, b := ToLower(path), ToLower(rest);
    assert ToLower(path + rest) == a + b;
    PartsJoin(a, b);
    if Contains(a, "api_key") {
      ContainsMore(a, b, "api_key");
    } else if Contains(a, "apikey") {
      ContainsMore(a, b, "apikey");
    } else if Contains(a, "api-key") {
      ContainsMore(a, b, "api-key");
    } else {
      var part :| part in Parts(a) && part in CREDENTIAL_WORDS;
      assert part in Parts(a + b);
    }
  }

  // ---------------------------------------------------------------- the list and the places

  ghost predicate NoCredentials(found: seq<FieldInfo>) {
    forall f <- found :: f.path != "" && !IsCredential(f.path)
  }

  lemma DescribesPath(p: Place)
    ensures InfoOf(p).path == PathOf(p.pos) && InfoOf(p).required == p.required
  {
    hide SchemaType, StringValue;
  }

  /** The collected list describes the kept places, one field each, in order. */
  lemma ListIsKept(schema: Schema, required: bool)
    ensures Collect(schema, "", required, 0, []) == Infos(Kept(schema, required))
  {
    hide Collect, InfoOf, Places;
    var places := Places(schema, [], required, 0);
    CollectKeeps(schema, [], required, 0, []);
    assert [] + Infos(places) == Infos(places);
    assert Capped(Infos(places)) == Infos(Capped(places));
  }

  lemma KeptPlaces(schema: Schema, required: bool)
    ensures |Kept(schema, required)| <= MAX_FIELDS
    ensures forall p <- Kept(schema, required) ::
              p in Places(schema, [], required, 0) && Found(schema, [], required, 0, p)
    ensures Once(Kept(schema, required))
  {
    hide Places, Found;
    var places := Places(schema, [], required, 0);
    PlacesOnce(schema, [], required, 0);
    CappedShort(places);
    forall p <- Kept(schema, required) ensures p in places && Found(schema, [], required, 0, p) {
      PlacesExactly(schema, [], required, 0, p);
    }
  }

  lemma InfosHave(places: seq<Place>, f: FieldInfo)
    ensures f in Infos(places) <==> exists p :: p in places && InfoOf(p) == f
  {
    hide InfoOf;
    if p :| p in places && InfoOf(p) == f {
      var i :| 0 <= i < |places| && places[i] == p;
      assert Infos(places)[i] == f;
    }
  }

  lemma ListedClean(schema: Schema, required: bool)
    ensures NoCredentials(Infos(Kept(schema, required)))
  {
    hide InfoOf, Kept, PathOf, IsCredential, Lookup;
    KeptPlaces(schema, required);
    forall f <- Infos(Kept(schema, required)) ensures f.path != "" && !IsCredential(f.path) {
      InfosHave(Kept(schema, required), f);
      var p :| p in Kept(schema, required) && InfoOf(p) == f;
      DescribesPath(p);
    }
  }

  // ---------------------------------------------------------------- the required chain

  /** Kept places whose names are simple: where they stand shows in their path strings. */
  lemma KeptText(schema: Schema, required: bool, p: Place)
    requires SimpleNames(schema, 0) && p in Kept(schema, required)
    ensures (var c := Canon(p.pos); c != [] && Canonical(c) && AllSimple(c) && PathOf(p.pos) == TextOf(c))
  {
    hide Kept, SimpleNames, PathOf, Canon, TextOf, Lookup, IsCredential;
    KeptPlaces(schema, required);
    assert p.pos[0..] == p.pos;
    LookupSimple(schema, p.pos, required, 0);
    CanonText(p.pos);
    TextParts(Canon(p.pos));
  }

  /** Two kept places break the chain exactly when they clash. */
  lemma PairClashes(schema: Schema, required: bool, a: Place, b: Place)
    requires SimpleNames(schema, 0) && a in Kept(schema, required) && b in Kept(schema, required)
    ensures b.required && !a.required && Beneath(PathOf(a.pos), PathOf(b.pos)) <==> Clashing(a, b)
  {
    hide Kept, SimpleNames, PathOf, Canon, TextOf, Beneath, Found, Places;
    KeptText(schema, required, a);
    KeptText(schema, required, b);
    TextsNest(Canon(a.pos), Canon(b.pos));
    KeptPlaces(schema, required);
    if a.pos <= b.pos && b.required {
      PlacesChained(schema, required, a, b);
    }
  }

  /** For names without dots and opening brackets, a required field has only required fields
      above it exactly when no two of the listed places clash. */
  lemma ChainedExactly(schema: Schema, required: bool)
    requires SimpleNames(schema, 0)
    ensures Chained(Collect(schema, "", required, 0, [])) <==> !Clash(schema, required)
  {
    hide Collect, Kept, SimpleNames, PathOf, InfoOf, Infos, Clashing, Beneath;
    var kept := Kept(schema, required);
    ListIsKept(schema, required);
    if a, b :| a in kept && b in kept && Clashing(a, b) {
      PairClashes(schema, required, a, b);
      DescribesPath(a);
      DescribesPath(b);
      InfosHave(kept, InfoOf(a));
      InfosHave(kept, InfoOf(b));
    }
    forall f, g | f in Infos(kept) && g in Infos(kept) && g.required && Beneath(f.path, g.path)
      ensures f.required || Clash(schema, required)
    {
      InfosHave(kept, f);
      InfosHave(kept, g);
      var a :| a in kept && InfoOf(a) == f;
      var b :| b in kept && InfoOf(b) == g;
      DescribesPath(a);
      DescribesPath(b);
      PairClashes(schema, required, a, b);
    }
  }

  lemma {:induction false} CanonPlain(pos: seq<Step>)
    requires pos != [] && pos[0] != Prop("")
    ensures Canon(pos) == if pos[0] == Item then [Prop("body")] + pos else pos
    decreases |pos|
  {
    var before, s := pos[..|pos| - 1], pos[|pos| - 1];
    assert pos == before + [s];
    if before != [] {
      CanonPlain(before);
      assert [Prop("body")] + before + [s] == [Prop("body")] + (before + [s]);
    } else {
      assert [Prop("body")] + [Item] == [Prop("body"), Item];
    }
  }

  lemma FirstStep(schema: Schema, required: bool, p: Place)
    requires p in Kept(schema, required)
    ensures p.pos != []
    ensures (var properties := MapValue(Get(schema, "properties"));
             if properties == map[] then p.pos[0] == Item else p.pos[0].Prop? && p.pos[0].name in properties)
  {
    hide Kept, IsCredential, StringSlice;
    KeptPlaces(schema, required);
    assert p.pos[0..] == p.pos;
    assert PathOf([]) == "";
  }

  /** Only a property without a name at the root can make places clash; below the root an
      empty name does no harm. */
  lemma ClashNeedsNameless(schema: Schema, required: bool)
    requires "" !in MapValue(Get(schema, "properties"))
    ensures !Clash(schema, required)
  {
    hide Kept, Canon;
    forall a, b | a in Kept(schema, required) && b in Kept(schema, required) ensures !Clashing(a, b) {
      FirstStep(schema, required, a);
      FirstStep(schema, required, b);
      CanonPlain(a.pos);
      CanonPlain(b.pos);
      if Canon(a.pos) < Canon(b.pos) && a.pos[0] == Item {
        assert a.pos == Canon(a.pos)[1..] && b.pos == Canon(b.pos)[1..];
      }
    }
  }

  // ---------------------------------------------------------------- main result

  /** The list describes the first sixty listed places of the schema, each once, sorted by
      path; none has a credential-like path or stands below one; a required place has only
      required places above it in the tree; and, for names without dots and opening brackets,
      the same holds for the path strings exactly when no two listed places clash. */
  lemma FieldsGuarantee(schema: Schema, required: bool)
    ensures (var fields, kept := Summaries(schema, "", required, 0), Kept(schema, required);
             && |fields| <= MAX_FIELDS && Sorted(PathKey, fields) && NoCredentials(fields)
             && multiset(fields) == multiset(Infos(kept)) && Once(kept)
             && (forall f <- fields, top: string :: Beneath(top, f.path) ==> !IsCredential(top))
             && (forall a, b :: a in kept && b in kept && a.pos <= b.pos && b.required ==> a.required)
             && (SimpleNames(schema, 0) ==> (Chained(fields) <==> !Clash(schema, required))))
  {
    hide Collect, IsCredential, SimpleNames, SortBy, Sorted, Beneath, Kept, Infos, Once, Clash, Places, Found;
    var found := Collect(schema, "", required, 0, []);
    ListIsKept(schema, required);
    KeptPlaces(schema, required);
    ListedClean(schema, required);
    KeptCount(schema, required);
    SortBySorts(PathKey, found);
    var fields := Summaries(schema, "", required, 0);
    assert |multiset(SortBy(PathKey, found))| == |multiset(found)| == |found|;
    assert fields == SortBy(PathKey, found);
    forall f ensures f in fields <==> f in found {
      assert f in multiset(fields) <==> f in multiset(found);
    }
    forall f <- fields, top: string | Beneath(top, f.path) ensures !IsCredential(top) {
      AboveClean(f.path, top);
    }
    forall a, b | a in Kept(schema, required) && b in Kept(schema, required) && a.pos <= b.pos && b.required
      ensures a.required
    {
      PlacesChained(schema, required, a, b);
    }
    if SimpleNames(schema, 0) {
      ChainedExactly(schema, required);
    }
  }

  lemma KeptCount(schema: Schema, required: bool)
    ensures |Infos(Kept(schema, required))| == |Kept(schema, required)|
  {
    hide InfoOf, Kept;
  }

  lemma AboveClean(path: string, top: string)
    requires !IsCredential(path) && Beneath(top, path)
    ensures !IsCredential(top)
  {
    hide IsCredential;
    assert path == top + path[|top|..];
    if IsCredential(top) {
      CredentialBelow(top, path[|top|..]);
    }
  }

  // ---------------------------------------------------------------- a name that clashes

  /** A schema with an empty property name: `b` is listed twice, once below it. */
  function Nameless(): Schema {
    map["properties" := Obj(map["" := Obj(Inner("b")), "b" := Obj(RequiredInner())]),
        "required" := Strs(["b"])]
  }

  function Inner(name: string): Schema {
    map["properties" := Obj(map[name := Obj(map[])])]
  }

  lemma OneName(name: string)
    requires name != "" && TrimSpace(name) == name
    ensures SortedSet({name}) == [name] && StringSlice(Strs([name])) == [name]
  {
    hide TrimSpace, Less;
    Reflexive(name);
    LeastFirst({name}, name);
    assert {name} - {name} == {};
    assert TrimmedSet([name]) == {name};
  }

  lemma EmptyLeast(s: set<string>)
    requires "" in s
    ensures IsLeast("", s)
  {
  }

  lemma TwoNames()
    ensures SortedSet({"", "b"}) == ["", "b"]
  {
    hide SortedSet, IsLeast, TrimSpace;
    EmptyLeast({"", "b"});
    LeastFirst({"", "b"}, "");
    assert {"", "b"} - {""} == {"b"};
    TrimSpaceFixes("b");
    OneName("b");
  }

  lemma OneLetter(c: char)
    requires !IsSeparator(c)
    ensures Parts([c]) == [[c]]
  {
    assert [c][1..] == "" && [c][..1] == [c];
    assert PartLength([c]) == 1;
    assert Parts("") == [];
  }

  lemma PlainPaths()
    ensures !IsCredential("b") && !IsCredential("b.c")
  {
    hide Parts;
    assert ToLower("b") == "b" && ToLower("b.c") == "b.c";
    OneLetter('b');
    OneLetter('c');
    PartsJoin("b", ".c");
    assert "b" + ".c" == "b.c";
    DotSkipped();
  }

  lemma DotSkipped()
    ensures Parts(".c") == Parts("c")
  {
    assert ".c"[1..] == "c";
  }

  /** A leaf property of a node. */
  lemma InnerCollected(name: string, path: string, required: bool, needed: seq<string>, found: seq<FieldInfo>)
    requires name != "" && TrimSpace(name) == name && |found| < MAX_FIELDS - 1 && Listed(ChildPath(path, name))
    ensures CollectEach(SortedSet(Inner(name)["properties"].fields.Keys), Inner(name)["properties"].fields, needed,
                        path, required, 1, found)
         == found + [FieldInfo(ChildPath(path, name), required && name in needed, "", "", "", "")]
  {
    hide TrimSpace, IsCredential, SortedSet, StringSlice;
    OneName(name);
    var properties := Inner(name)["properties"].fields;
    assert properties.Keys == {name};
    assert MapValue(Get(properties, name)) == map[];
    assert [name][1..] == [];
  }

  const EMPTY_CHILD := FieldInfo("b", false, "", "", "", "")
  const REQUIRED_CHILD := FieldInfo("b.c", true, "", "", "", "")

  function RequiredInner(): Schema {
    Inner("c")["required" := Strs(["c"])]
  }

  /** The nameless property lists its child under the child's own name. */
  lemma NamelessCollected()
    ensures Collect(Inner("b"), "", false, 1, []) == [EMPTY_CHILD]
  {
    hide TrimSpace, IsCredential, SortedSet, StringSlice;
    PlainPaths();
    TrimSpaceFixes("b");
    NothingNeeded();
    InnerCollected("b", "", false, [], []);
    assert [] + [EMPTY_CHILD] == [EMPTY_CHILD];
  }

  lemma NamedCollected()
    ensures (var b := Describe("b", true, RequiredInner());
             Collect(RequiredInner(), "b", true, 1, [EMPTY_CHILD]) == [EMPTY_CHILD] + [b] + [REQUIRED_CHILD])
  {
    hide TrimSpace, IsCredential, SortedSet, StringSlice, Describe;
    PlainPaths();
    TrimSpaceFixes("c");
    OneName("c");
    assert "b" + "." + "c" == "b.c";
    InnerCollected("c", "b", true, ["c"], [EMPTY_CHILD] + [Describe("b", true, RequiredInner())]);
  }

  lemma NamelessRoot()
    ensures Collect(Nameless(), "", true, 0, [])
         == Collect(RequiredInner(), "b", true, 1, Collect(Inner("b"), "", false, 1, []))
  {
    hide TrimSpace, SortedSet, StringSlice, IsCredential;
    TwoNames();
    TrimSpaceFixes("b");
    OneName("b");
    NamelessCollected();
    NamedCollected();
    var properties := Nameless()["properties"].fields;
    assert properties.Keys == {"", "b"};
    assert ["", "b"][1..] == ["b"] && ["b"][1..] == [];
  }

  lemma {:induction false} EmptySimple(depth: nat)
    ensures SimpleNames(map[], depth)
    decreases MAX_FIELD_DEPTH + 1 - depth
  {
    if depth <= MAX_FIELD_DEPTH {
      EmptySimple(depth + 1);
    }
  }

  lemma InnerSimple(schema: Schema, name: string, depth: nat)
    requires schema == Inner(name) || schema == Inner(name)["required" := Strs([name])]
    requires Simple(Prop(name))
    ensures SimpleNames(schema, depth)
  {
    hide Simple;
    EmptySimple(depth + 1);
    assert MapValue(Get(schema, "properties")) == map[name := Obj(map[])];
    assert MapValue(Get(schema, "items")) == map[];
  }

  lemma NamelessFields()
    ensures MapValue(Get(Nameless(), "properties")) == map["" := Obj(Inner("b")), "b" := Obj(RequiredInner())]
    ensures MapValue(Get(Nameless(), "items")) == map[]
  {
    hide Inner, RequiredInner;
  }

  lemma NamelessSimple()
    ensures SimpleNames(Nameless(), 0)
  {
    hide Simple, Inner, RequiredInner, Nameless;
    EmptySimple(1);
    NamelessFields();
    var properties := MapValue(Get(Nameless(), "properties"));
    forall name <- properties.Keys ensures Simple(Prop(name)) && SimpleNames(MapValue(properties[name]), 1) {
      NamelessChild(name);
    }
  }

  lemma NamelessChild(name: string)
    requires name == "" || name == "b"
    ensures Simple(Prop(name)) && SimpleNames(if name == "" then Inner("b") else RequiredInner(), 1)
  {
    InnerSimple(Inner("b"), "b", 1);
    InnerSimple(RequiredInner(), "c", 1);
  }

  /** With a nameless property a required field can stand below one that is not: here `b.c`
      is required, while one of the two fields listed as `b` is not. */
  lemma EmptyNameBreaksChain()
    ensures SimpleNames(Nameless(), 0) && Clash(Nameless(), true)
    ensures !Chained(Collect(Nameless(), "", true, 0, []))
  {
    hide Collect, Describe, Nameless, Inner, RequiredInner, SimpleNames, Clash, Kept;
    NamelessSimple();
    ChainedExactly(Nameless(), true);
    NamelessRoot();
    NamelessCollected();
    NamedCollected();
    var all := Collect(Nameless(), "", true, 0, []);
    assert EMPTY_CHILD in all && REQUIRED_CHILD in all;
    assert Beneath("b", "b.c");
  }

  lemma NothingNeeded()
    ensures StringSlice(Null) == []
  {
  }
}
