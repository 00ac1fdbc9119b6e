/** What a listed request field says of the schema at its place. */
module FieldTexts {
  import opened Json
  import opened Ordering
  import opened RequestFieldProofs
  import opened RequestFieldSpec
  import opened RequestPlaces
  import opened Text
  import opened Wrappers

  /** The text under a keyword: a string without white space around it, or a number. */
  function TextAt(s: Schema, key: string): string {
    if key !in s then ""
    else if s[key].Str? then TrimSpace(s[key].s)
    else if s[key].Number? then s[key].text
    else ""
  }

  function TextOf(j: Json): string {
    if j.Str? then TrimSpace(j.s) else if j.Number? then j.text else ""
  }

  /** The names of a list of types: those of its texts that are not blank, sorted. */
  ghost predicate TypeNames(j: Json, names: seq<string>) {
    && Sorted(Same, names)
    && match j
       case Arr(items) => forall x :: x in names <==> x != "" && exists item <- items :: TextOf(item) == x
       case Strs(list) => forall x :: x in names <==> x != "" && exists s <- list :: TrimSpace(s) == x
       case _ => names == []
  }

  /** The type is the one that is given, or the types of a list with bars between them. */
  ghost predicate SaysType(s: Schema, typ: string) {
    if TextAt(s, "type") != "" then typ == TextAt(s, "type")
    else if "type" in s then exists names :: TypeNames(s["type"], names) && typ == Join(names, "|")
    else typ == ""
  }

  ghost predicate SaysSchema(f: FieldInfo, s: Schema) {
    && SaysType(s, f.typ)
    && f.format == TextAt(s, "format") && f.ref == TextAt(s, "$ref") && f.description == TextAt(s, "description")
  }

  lemma TextRead(s: Schema, key: string)
    ensures StringValue(Get(s, key)) == TextAt(s, key)
  {
    hide TrimSpace;
  }

  lemma {:induction false} TextsExactly(items: seq<Json>, x: string)
    ensures x in Texts(items) <==> x != "" && exists item <- items :: TextOf(item) == x
  {
    hide TrimSpace;
    if items != [] {
      TextsExactly(items[1..], x);
      assert forall item :: item in items <==> item == items[0] || item in items[1..];
      assert StringValue(items[0]) == TextOf(items[0]);
    }
  }

  lemma AscendingSorted(s: set<string>)
    ensures Sorted(Same, SortedSet(s))
  {
    hide SortedSet, Less;
    SortedSetAscends(s);
    forall i, j | 0 <= i < j < |SortedSet(s)| ensures AtMost(Same(SortedSet(s)[i]), Same(SortedSet(s)[j])) {
      LessAsymmetric(SortedSet(s)[i], SortedSet(s)[j]);
    }
  }

  lemma ListNamed(j: Json)
    requires StringValue(j) == ""
    ensures TypeNames(j, StringSlice(j))
  {
    hide TrimSpace, SortedSet, SortBy, Texts, Sorted;
    match j {
      case Arr(items) =>
        SortBySorts(Same, Texts(items));
        forall x ensures x in SortBy(Same, Texts(items)) <==> x != "" && exists item <- items :: TextOf(item) == x {
          TextsExactly(items, x);
          assert x in SortBy(Same, Texts(items)) <==> x in multiset(SortBy(Same, Texts(items)));
          assert x in Texts(items) <==> x in multiset(Texts(items));
        }
      case Strs(list) =>
        AscendingSorted(TrimmedSet(list));
        forall x ensures x in SortedSet(TrimmedSet(list)) <==> x != "" && exists s <- list :: TrimSpace(s) == x {
          assert x in SortedSet(TrimmedSet(list)) <==> x in TrimmedSet(list);
        }
      case _ => NothingSorted();
    }
  }

  lemma NothingSorted()
    ensures Sorted(Same, [])
  {
  }

  lemma Described(path: string, required: bool, s: Schema)
    ensures SaysSchema(Describe(path, required, s), s)
  {
    hide StringSlice, StringValue, TextAt, TypeNames, Join;
    TextRead(s, "type");
    TextRead(s, "format");
    TextRead(s, "$ref");
    TextRead(s, "description");
    if TextAt(s, "type") == "" {
      if "type" in s {
        ListNamed(s["type"]);
      } else {
        NothingJoined();
      }
    }
  }

  lemma NothingJoined()
    ensures Join(StringSlice(Null), "|") == ""
  {
  }

  lemma EmptySays(path: string, required: bool)
    ensures SaysSchema(FieldInfo(path, required, "", "", "", ""), map[])
  {
  }

  /** A listed field shows the path of one of the first sixty listed places, whether it is
      required there, and type, format, reference and description of the schema there; and
      each of these places is shown. */
  lemma FieldsSay(schema: Schema, required: bool)
    ensures forall f <- Summaries(schema, "", required, 0) ::
              exists p <- Kept(schema, required) ::
                f.path == PathOf(p.pos) && f.required == p.required && SaysSchema(f, p.schema)
    ensures forall p <- Kept(schema, required) ::
              exists f <- Summaries(schema, "", required, 0) ::
                f.path == PathOf(p.pos) && f.required == p.required && SaysSchema(f, p.schema)
  {
    hide Summaries, Kept, InfoOf, PathOf, SaysSchema, Infos;
    forall p ensures InfoSays(p) {
      InfoTold(p);
    }
    SummariesHave(schema, required);
    var fields, kept := Summaries(schema, "", required, 0), Kept(schema, required);
    forall f <- fields
      ensures exists p <- kept :: f.path == PathOf(p.pos) && f.required == p.required && SaysSchema(f, p.schema)
    {
      InfosHave(kept, f);
      var p :| p in kept && InfoOf(p) == f;
      assert InfoSays(p);
    }
    forall p <- kept
      ensures exists f <- fields :: f.path == PathOf(p.pos) && f.required == p.required && SaysSchema(f, p.schema)
    {
      InfosHave(kept, InfoOf(p));
      assert InfoSays(p) && InfoOf(p) in fields;
    }
  }

  ghost predicate InfoSays(p: Place) {
    InfoOf(p).path == PathOf(p.pos) && InfoOf(p).required == p.required && SaysSchema(InfoOf(p), p.schema)
  }

  lemma InfoTold(p: Place)
    ensures InfoSays(p)
  {
    hide SaysSchema, PathOf, Describe;
    DescribesPath(p);
    EmptySays(PathOf(p.pos), p.required);
    Described(PathOf(p.pos), p.required, p.schema);
  }

  lemma SummariesHave(schema: Schema, required: bool)
    ensures forall f :: f in Summaries(schema, "", required, 0) <==> f in Infos(Kept(schema, required))
  {
    hide Kept, Infos, Summaries, Sorted, NoCredentials, Once, Beneath, IsCredential, SimpleNames, Clash, Chained;
    FieldsGuarantee(schema, required);
    var fields, infos := Summaries(schema, "", required, 0), Infos(Kept(schema, required));
    forall f ensures f in fields <==> f in infos {
      assert f in multiset(fields) <==> f in multiset(infos);
    }
  }
}
