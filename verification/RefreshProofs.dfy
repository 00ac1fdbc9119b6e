/** What the corrections guarantee. */
module RefreshProofs {
  import opened Json
  import opened RefreshSpec
  import opened Text

  // ---------------------------------------------------------------- the checker

  /** The checker rejects exactly the trees with an external `$ref` or nested too deep. */
  lemma {:induction false} CheckerExactly(v: Json, depth: nat)
    requires depth <= MAX_REF_SCAN_DEPTH
    ensures ContainsExternalRef(v, depth) <==> HasExternal(v) || !Nested(v, MAX_REF_SCAN_DEPTH - depth)
    decreases v
  {
    hide External;
    var n := MAX_REF_SCAN_DEPTH - depth;
    match v {
      case Obj(f) =>
        forall k <- f.Keys
          ensures ContainsExternalRef(f[k], depth + 1) <==> n == 0 || HasExternal(f[k]) || !Nested(f[k], n - 1)
        {
          if n > 0 {
            CheckerExactly(f[k], depth + 1);
          }
        }
      case Arr(items) =>
        forall x <- items ensures ContainsExternalRef(x, depth + 1) <==> n == 0 || HasExternal(x) || !Nested(x, n - 1) {
          if n > 0 {
            CheckerExactly(x, depth + 1);
          }
        }
      case _ =>
    }
  }

  // ---------------------------------------------------------------- one object

  lemma ExternalIs(f: Schema)
    ensures WithPlaceholder(f) == if External(f)
              then (f - {"$ref"})["type" := Str("object")]["additionalProperties" := Bool(true)] else f
  {
    hide TrimSpace;
    if "$ref" in f && f["$ref"].Str? {
      TrimSpaceIdempotent(f["$ref"].s);
    }
  }

  /** Scalars and the values that the visitors insert are their own corrections. */
  predicate Plain(v: Json) {
    (!v.Obj? && !v.Arr?) || v == Obj(map[])
  }

  lemma PlainCorrected(rule: Rule, v: Json)
    requires Plain(v)
    ensures Corrected(rule, v) == v
  {
  }

  /** Only plain values are inserted, and only plain values are looked at. */
  lemma VisitInserts(rule: Rule, f: Schema, k: string)
    ensures k in Visit(rule, f) ==> Plain(Visit(rule, f)[k]) || (k in f && Visit(rule, f)[k] == f[k])
  {
    hide TrimSpace;
  }

  ghost predicate SameScalars(f: Schema, g: Schema) {
    f.Keys == g.Keys && forall k <- f :: (f[k].Str? || f[k].Null? || g[k].Str? || g[k].Null?) ==> f[k] == g[k]
  }

  lemma VisitWith(rule: Rule, f: Schema, g: Schema, k: string)
    requires SameScalars(f, g)
    ensures k in Visit(rule, f) <==> k in Visit(rule, g)
    ensures k in Visit(rule, f) ==>
              (Visit(rule, f)[k] == Visit(rule, g)[k] && Plain(Visit(rule, f)[k]))
              || (k in f && Visit(rule, f)[k] == f[k] && Visit(rule, g)[k] == g[k])
  {
    hide TrimSpace, IsExternalRef;
    match rule {
      case Placeholder =>
      case HighLevel => HighLevelWith(f, g, k);
    }
  }

  lemma HighLevelWith(f: Schema, g: Schema, k: string)
    requires SameScalars(f, g)
    ensures (var a, b := Visit(HighLevel, f), Visit(HighLevel, g); OneField(f, g, a, b, k))
  {
    hide TrimSpace, WithLocalRef, WithDescription, WithItems, OneField, Plain, SameScalars;
    var f1, g1 := WithLocalRef(f), WithLocalRef(g);
    RefWith(f, g, k);
    var f2, g2 := WithDescription(f1), WithDescription(g1);
    DescriptionWith(f1, g1, k);
    ItemsWith(f2, g2, k);
    FieldTwice(f, g, f1, g1, f2, g2, k);
    FieldTwice(f, g, f2, g2, WithItems(f2), WithItems(g2), k);
  }

  /** From f and g to a and b, field k became the same plain value or stayed. */
  ghost predicate OneField(f: Schema, g: Schema, a: Schema, b: Schema, k: string) {
    && (k in a <==> k in b)
    && (k in a ==> (a[k] == b[k] && Plain(a[k])) || (k in f && k in g && a[k] == f[k] && b[k] == g[k]))
  }

  lemma FieldTwice(f: Schema, g: Schema, f1: Schema, g1: Schema, f2: Schema, g2: Schema, k: string)
    requires OneField(f, g, f1, g1, k) && OneField(f1, g1, f2, g2, k)
    ensures OneField(f, g, f2, g2, k)
  {
    hide Plain;
  }

  lemma RefWith(f: Schema, g: Schema, k: string)
    requires SameScalars(f, g)
    ensures SameScalars(WithLocalRef(f), WithLocalRef(g)) && OneField(f, g, WithLocalRef(f), WithLocalRef(g), k)
  {
    hide TrimSpace;
  }

  lemma DescriptionWith(f: Schema, g: Schema, k: string)
    requires SameScalars(f, g)
    ensures SameScalars(WithDescription(f), WithDescription(g))
            && OneField(f, g, WithDescription(f), WithDescription(g), k)
  {
    hide TrimSpace;
  }

  lemma ItemsWith(f: Schema, g: Schema, k: string)
    requires SameScalars(f, g)
    ensures OneField(f, g, WithItems(f), WithItems(g), k)
  {
    hide TrimSpace;
  }

  ghost function Children(rule: Rule, f: Schema): Schema {
    map k | k in f.Keys :: Corrected(rule, f[k])
  }

  lemma CorrectedObj(rule: Rule, f: Schema)
    ensures Corrected(rule, Obj(f)) == Obj(Visit(rule, Children(rule, f)))
  {
    hide Visit;
  }

  lemma ChildrenScalars(rule: Rule, f: Schema)
    ensures SameScalars(f, Children(rule, f))
  {
    hide Visit;
  }

  /** Visiting an object before its children, as the source does, or after them makes no
      difference. */
  lemma VisitCommutes(rule: Rule, f: Schema)
    ensures Children(rule, Visit(rule, f)) == Visit(rule, Children(rule, f))
  {
    hide Visit, Corrected, SameScalars, Plain;
    var g := Children(rule, f);
    ChildrenScalars(rule, f);
    forall k ensures k in Visit(rule, f) <==> k in Visit(rule, g)
      ensures k in Visit(rule, f) ==> Corrected(rule, Visit(rule, f)[k]) == Visit(rule, g)[k]
    {
      VisitWith(rule, f, g, k);
      if k in Visit(rule, f) && Plain(Visit(rule, f)[k]) {
        PlainCorrected(rule, Visit(rule, f)[k]);
      }
    }
  }

  lemma LocalRefOnce(f: Schema)
    ensures WithLocalRef(WithLocalRef(f)) == WithLocalRef(f)
  {
    hide TrimSpace;
    var ref := StringOf(Get(f, "$ref"));
    if COMMON_PREFIX <= ref {
      LocalRefTrimmed(ref[|COMMON_PREFIX|..]);
    }
  }

  lemma LocalRefTrimmed(rest: string)
    ensures !(COMMON_PREFIX <= TrimSpace(LOCAL_PREFIX + rest))
  {
    var s := LOCAL_PREFIX + rest;
    assert s[0] == '#' && TrimLeft(s) == s;
    assert TrimRight(s) <= s;
    assert COMMON_PREFIX[0] == "../"[0];
  }

  /** The three rewrites touch different fields. */
  lemma RewritesApart(f: Schema)
    ensures StringOf(Get(WithDescription(f), "$ref")) == StringOf(Get(f, "$ref"))
    ensures StringOf(Get(WithItems(f), "$ref")) == StringOf(Get(f, "$ref"))
    ensures Get(WithItems(f), "description") == Get(f, "description")
  {
    hide TrimSpace;
  }

  lemma FilledDescription()
    ensures TrimSpace("Successful response") != ""
  {
    TrimSpaceFixes("Successful response");
  }

  /** Visiting an object twice is visiting it once. */
  lemma VisitIdempotent(rule: Rule, f: Schema)
    ensures Visit(rule, Visit(rule, f)) == Visit(rule, f)
  {
    hide TrimSpace, WithLocalRef, WithItems, WithDescription;
    match rule {
      case Placeholder =>
      case HighLevel =>
        var f1 := WithLocalRef(f);
        var f2 := WithDescription(f1);
        LocalRefOnce(f);
        RewritesApart(f1);
        RewritesApart(f2);
        SameRef(f1, WithItems(f2));
        FilledDescription();
        DescriptionOnce(f1, WithItems(f2));
        ItemsOnce(f2);
    }
  }

  lemma LocalRefShows(f: Schema)
    ensures WithLocalRef(f) == f <==> !(COMMON_PREFIX <= StringOf(Get(f, "$ref")))
  {
    hide TrimSpace;
    var ref := StringOf(Get(f, "$ref"));
    if COMMON_PREFIX <= ref {
      LocalRefTrimmed(ref[|COMMON_PREFIX|..]);
      assert StringOf(WithLocalRef(f)["$ref"]) == TrimSpace(LOCAL_PREFIX + ref[|COMMON_PREFIX|..]);
    }
  }

  lemma SameRef(f: Schema, g: Schema)
    requires StringOf(Get(f, "$ref")) == StringOf(Get(g, "$ref")) && WithLocalRef(f) == f
    ensures WithLocalRef(g) == g
  {
    hide WithLocalRef, StringOf;
    LocalRefShows(f);
    LocalRefShows(g);
  }

  lemma DescriptionOnce(f: Schema, g: Schema)
    requires Get(g, "description") == Get(WithDescription(f), "description")
    ensures WithDescription(g) == g
  {
    hide TrimSpace;
    FilledDescription();
  }

  lemma ItemsOnce(f: Schema)
    ensures WithItems(WithItems(f)) == WithItems(f)
  {
    hide TrimSpace;
  }

  // ---------------------------------------------------------------- whole trees

  /** Correcting a corrected tree changes nothing. */
  lemma {:induction false} CorrectedOnce(rule: Rule, v: Json)
    ensures Corrected(rule, Corrected(rule, v)) == Corrected(rule, v)
    decreases v
  {
    hide Visit;
    match v {
      case Obj(f) =>
        var g := Children(rule, f);
        forall k <- f.Keys ensures Corrected(rule, g[k]) == g[k] {
          CorrectedOnce(rule, f[k]);
        }
        assert Children(rule, g) == g;
        CorrectedObj(rule, f);
        CorrectedObj(rule, Visit(rule, g));
        VisitCommutes(rule, g);
        VisitIdempotent(rule, g);
      case Arr(items) =>
        forall i | 0 <= i < |items| ensures Corrected(rule, Corrected(rule, items[i])) == Corrected(rule, items[i]) {
          CorrectedOnce(rule, items[i]);
        }
      case _ =>
    }
  }

  /** An object stays as it is exactly when neither the visitor nor any child changes. */
  lemma UnchangedExactly(rule: Rule, f: Schema)
    ensures Corrected(rule, Obj(f)) == Obj(f) <==> Visit(rule, f) == f && Children(rule, f) == f
  {
    hide Visit, Corrected;
    var g := Children(rule, f);
    CorrectedObj(rule, f);
    if Visit(rule, g) == f {
      VisitIdempotent(rule, g);
      VisitCommutes(rule, g);
      forall k <- f.Keys ensures Corrected(rule, g[k]) == g[k] {
        CorrectedOnce(rule, f[k]);
      }
      assert Children(rule, g) == g;
    }
  }

  /** No object of the tree is one that the visitor would change. */
  ghost predicate Clean(rule: Rule, v: Json) {
    match v
    case Obj(f) => Visit(rule, f) == f && forall k <- f.Keys :: Clean(rule, f[k])
    case Arr(items) => forall x <- items :: Clean(rule, x)
    case _ => true
  }

  lemma ItemsUnchanged(rule: Rule, items: seq<Json>)
    ensures Corrected(rule, Arr(items)) == Arr(items) <==> forall x <- items :: Corrected(rule, x) == x
  {
    hide Visit;
    var c := Corrected(rule, Arr(items));
    if c == Arr(items) {
      forall x <- items ensures Corrected(rule, x) == x {
        var i :| 0 <= i < |items| && items[i] == x;
        assert c.items[i] == Corrected(rule, items[i]);
      }
    } else {
      var i :| 0 <= i < |items| && c.items[i] != items[i];
      assert items[i] in items;
    }
  }

  /** A tree is its own correction exactly when it is clean. */
  lemma {:induction false} CleanExactly(rule: Rule, v: Json)
    ensures Clean(rule, v) <==> Corrected(rule, v) == v
    decreases v
  {
    hide Visit;
    match v {
      case Obj(f) =>
        UnchangedExactly(rule, f);
        forall k <- f.Keys ensures Clean(rule, f[k]) <==> Corrected(rule, f[k]) == f[k] {
          CleanExactly(rule, f[k]);
        }
        assert Children(rule, f) == f <==> forall k <- f.Keys :: Clean(rule, f[k]);
      case Arr(items) =>
        forall x <- items ensures Clean(rule, x) <==> Corrected(rule, x) == x {
          CleanExactly(rule, x);
        }
        ItemsUnchanged(rule, items);
      case _ =>
    }
  }

  lemma {:induction false} PlaceholderClean(v: Json)
    ensures Clean(Placeholder, v) <==> !HasExternal(v)
    decreases v
  {
    hide External, WithPlaceholder;
    match v {
      case Obj(f) =>
        ExternalShows(f);
        forall k <- f.Keys ensures Clean(Placeholder, f[k]) <==> !HasExternal(f[k]) {
          PlaceholderClean(f[k]);
        }
      case Arr(items) =>
        forall x <- items ensures Clean(Placeholder, x) <==> !HasExternal(x) {
          PlaceholderClean(x);
        }
      case _ =>
    }
  }

  lemma ExternalShows(f: Schema)
    ensures WithPlaceholder(f) == f <==> !External(f)
  {
    hide TrimSpace, WithPlaceholder, IsExternalRef;
    ExternalIs(f);
    if External(f) {
      assert "$ref" !in WithPlaceholder(f);
    }
  }

  lemma VisitNests(rule: Rule, f: Schema, n: nat)
    requires Nested(Obj(f), n)
    ensures Nested(Obj(Visit(rule, f)), n)
  {
    hide Visit;
    VisitEmpty(rule);
    forall k <- Visit(rule, f).Keys ensures n > 0 && Nested(Visit(rule, f)[k], n - 1) {
      VisitInserts(rule, f, k);
      if f != map[] {
        var j :| j in f.Keys;
      }
    }
  }

  lemma VisitEmpty(rule: Rule)
    ensures Visit(rule, map[]) == map[]
  {
    TrimSpaceFixes("");
  }

  /** A correction never nests a document deeper. */
  lemma {:induction false} CorrectedNests(rule: Rule, v: Json, n: nat)
    requires Nested(v, n)
    ensures Nested(Corrected(rule, v), n)
    decreases v
  {
    hide Visit;
    match v {
      case Obj(f) =>
        var g := Children(rule, f);
        forall k <- f.Keys ensures n > 0 && Nested(g[k], n - 1) {
          CorrectedNests(rule, f[k], n - 1);
        }
        CorrectedObj(rule, f);
        VisitNests(rule, g, n);
      case Arr(items) =>
        var c := Corrected(rule, v);
        forall x <- c.items ensures n > 0 && Nested(x, n - 1) {
          var i :| 0 <= i < |items| && c.items[i] == x;
          assert items[i] in items;
          CorrectedNests(rule, items[i], n - 1);
        }
      case _ =>
    }
  }

  // ---------------------------------------------------------------- main results

  /** The placeholder correction against the checker: on a tree nested within the limit it
      changes the tree exactly when the checker rejects it, and the checker accepts the
      result; on any tree it leaves no external reference, so that only depth can make the
      checker reject the result. */
  lemma PlaceholderSatisfiesChecker(v: Json)
    ensures !HasExternal(Corrected(Placeholder, v))
    ensures Corrected(Placeholder, v) != v <==> HasExternal(v)
    ensures Nested(v, MAX_REF_SCAN_DEPTH) ==>
              && (Corrected(Placeholder, v) != v <==> ContainsExternalRef(v, 0))
              && !ContainsExternalRef(Corrected(Placeholder, v), 0)
    ensures ContainsExternalRef(Corrected(Placeholder, v), 0)
         <==> !Nested(Corrected(Placeholder, v), MAX_REF_SCAN_DEPTH)
  {
    hide Corrected, HasExternal, Nested, Clean, ContainsExternalRef;
    var c := Corrected(Placeholder, v);
    CorrectedOnce(Placeholder, v);
    CleanExactly(Placeholder, c);
    PlaceholderClean(c);
    CleanExactly(Placeholder, v);
    PlaceholderClean(v);
    CheckerExactly(v, 0);
    CheckerExactly(c, 0);
    if Nested(v, MAX_REF_SCAN_DEPTH) {
      CorrectedNests(Placeholder, v, MAX_REF_SCAN_DEPTH);
    }
  }

  /** Objects stay objects and keep their keys. */
  lemma HighLevelKeeps(f: Schema, k: string)
    requires k in f && f[k].Obj?
    ensures k in Visit(HighLevel, f) && Visit(HighLevel, f)[k] == f[k]
  {
    hide TrimSpace;
  }

  lemma HighLevelKeepsKeys(f: Schema)
    ensures f.Keys <= Visit(HighLevel, f).Keys
  {
    hide TrimSpace;
  }

  lemma CorrectedObject(f: Schema, k: string)
    requires k in f && f[k].Obj?
    ensures (var g := Corrected(HighLevel, Obj(f)).fields;
             && k in g && g[k] == Corrected(HighLevel, f[k]) && g[k].Obj?
             && f[k].fields.Keys <= g[k].fields.Keys)
  {
    hide Visit;
    var g := Children(HighLevel, f);
    CorrectedObj(HighLevel, f);
    HighLevelKeeps(g, k);
    CorrectedObj(HighLevel, f[k].fields);
    HighLevelKeepsKeys(Children(HighLevel, f[k].fields));
  }

  /** The common schemas are where the corrected document looks for them. */
  ghost predicate HasCommon(root: Schema) {
    && "components" in root && root["components"].Obj?
    && "schemas" in root["components"].fields && root["components"].fields["schemas"].Obj?
    && Common.Keys <= root["components"].fields["schemas"].fields.Keys
  }

  lemma BundledExactly(root: Schema)
    ensures HasCommon(Bundled(root))
    ensures Bundled(root) == root <==> HasCommon(root)
  {
    if HasCommon(root) {
      var components := root["components"].fields;
      var schemas := components["schemas"].fields;
      assert Common + schemas == schemas;
      assert components["schemas" := Obj(schemas)] == components;
      assert root["components" := Obj(components)] == root;
    }
  }

  lemma CorrectedKeepsCommon(root: Schema)
    requires HasCommon(root)
    ensures HasCommon(Corrected(HighLevel, Obj(root)).fields)
  {
    hide Corrected;
    CorrectedObject(root, "components");
    CorrectedObject(root["components"].fields, "schemas");
  }

  /** The HighLevel correction bundles the common schemas, leaves no object that it would
      rewrite again, and applying it again changes nothing. */
  lemma HighLevelOnce(root: Schema)
    ensures HasCommon(HighLevelCorrected(root)) && Clean(HighLevel, Obj(HighLevelCorrected(root)))
    ensures HighLevelCorrected(HighLevelCorrected(root)) == HighLevelCorrected(root)
    ensures HighLevelCorrected(root) == root <==> HasCommon(root) && Clean(HighLevel, Obj(root))
  {
    hide Corrected, Bundled, HasCommon, Clean;
    var result := HighLevelCorrected(root);
    BundledExactly(root);
    CorrectedKeepsCommon(Bundled(root));
    CorrectedIsObj(Bundled(root));
    BundledExactly(result);
    CorrectedOnce(HighLevel, Obj(Bundled(root)));
    CleanExactly(HighLevel, Obj(result));
    CleanExactly(HighLevel, Obj(root));
    CorrectedIsObj(root);
  }

  lemma CorrectedIsObj(f: Schema)
    ensures Corrected(HighLevel, Obj(f)).Obj?
  {
    hide Visit;
  }

  /** What clean means for the HighLevel rule, at each object. */
  lemma HighLevelCleanMeans(f: Schema)
    ensures Visit(HighLevel, f) == f <==>
            && !(COMMON_PREFIX <= StringOf(Get(f, "$ref")))
            && !(Get(f, "description").Str? && TrimSpace(Get(f, "description").s) == "")
            && !(StringOf(Get(f, "type")) == "array" && Get(f, "items").Null?)
  {
    hide TrimSpace, WithLocalRef, WithDescription, WithItems;
    var f1 := WithLocalRef(f);
    var f2 := WithDescription(f1);
    LocalRefShows(f);
    DescriptionShows(f1);
    ItemsShows(f2);
    SameElsewhere(f);
    if Visit(HighLevel, f) == f && f1 != f {
      LocalRefChanges(f);
    }
  }

  lemma LocalRefChanges(f: Schema)
    requires WithLocalRef(f) != f
    ensures Get(Visit(HighLevel, f), "$ref") == Get(WithLocalRef(f), "$ref") != Get(f, "$ref")
  {
    hide TrimSpace;
  }

  lemma DescriptionShows(f: Schema)
    ensures WithDescription(f) == f <==> !(Get(f, "description").Str? && TrimSpace(Get(f, "description").s) == "")
    ensures WithDescription(f) != f ==> Get(WithDescription(f), "description") != Get(f, "description")
  {
    hide TrimSpace;
    FilledDescription();
  }

  lemma ItemsShows(f: Schema)
    ensures WithItems(f) == f <==> !(StringOf(Get(f, "type")) == "array" && Get(f, "items").Null?)
  {
    hide TrimSpace;
  }

  lemma SameElsewhere(f: Schema)
    ensures (var f1 := WithLocalRef(f); var f2 := WithDescription(f1);
             && Get(f1, "description") == Get(f, "description")
             && Get(f2, "type") == Get(f, "type") && Get(f2, "items") == Get(f, "items")
             && Get(WithItems(f2), "description") == Get(f2, "description"))
  {
    hide TrimSpace;
  }

  // ---------------------------------------------------------------- depth

  /** A bound on the nesting of a tree. */
  ghost function Depth(v: Json): (n: nat)
    ensures Nested(v, n)
    decreases v
  {
    match v
    case Obj(f) =>
      if f == map[] then 0
      else
        var n := DepthOfFields(v, f.Keys);
        n + 1
    case Arr(items) =>
      var n := DepthOfItems(v, |items|);
      n + 1
    case _ => 0
  }

  ghost function DepthOfFields(v: Json, keys: set<string>): (n: nat)
    requires v.Obj? && keys <= v.fields.Keys
    ensures forall k <- keys :: Nested(v.fields[k], n)
    decreases v, 0, |keys|
  {
    if keys == {} then 0
    else
      var k :| k in keys;
      var here, rest := Depth(v.fields[k]), DepthOfFields(v, keys - {k});
      var n := if here < rest then rest else here;
      NestedMore(v.fields[k], here, n);
      assert forall j <- keys - {k} :: Nested(v.fields[j], n) by {
        forall j <- keys - {k} ensures Nested(v.fields[j], n) {
          NestedMore(v.fields[j], rest, n);
        }
      }
      n
  }

  ghost function DepthOfItems(v: Json, count: nat): (n: nat)
    requires v.Arr? && count <= |v.items|
    ensures forall x <- v.items[..count] :: Nested(x, n)
    decreases v, 0, count
  {
    if count == 0 then 0
    else
      assert v.items[count - 1] in v.items;
      var here, rest := Depth(v.items[count - 1]), DepthOfItems(v, count - 1);
      var n := if here < rest then rest else here;
      NestedMore(v.items[count - 1], here, n);
      assert forall x <- v.items[..count - 1] :: Nested(x, n) by {
        forall x <- v.items[..count - 1] ensures Nested(x, n) {
          NestedMore(x, rest, n);
        }
      }
      assert v.items[..count] == v.items[..count - 1] + [v.items[count - 1]];
      n
  }

  lemma {:induction false} NestedMore(v: Json, m: nat, n: nat)
    requires Nested(v, m) && m <= n
    ensures Nested(v, n)
    decreases v
  {
    match v {
      case Obj(f) =>
        forall k <- f.Keys ensures n > 0 && Nested(f[k], n - 1) {
          NestedMore(f[k], m - 1, n - 1);
        }
      case Arr(items) =>
        forall x <- items ensures n > 0 && Nested(x, n - 1) {
          NestedMore(x, m - 1, n - 1);
        }
      case _ =>
    }
  }
}
