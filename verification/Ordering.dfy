/** The order on strings (Go's `<`, SQLite's BINARY collation) and stable sorting by a
    string key (sort.SliceStable). */
module Ordering {

  predicate Less(a: string, b: string) {
    if b == [] then false
    else if a == [] then true
    else if a[0] != b[0] then a[0] < b[0]
    else Less(a[1..], b[1..])
  }

  predicate AtMost(a: string, b: string) {
    !Less(b, a)
  }

  lemma {:induction false} LessTransitive(a: string, b: string, c: string)
    requires Less(a, b) && Less(b, c)
    ensures Less(a, c)
  {
    if a != [] && a[0] == b[0] == c[0] {
      LessTransitive(a[1..], b[1..], c[1..]);
    }
  }

  lemma {:induction false} LessAsymmetric(a: string, b: string)
    requires Less(a, b)
    ensures !Less(b, a) && a != b
  {
    if a != [] && a[0] == b[0] {
      LessAsymmetric(a[1..], b[1..]);
    }
  }

  lemma {:induction false} LessTotal(a: string, b: string)
    ensures Less(a, b) || Less(b, a) || a == b
  {
    if a != [] && b != [] && a[0] == b[0] {
      LessTotal(a[1..], b[1..]);
      assert a == [a[0]] + a[1..] && b == [b[0]] + b[1..];
    }
  }

  lemma AtMostTransitive(a: string, b: string, c: string)
    requires AtMost(a, b) && AtMost(b, c)
    ensures AtMost(a, c)
  {
    LessTotal(a, b);
    LessTotal(b, c);
    LessTotal(c, a);
    if Less(a, b) && Less(b, c) {
      LessTransitive(a, b, c);
      LessAsymmetric(a, c);
    }
  }

  // ---------------------------------------------------------------- stable sorting

  /** Puts `x` before the first element whose key is not smaller: ties keep their order. */
  function Insert<T>(key: T -> string, x: T, s: seq<T>): (r: seq<T>)
    ensures |r| == |s| + 1
  {
    if s == [] || !Less(key(s[0]), key(x)) then [x] + s else [s[0]] + Insert(key, x, s[1..])
  }

  function SortBy<T>(key: T -> string, s: seq<T>): (r: seq<T>)
    ensures |r| == |s|
  {
    if s == [] then [] else Insert(key, s[0], SortBy(key, s[1..]))
  }

  ghost predicate Sorted<T>(key: T -> string, s: seq<T>) {
    forall i, j :: 0 <= i < j < |s| ==> AtMost(key(s[i]), key(s[j]))
  }

  lemma {:induction false} InsertPermutes<T>(key: T -> string, x: T, s: seq<T>)
    ensures multiset(Insert(key, x, s)) == multiset{x} + multiset(s)
  {
    hide Less;
    if s != [] {
      assert s == [s[0]] + s[1..];
      InsertPermutes(key, x, s[1..]);
    }
  }

  lemma SortedCons<T>(key: T -> string, x: T, s: seq<T>)
    requires Sorted(key, s) && forall y <- s :: AtMost(key(x), key(y))
    ensures Sorted(key, [x] + s)
  {
    hide AtMost;
  }

  lemma {:induction false} InsertSorts<T>(key: T -> string, x: T, s: seq<T>)
    requires Sorted(key, s)
    ensures Sorted(key, Insert(key, x, s))
  {
    hide Less;
    if s == [] {
    } else if Less(key(s[0]), key(x)) {
      var r := Insert(key, x, s[1..]);
      InsertSorts(key, x, s[1..]);
      InsertPermutes(key, x, s[1..]);
      LessAsymmetric(key(s[0]), key(x));
      forall y <- r ensures AtMost(key(s[0]), key(y)) {
        assert y in multiset(r);
        assert y == x || y in s[1..];
      }
      SortedCons(key, s[0], r);
    } else {
      forall y <- s ensures AtMost(key(x), key(y)) {
        if y != s[0] {
          AtMostTransitive(key(x), key(s[0]), key(y));
        }
      }
      SortedCons(key, x, s);
    }
  }

  /** The result is ordered by key and has exactly the elements of the input. */
  lemma {:induction false} SortBySorts<T>(key: T -> string, s: seq<T>)
    ensures Sorted(key, SortBy(key, s))
    ensures multiset(SortBy(key, s)) == multiset(s)
  {
    if s != [] {
      SortBySorts(key, s[1..]);
      InsertSorts(key, s[0], SortBy(key, s[1..]));
      InsertPermutes(key, s[0], SortBy(key, s[1..]));
      assert s == [s[0]] + s[1..];
    }
  }

  function WithKey<T>(key: T -> string, k: string, s: seq<T>): seq<T> {
    if s == [] then []
    else (if key(s[0]) == k then [s[0]] else []) + WithKey(key, k, s[1..])
  }

  lemma WithKeyCons<T>(key: T -> string, k: string, x: T, s: seq<T>)
    ensures WithKey(key, k, [x] + s) == (if key(x) == k then [x] else []) + WithKey(key, k, s)
  {
    assert ([x] + s)[1..] == s;
  }

  lemma {:induction false} InsertStable<T>(key: T -> string, k: string, x: T, s: seq<T>)
    ensures WithKey(key, k, Insert(key, x, s)) == (if key(x) == k then [x] else []) + WithKey(key, k, s)
  {
    hide Less, WithKey;
    if s != [] && Less(key(s[0]), key(x)) {
      InsertStable(key, k, x, s[1..]);
      LessAsymmetric(key(s[0]), key(x));
      WithKeyCons(key, k, s[0], Insert(key, x, s[1..]));
      WithKeyCons(key, k, s[0], s[1..]);
      assert s == [s[0]] + s[1..];
    } else {
      WithKeyCons(key, k, x, s);
    }
  }

  /** Elements with equal keys keep their order. */
  lemma {:induction false} SortByStable<T>(key: T -> string, k: string, s: seq<T>)
    ensures WithKey(key, k, SortBy(key, s)) == WithKey(key, k, s)
  {
    if s != [] {
      SortByStable(key, k, s[1..]);
      InsertStable(key, k, s[0], SortBy(key, s[1..]));
    }
  }

  lemma {:induction false} WithKeyDetermines<T>(key: T -> string, a: seq<T>, b: seq<T>)
    requires |a| == |b| && forall i :: 0 <= i < |a| ==> key(a[i]) == key(b[i])
    requires forall k: string {:trigger WithKey(key, k, a)} :: WithKey(key, k, a) == WithKey(key, k, b)
    ensures a == b
    decreases |a|
  {
    if a != [] {
      var k0 := key(a[0]);
      assert WithKey(key, k0, a) == WithKey(key, k0, b);
      assert ([a[0]] + WithKey(key, k0, a[1..]))[0] == ([b[0]] + WithKey(key, k0, b[1..]))[0];
      forall k: string ensures WithKey(key, k, a[1..]) == WithKey(key, k, b[1..]) {
        assert WithKey(key, k, a) == WithKey(key, k, b);
        var head := if key(a[0]) == k then [a[0]] else [];
        assert (head + WithKey(key, k, a[1..]))[|head|..] == WithKey(key, k, a[1..]);
        assert (head + WithKey(key, k, b[1..]))[|head|..] == WithKey(key, k, b[1..]);
      }
      WithKeyDetermines(key, a[1..], b[1..]);
    }
  }

  /** The keys of `b` are at home, and so is no key of `a` that differs from its own. */
  ghost predicate Placed<T>(key: T -> string, a: seq<T>, b: seq<T>, home: string -> bool) {
    |a| == |b| && forall i :: 0 <= i < |a| ==> home(key(b[i])) && (key(a[i]) == key(b[i]) || !home(key(a[i])))
  }

  lemma PlacedCons<T>(key: T -> string, x: T, a: seq<T>, y: T, b: seq<T>, home: string -> bool)
    requires Placed(key, a, b, home) && home(key(y)) && (key(x) == key(y) || !home(key(x)))
    ensures Placed(key, [x] + a, [y] + b, home)
    ensures [x] + a == [y] + b <==> x == y && a == b
  {
    if [x] + a == [y] + b {
      assert ([x] + a)[0] == ([y] + b)[0];
      assert ([x] + a)[1..] == a && ([y] + b)[1..] == b;
    }
  }

  /** Sorting keeps such lists apart. */
  lemma SortedAgree<T>(key: T -> string, a: seq<T>, b: seq<T>, home: string -> bool)
    requires Placed(key, a, b, home)
    ensures SortBy(key, a) == SortBy(key, b) <==> a == b
  {
    hide SortBy, WithKey;
    if SortBy(key, a) == SortBy(key, b) {
      SortBySorts(key, a);
      SortBySorts(key, b);
      forall i | 0 <= i < |a| ensures key(a[i]) == key(b[i]) {
        assert a[i] in multiset(b);
        var j :| 0 <= j < |b| && b[j] == a[i];
      }
      forall k: string ensures WithKey(key, k, a) == WithKey(key, k, b) {
        SortByStable(key, k, a);
        SortByStable(key, k, b);
      }
      WithKeyDetermines(key, a, b);
    }
  }

  ghost predicate DistinctKeys<T>(key: T -> string, s: seq<T>) {
    forall i, j :: 0 <= i < j < |s| ==> key(s[i]) != key(s[j])
  }

  lemma FirstAgrees<T>(key: T -> string, a: seq<T>, b: seq<T>)
    requires Sorted(key, a) && Sorted(key, b)
    requires multiset(a) == multiset(b) && a != [] && b != []
    requires DistinctKeys(key, b)
    ensures a[0] == b[0]
  {
    hide Less;
    assert a[0] in multiset(b) && b[0] in multiset(a);
    var i :| 0 <= i < |b| && b[i] == a[0];
    var j :| 0 <= j < |a| && a[j] == b[0];
    assert i == 0 || AtMost(key(b[0]), key(b[i]));
    assert j == 0 || AtMost(key(a[0]), key(a[j]));
    LessTotal(key(a[0]), key(b[0]));
  }

  lemma SortedTail<T>(key: T -> string, s: seq<T>)
    requires s != [] && Sorted(key, s) && DistinctKeys(key, s)
    ensures s == [s[0]] + s[1..] && multiset(s[1..]) == multiset(s) - multiset{s[0]}
    ensures Sorted(key, s[1..]) && DistinctKeys(key, s[1..])
  {
    hide AtMost;
    assert s == [s[0]] + s[1..];
  }

  /** Two sorted arrangements of the same elements are the same when no two share a key. */
  lemma {:induction false} SortedUnique<T>(key: T -> string, a: seq<T>, b: seq<T>)
    requires Sorted(key, a) && Sorted(key, b)
    requires multiset(a) == multiset(b)
    requires DistinctKeys(key, a) && DistinctKeys(key, b)
    ensures a == b
    decreases |a|
  {
    hide Sorted, DistinctKeys;
    assert |multiset(a)| == |a| && |multiset(b)| == |b|;
    if a != [] {
      FirstAgrees(key, a, b);
      SortedTail(key, a);
      SortedTail(key, b);
      SortedUnique(key, a[1..], b[1..]);
    }
  }

  /** Sorting forgets the input order when no two elements share a key. */
  lemma SortOrderIndependent<T>(key: T -> string, a: seq<T>, b: seq<T>)
    requires multiset(a) == multiset(b)
    requires DistinctKeys(key, SortBy(key, a)) && DistinctKeys(key, SortBy(key, b))
    ensures SortBy(key, a) == SortBy(key, b)
  {
    SortBySorts(key, a);
    SortBySorts(key, b);
    SortedUnique(key, SortBy(key, a), SortBy(key, b));
  }

  // ---------------------------------------------------------------- permutations

  ghost predicate Pairwise<T>(r: (T, T) -> bool, s: seq<T>) {
    forall i, j :: 0 <= i < j < |s| ==> r(s[i], s[j])
  }

  lemma PairwiseAt<T>(r: (T, T) -> bool, s: seq<T>, i: nat, j: nat)
    requires Pairwise(r, s) && i < j < |s|
    ensures r(s[i], s[j])
  {
  }

  lemma {:induction false} Twice<T>(s: seq<T>, x: T)
    requires multiset(s)[x] >= 2
    ensures exists i, j :: 0 <= i < j < |s| && s[i] == x == s[j]
  {
    assert s == [s[0]] + s[1..];
    if s[0] == x {
      assert x in multiset(s[1..]);
      var j :| 0 <= j < |s| - 1 && s[1..][j] == x;
      assert s[0] == x == s[j + 1];
    } else {
      Twice(s[1..], x);
      var i, j :| 0 <= i < j < |s| - 1 && s[1..][i] == x == s[1..][j];
      assert s[i + 1] == x == s[j + 1];
    }
  }

  /** A symmetric relation between all pairs does not depend on the order. */
  lemma PairwisePermutes<T>(r: (T, T) -> bool, a: seq<T>, b: seq<T>)
    requires multiset(a) == multiset(b) && Pairwise(r, a)
    requires forall x, y :: x in a && y in a && r(x, y) ==> r(y, x)
    ensures Pairwise(r, b)
  {
    forall i, j | 0 <= i < j < |b| ensures r(b[i], b[j]) {
      assert b[i] in multiset(a) && b[j] in multiset(a);
      if b[i] == b[j] {
        assert b == b[..i] + [b[i]] + b[i + 1..j] + [b[j]] + b[j + 1..];
        Twice(a, b[i]);
      } else {
        var x :| 0 <= x < |a| && a[x] == b[i];
        var y :| 0 <= y < |a| && a[y] == b[j];
        assert x != y;
      }
    }
  }

  lemma {:induction false} Cardinality<T>(a: set<T>, b: set<T>)
    requires a <= b
    ensures |a| <= |b|
    decreases |a|
  {
    if a != {} {
      var x :| x in a;
      Cardinality(a - {x}, b - {x});
    }
  }

  // ---------------------------------------------------------------- sorted sets

  ghost predicate IsLeast(m: string, s: set<string>) {
    m in s && forall x <- s :: AtMost(m, x)
  }

  lemma {:induction false} LeastExists(s: set<string>)
    requires s != {}
    ensures exists m :: IsLeast(m, s)
    decreases |s|
  {
    hide Less, AtMost;
    var x :| x in s;
    if s == {x} {
      assert AtMost(x, x) by { Reflexive(x); }
      assert IsLeast(x, s);
    } else {
      LeastExists(s - {x});
      var m :| IsLeast(m, s - {x});
      if AtMost(m, x) {
        assert IsLeast(m, s);
      } else {
        assert AtMost(x, m) by { Comparable(x, m); }
        forall y <- s ensures AtMost(x, y) {
          Reflexive(x);
          if y != x {
            AtMostTransitive(x, m, y);
          }
        }
        assert IsLeast(x, s);
      }
    }
  }

  lemma Reflexive(x: string)
    ensures AtMost(x, x)
  {
    if Less(x, x) {
      LessAsymmetric(x, x);
    }
  }

  lemma Comparable(x: string, y: string)
    ensures AtMost(x, y) || AtMost(y, x)
    ensures AtMost(x, y) && AtMost(y, x) ==> x == y
  {
    LessTotal(x, y);
    if Less(x, y) {
      LessAsymmetric(x, y);
    }
  }

  lemma LeastUnique(s: set<string>)
    ensures forall m, n :: IsLeast(m, s) && IsLeast(n, s) ==> m == n
  {
    hide AtMost;
    forall m, n | IsLeast(m, s) && IsLeast(n, s) ensures m == n {
      Comparable(m, n);
    }
  }

  ghost function Least(s: set<string>): (m: string)
    requires s != {}
    ensures IsLeast(m, s)
  {
    LeastExists(s);
    var m :| IsLeast(m, s);
    m
  }

  /** The elements of a set in ascending order (sortedMapKeys, sort.Strings). */
  ghost function SortedSet(s: set<string>): (r: seq<string>)
    ensures |r| == |s| && forall x :: x in r <==> x in s
    decreases |s|
  {
    if s == {} then []
    else
      var m := Least(s);
      [m] + SortedSet(s - {m})
  }

  method LeastOf(s: set<string>) returns (m: string)
    requires s != {}
    ensures IsLeast(m, s)
  {
    hide Less, AtMost;
    m :| m in s;
    var others := s - {m};
    Reflexive(m);
    while others != {}
      invariant others <= s && m in s && m !in others
      invariant forall x <- s :: x in others || AtMost(m, x)
      decreases |others|
    {
      var x: string :| x in others;
      others := others - {x};
      Comparable(m, x);
      if !AtMost(m, x) {
        Reflexive(x);
        forall y <- s ensures y in others || AtMost(x, y) {
          if y !in others && y != x {
            AtMostTransitive(x, m, y);
          }
        }
        m := x;
      }
    }
  }

  /** sort.Strings on the elements of a set. */
  method SortStrings(s: set<string>) returns (r: seq<string>)
    ensures r == SortedSet(s)
  {
    hide AtMost, SortedSet, IsLeast;
    var rest := s;
    r := [];
    while rest != {}
      invariant SortedSet(s) == r + SortedSet(rest)
      decreases |rest|
    {
      var m := LeastOf(rest);
      assert m in rest by { LeastIn(m, rest); }
      LeastFirst(rest, m);
      assert r + ([m] + SortedSet(rest - {m})) == (r + [m]) + SortedSet(rest - {m});
      r, rest := r + [m], rest - {m};
    }
    assert r + [] == r;
  }

  lemma LeastIn(m: string, s: set<string>)
    requires IsLeast(m, s)
    ensures m in s
  {
  }

  lemma {:induction false} SortedSetDistinct(s: set<string>)
    ensures forall i, j :: 0 <= i < j < |SortedSet(s)| ==> SortedSet(s)[i] != SortedSet(s)[j]
    decreases |s|
  {
    hide IsLeast;
    if s != {} {
      var m := Least(s);
      assert m in s by { LeastIn(m, s); }
      var rest := SortedSet(s - {m});
      SortedSetDistinct(s - {m});
      assert SortedSet(s) == [m] + rest;
      assert m !in rest;
    }
  }

  lemma {:induction false} SortedSetAscends(s: set<string>)
    ensures forall i, j :: 0 <= i < j < |SortedSet(s)| ==> Less(SortedSet(s)[i], SortedSet(s)[j])
    decreases |s|
  {
    hide Less;
    if s != {} {
      var m := Least(s);
      SortedSetAscends(s - {m});
      assert SortedSet(s) == [m] + SortedSet(s - {m});
      forall x <- SortedSet(s - {m}) ensures Less(m, x) {
        LessTotal(m, x);
        assert x in s && AtMost(m, x);
      }
    }
  }

  lemma LeastFirst(s: set<string>, m: string)
    requires IsLeast(m, s)
    ensures SortedSet(s) == [m] + SortedSet(s - {m})
  {
    LeastUnique(s);
  }
}
