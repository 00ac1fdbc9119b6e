/** A cache table with least-recently-used eviction, as the SQL of sqlitecache/cache.go
    defines it: a key-ordered map whose rows carry their last access time. */
module LruTable {
  import opened Ordering

  datatype Row<V> = Row(value: V, accessed: int, firstSeen: int)
  type Table<V> = map<string, Row<V>>

  /** `j` comes before `k` in ORDER BY accessed_at DESC, key DESC. */
  predicate Above<V>(t: Table<V>, j: string, k: string)
    requires j in t && k in t
  {
    t[j].accessed > t[k].accessed || (t[j].accessed == t[k].accessed && Less(k, j))
  }

  function AboveKeys<V>(t: Table<V>, k: string): set<string>
    requires k in t
  {
    set j | j in t && Above(t, j, k)
  }

  /** DELETE ... ORDER BY accessed_at DESC, key DESC LIMIT -1 OFFSET limit: the first
      `limit` rows stay. */
  function Prune<V>(t: Table<V>, limit: nat): Table<V> {
    map k | k in t && |AboveKeys(t, k)| < limit :: t[k]
  }

  /** INSERT ... ON CONFLICT DO UPDATE, which keeps first_seen_at. */
  function Insert<V>(t: Table<V>, k: string, value: V, accessed: int, now: int): Table<V> {
    t[k := Row(value, accessed, if k in t then t[k].firstSeen else now)]
  }

  /** UPDATE ... SET accessed_at. */
  function Touch<V>(t: Table<V>, k: string, accessed: int): Table<V> {
    if k in t then t[k := t[k].(accessed := accessed)] else t
  }

  // ---------------------------------------------------------------- the eviction order

  lemma AboveTransitive<V>(t: Table<V>, i: string, j: string, k: string)
    requires i in t && j in t && k in t && Above(t, i, j) && Above(t, j, k)
    ensures Above(t, i, k)
  {
    hide Less;
    if Less(j, i) && Less(k, j) {
      LessTransitive(k, j, i);
    }
  }

  lemma AboveTotal<V>(t: Table<V>, j: string, k: string)
    requires j in t && k in t
    ensures Above(t, j, k) || Above(t, k, j) || j == k
    ensures !(Above(t, j, k) && Above(t, k, j)) && !Above(t, j, j)
  {
    hide Less;
    LessTotal(j, k);
    if Less(j, k) {
      LessAsymmetric(j, k);
    }
    if Less(k, j) {
      LessAsymmetric(k, j);
    }
    if Less(j, j) {
      LessAsymmetric(j, j);
    }
  }

  ghost predicate Lowest<V>(t: Table<V>, x: string) {
    x in t && forall k <- t :: k == x || Above(t, k, x)
  }

  lemma {:induction false} LowestExists<V>(t: Table<V>, keys: set<string>) returns (x: string)
    requires keys != {} && keys <= t.Keys
    ensures x in keys && forall k <- keys :: k == x || Above(t, k, x)
    decreases |keys|
  {
    hide Above;
    x :| x in keys;
    if keys != {x} {
      var y := LowestExists(t, keys - {x});
      AboveTotal(t, x, y);
      if !Above(t, x, y) {
        forall k <- keys ensures k == x || Above(t, k, x) {
          if k != x && k != y {
            AboveTransitive(t, k, y, x);
          }
        }
      } else {
        x := y;
      }
    }
  }

  lemma AboveBound<V>(t: Table<V>, k: string)
    requires k in t
    ensures |AboveKeys(t, k)| < |t|
  {
    AboveTotal(t, k, k);
    assert AboveKeys(t, k) <= t.Keys - {k};
    Cardinality(AboveKeys(t, k), t.Keys - {k});
  }

  lemma PruneKeepsAll<V>(t: Table<V>, limit: nat)
    requires |t| <= limit
    ensures Prune(t, limit) == t
  {
    hide AboveKeys;
    forall k <- t ensures |AboveKeys(t, k)| < limit {
      AboveBound(t, k);
    }
  }

  lemma PruneDropsLowest<V>(t: Table<V>, limit: nat, x: string)
    requires |t| > limit && Lowest(t, x)
    ensures Prune(t, limit) == Prune(t - {x}, limit)
  {
    hide Above;
    var rest := t - {x};
    assert AboveKeys(t, x) == t.Keys - {x} by { AboveTotal(t, x, x); }
    forall k <- rest ensures AboveKeys(t, k) == AboveKeys(rest, k) {
      AboveTotal(t, x, k);
      SameOrder(t, rest, k);
    }
  }

  lemma SameOrder<V>(t: Table<V>, rest: Table<V>, k: string)
    requires rest.Keys <= t.Keys && (forall j <- rest :: rest[j] == t[j]) && k in rest
    ensures forall j <- rest :: Above(rest, j, k) <==> Above(t, j, k)
  {
    hide Less;
  }

  /** After pruning, a table holds exactly `limit` rows, or all of them if they were fewer. */
  lemma {:induction false} PruneSize<V>(t: Table<V>, limit: nat)
    ensures |Prune(t, limit)| == if |t| <= limit then |t| else limit
    decreases |t|
  {
    hide Prune, Above;
    if |t| <= limit {
      PruneKeepsAll(t, limit);
    } else {
      var x := LowestExists(t, t.Keys);
      PruneDropsLowest(t, limit, x);
      PruneSize(t - {x}, limit);
    }
  }

  /** Every row that stays was used more recently than every row that goes. */
  lemma PruneIsLru<V>(t: Table<V>, limit: nat, kept: string, gone: string)
    requires kept in Prune(t, limit) && gone in t && gone !in Prune(t, limit)
    ensures Above(t, kept, gone)
    ensures t[kept].accessed > t[gone].accessed || (t[kept].accessed == t[gone].accessed && Less(gone, kept))
  {
    hide Above;
    AboveTotal(t, kept, gone);
    if Above(t, gone, kept) {
      forall j <- AboveKeys(t, gone) ensures j in AboveKeys(t, kept) {
        AboveTransitive(t, j, gone, kept);
      }
      Cardinality(AboveKeys(t, gone), AboveKeys(t, kept));
    }
    AboveMeans(t, kept, gone);
  }

  lemma AboveMeans<V>(t: Table<V>, j: string, k: string)
    requires j in t && k in t && Above(t, j, k)
    ensures t[j].accessed > t[k].accessed || (t[j].accessed == t[k].accessed && Less(k, j))
  {
    hide Less;
  }

  // ---------------------------------------------------------------- inclusion

  /** Every row of `s` is in `l`, with the same value and access time. */
  ghost predicate SubTable<V>(s: Table<V>, l: Table<V>) {
    forall k <- s :: k in l && s[k].value == l[k].value && s[k].accessed == l[k].accessed
  }

  /** `s` is included in `l`, which has at most `slack` rows more. */
  ghost predicate Included<V>(s: Table<V>, l: Table<V>, slack: nat) {
    SubTable(s, l) && |l.Keys - s.Keys| <= slack
  }

  lemma InsertIncluded<V>(s: Table<V>, l: Table<V>, slack: nat, k: string, value: V, accessed: int, now: int)
    requires Included(s, l, slack)
    ensures Included(Insert(s, k, value, accessed, now), Insert(l, k, value, accessed, now), slack)
  {
    var s', l' := Insert(s, k, value, accessed, now), Insert(l, k, value, accessed, now);
    assert l'.Keys - s'.Keys <= l.Keys - s.Keys;
    Cardinality(l'.Keys - s'.Keys, l.Keys - s.Keys);
  }

  lemma TouchIncluded<V>(s: Table<V>, l: Table<V>, slack: nat, k: string, accessed: int)
    requires Included(s, l, slack)
    ensures Included(Touch(s, k, accessed), Touch(l, k, accessed), slack)
  {
    var s', l' := Touch(s, k, accessed), Touch(l, k, accessed);
    assert l'.Keys == l.Keys && s'.Keys == s.Keys;
  }

  /** A row only the larger table holds may be touched there alone. */
  lemma TouchLarger<V>(s: Table<V>, l: Table<V>, slack: nat, k: string, accessed: int)
    requires Included(s, l, slack) && k !in s
    ensures Included(s, Touch(l, k, accessed), slack)
  {
    assert Touch(l, k, accessed).Keys == l.Keys;
  }

  lemma PruneSubTable<V>(s: Table<V>, l: Table<V>, small: nat, large: nat)
    requires small <= large && Included(s, l, large - small)
    ensures SubTable(Prune(s, small), Prune(l, large))
  {
    hide Prune, AboveKeys;
    forall k <- Prune(s, small)
      ensures k in Prune(l, large) && Prune(s, small)[k].value == Prune(l, large)[k].value
              && Prune(s, small)[k].accessed == Prune(l, large)[k].accessed
    {
      PruneMember(s, small, k);
      RankIncluded(s, l, large - small, k);
      PruneMember(l, large, k);
    }
  }

  /** Pruning keeps the inclusion, as long as the larger table may keep `slack` rows more. */
  lemma PruneIncluded<V>(s: Table<V>, l: Table<V>, small: nat, large: nat)
    requires small <= large && Included(s, l, large - small)
    ensures Included(Prune(s, small), Prune(l, large), large - small)
  {
    hide Prune;
    PruneSubTable(s, l, small, large);
    var s', l' := Prune(s, small), Prune(l, large);
    PruneSize(s, small);
    PruneSize(l, large);
    assert |s'.Keys| == |s'| && |l'.Keys| == |l'|;
    if |s| >= small {
      Difference(l'.Keys, s'.Keys);
    } else {
      PruneKeepsAll(s, small);
      PruneSubset(l, large);
      Cardinality(l'.Keys - s'.Keys, l.Keys - s.Keys);
    }
  }

  lemma PruneMember<V>(t: Table<V>, limit: nat, k: string)
    ensures k in Prune(t, limit) <==> k in t && |AboveKeys(t, k)| < limit
    ensures k in Prune(t, limit) ==> Prune(t, limit)[k] == t[k]
  {
    hide AboveKeys;
  }

  lemma PruneSubset<V>(t: Table<V>, limit: nat)
    ensures Prune(t, limit).Keys <= t.Keys
    ensures forall k <- Prune(t, limit) :: Prune(t, limit)[k] == t[k]
  {
    hide AboveKeys;
  }

  lemma Difference(a: set<string>, b: set<string>)
    requires b <= a
    ensures |a - b| == |a| - |b|
  {
    assert a == b + (a - b);
  }

  /** In the larger table a row has at most `slack` more rows above it. */
  lemma RankIncluded<V>(s: Table<V>, l: Table<V>, slack: nat, k: string)
    requires Included(s, l, slack) && k in s
    ensures |AboveKeys(l, k)| <= |AboveKeys(s, k)| + slack
  {
    hide Less;
    var extra := l.Keys - s.Keys;
    assert AboveKeys(l, k) <= AboveKeys(s, k) + extra;
    Cardinality(AboveKeys(l, k), AboveKeys(s, k) + extra);
    Difference(AboveKeys(s, k) + extra, extra);
    assert (AboveKeys(s, k) + extra) - extra <= AboveKeys(s, k);
    Cardinality((AboveKeys(s, k) + extra) - extra, AboveKeys(s, k));
  }
}
