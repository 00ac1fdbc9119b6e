/** The validators of the generated indexes in catalog/builtin_data.go: a loop over the index
    in no particular order that marks the positions it has seen. */
module GeneratedIndex {

  /** The index is exactly the inverse of the list of IDs. */
  ghost predicate Inverse(index: map<string, int>, ids: seq<string>) {
    && (forall id <- index :: 0 <= index[id] < |ids| && ids[index[id]] == id)
    && (forall i :: 0 <= i < |ids| ==> ids[i] in index && index[ids[i]] == i)
  }

  /** The groups partition the positions by owner: every listed position is in range and in
      the group of its owner, and every position is listed, once. */
  ghost predicate Partition(groups: map<string, seq<int>>, owners: seq<string>) {
    && (forall p <- groups :: InGroup(groups[p], p, owners) && NoRepeat(groups[p]))
    && (forall i :: 0 <= i < |owners| ==> owners[i] in groups && i in groups[owners[i]])
  }

  ghost predicate InGroup(positions: seq<int>, p: string, owners: seq<string>) {
    forall k :: 0 <= k < |positions| ==> 0 <= positions[k] < |owners| && owners[positions[k]] == p
  }

  ghost predicate NoRepeat(positions: seq<int>) {
    forall j, k :: 0 <= j < k < |positions| ==> positions[j] != positions[k]
  }

  // ---------------------------------------------------------------- pigeonhole

  function Below(n: nat): set<int> {
    if n == 0 then {} else Below(n - 1) + {n - 1}
  }

  lemma {:induction false} BelowIs(n: nat)
    ensures |Below(n)| == n && forall i :: i in Below(n) <==> 0 <= i < n
  {
    if n > 0 {
      BelowIs(n - 1);
    }
  }

  /** As many distinct positions below `n` as `n`: all of them. */
  lemma AllPositions(positions: set<int>, n: nat)
    requires positions <= Below(n) && |positions| == n
    ensures positions == Below(n)
  {
    hide Below;
    BelowIs(n);
    var missing := Below(n) - positions;
    assert positions + missing == Below(n);
    assert |missing| == 0;
  }

  lemma {:induction false} ImageSize(index: map<string, int>, keys: set<string>, positions: set<int>)
    requires keys <= index.Keys
    requires forall a, b :: a in keys && b in keys && index[a] == index[b] ==> a == b
    requires positions == set k | k in keys :: index[k]
    ensures |positions| == |keys|
    decreases |keys|
  {
    if keys == {} {
      assert positions == {};
    } else {
      var k :| k in keys;
      var rest := set j | j in keys - {k} :: index[j];
      assert positions == rest + {index[k]};
      assert index[k] !in rest;
      ImageSize(index, keys - {k}, rest);
    }
  }

  /** The entries are right and as many as the positions: then none is missing. */
  lemma CountedInverse(index: map<string, int>, ids: seq<string>)
    requires |index| == |ids| && forall id <- index :: 0 <= index[id] < |ids| && ids[index[id]] == id
    ensures Inverse(index, ids)
  {
    var positions := set k | k in index.Keys :: index[k];
    ImageSize(index, index.Keys, positions);
    BelowIs(|ids|);
    assert positions <= Below(|ids|);
    AllPositions(positions, |ids|);
    forall i | 0 <= i < |ids| ensures ids[i] in index && index[ids[i]] == i {
      assert i in Below(|ids|);
    }
  }

  lemma InverseCounted(index: map<string, int>, ids: seq<string>)
    requires Inverse(index, ids)
    ensures |index| == |ids|
  {
    var positions := set k | k in index.Keys :: index[k];
    ImageSize(index, index.Keys, positions);
    forall i | 0 <= i < |ids| ensures i in positions {
      assert index[ids[i]] == i;
    }
    BelowIs(|ids|);
    assert positions == Below(|ids|);
  }

  // ---------------------------------------------------------------- the validators

  /** validateGeneratedIDIndex accepts exactly the inverse. */
  method ValidateIDIndex(index: map<string, int>, ids: seq<string>) returns (ok: bool)
    ensures ok <==> Inverse(index, ids)
  {
    hide Inverse;
    if |index| != |ids| {
      if Inverse(index, ids) {
        InverseCounted(index, ids);
      }
      return false;
    }
    var seen := new bool[|ids|](_ => false);
    var rest := index.Keys;
    while rest != {}
      invariant rest <= index.Keys && seen.Length == |ids|
      invariant forall id <- index.Keys - rest :: 0 <= index[id] < |ids| && ids[index[id]] == id
      invariant forall i | 0 <= i < |ids| :: seen[i] <==> ids[i] in index.Keys - rest && index[ids[i]] == i
      decreases |rest|
    {
      var id: string :| id in rest;
      var position := index[id];
      if position < 0 || position >= |ids| || seen[position] || ids[position] != id {
        WrongEntry(index, ids, id);
        return false;
      }
      seen[position] := true;
      rest := rest - {id};
    }
    CountedInverse(index, ids);
    return true;
  }

  lemma WrongEntry(index: map<string, int>, ids: seq<string>, id: string)
    requires id in index && !(0 <= index[id] < |ids| && ids[index[id]] == id)
    ensures !Inverse(index, ids)
  {
  }

  /** What the marks mean after some groups and part of one: exactly the positions listed so
      far are marked, each in the group of its owner. */
  ghost predicate Marked(seen: seq<bool>, groups: map<string, seq<int>>, done: set<string>, p: string, k: nat,
                         owners: seq<string>)
    requires done <= groups.Keys && p in groups && k <= |groups[p]| && |seen| == |owners|
  {
    && (forall q <- done :: InGroup(groups[q], q, owners) && NoRepeat(groups[q]))
    && InGroup(groups[p][..k], p, owners) && NoRepeat(groups[p][..k])
    && forall i :: 0 <= i < |owners| ==>
         (seen[i] <==> (owners[i] in done && i in groups[owners[i]]) || (owners[i] == p && i in groups[p][..k]))
  }

  ghost predicate MarkedGroups(seen: seq<bool>, groups: map<string, seq<int>>, done: set<string>, owners: seq<string>)
    requires done <= groups.Keys && |seen| == |owners|
  {
    && (forall q <- done :: InGroup(groups[q], q, owners) && NoRepeat(groups[q]))
    && forall i :: 0 <= i < |owners| ==> (seen[i] <==> owners[i] in done && i in groups[owners[i]])
  }

  /** An entry that is out of range, in the wrong group or a repetition. */
  ghost predicate Bad(positions: seq<int>, p: string, k: nat, owners: seq<string>)
    requires k < |positions|
  {
    positions[k] < 0 || positions[k] >= |owners| || owners[positions[k]] != p || positions[k] in positions[..k]
  }

  lemma BadEntry(groups: map<string, seq<int>>, p: string, k: nat, owners: seq<string>)
    requires p in groups && k < |groups[p]| && Bad(groups[p], p, k, owners)
    ensures !Partition(groups, owners)
  {
  }

  lemma MarkOne(seen: seq<bool>, groups: map<string, seq<int>>, done: set<string>, p: string, k: nat,
                owners: seq<string>)
    requires done <= groups.Keys && p in groups && p !in done && k < |groups[p]| && |seen| == |owners|
    requires Marked(seen, groups, done, p, k, owners)
    ensures (var i := groups[p][k];
             Bad(groups[p], p, k, owners) <==> i < 0 || i >= |owners| || seen[i] || owners[i] != p)
    ensures (var i := groups[p][k];
             !Bad(groups[p], p, k, owners) ==> Marked(seen[i := true], groups, done, p, k + 1, owners))
  {
    var i := groups[p][k];
    assert groups[p][..k + 1] == groups[p][..k] + [i];
  }

  lemma MarkDone(seen: seq<bool>, groups: map<string, seq<int>>, done: set<string>, p: string, owners: seq<string>)
    requires done <= groups.Keys && p in groups && p !in done && |seen| == |owners|
    ensures Marked(seen, groups, done, p, |groups[p]|, owners) ==> MarkedGroups(seen, groups, done + {p}, owners)
    ensures MarkedGroups(seen, groups, done, owners) ==> Marked(seen, groups, done, p, 0, owners)
  {
    assert groups[p][..|groups[p]|] == groups[p];
  }

  lemma AllMarked(seen: seq<bool>, groups: map<string, seq<int>>, owners: seq<string>)
    requires |seen| == |owners| && MarkedGroups(seen, groups, groups.Keys, owners)
    ensures Partition(groups, owners) <==> forall i :: 0 <= i < |owners| ==> seen[i]
  {
  }

  /** validateGeneratedGroupIndex accepts exactly the partitions. */
  method ValidateGroupIndex(groups: map<string, seq<int>>, owners: seq<string>) returns (ok: bool)
    ensures ok <==> Partition(groups, owners)
  {
    hide Partition, Marked, MarkedGroups, Bad;
    var seen := new bool[|owners|](_ => false);
    var rest := groups.Keys;
    NothingMarked(seen[..], groups, owners);
    while rest != {}
      invariant rest <= groups.Keys && seen.Length == |owners|
      invariant MarkedGroups(seen[..], groups, groups.Keys - rest, owners)
      decreases |rest|
    {
      var p: string :| p in rest;
      var done := groups.Keys - rest;
      MarkDone(seen[..], groups, done, p, owners);
      for k := 0 to |groups[p]|
        invariant seen.Length == |owners|
        invariant Marked(seen[..], groups, done, p, k, owners)
      {
        var position := groups[p][k];
        MarkOne(seen[..], groups, done, p, k, owners);
        if position < 0 || position >= |owners| || seen[position] || owners[position] != p {
          BadEntry(groups, p, k, owners);
          return false;
        }
        ghost var before := seen[..];
        seen[position] := true;
        assert seen[..] == before[position := true];
      }
      MarkDone(seen[..], groups, done, p, owners);
      assert groups.Keys - (rest - {p}) == done + {p};
      rest := rest - {p};
    }
    assert groups.Keys - {} == groups.Keys;
    AllMarked(seen[..], groups, owners);
    for i := 0 to |owners|
      invariant forall j :: 0 <= j < i ==> seen[..][j]
      invariant Partition(groups, owners) <==> forall j :: 0 <= j < |owners| ==> seen[..][j]
    {
      if !seen[i] {
        assert !seen[..][i];
        return false;
      }
      assert seen[..][i];
    }
    return true;
  }

  lemma NothingMarked(seen: seq<bool>, groups: map<string, seq<int>>, owners: seq<string>)
    requires |seen| == |owners| && forall i :: 0 <= i < |seen| ==> !seen[i]
    ensures MarkedGroups(seen, groups, groups.Keys - groups.Keys, owners)
  {
  }
}
