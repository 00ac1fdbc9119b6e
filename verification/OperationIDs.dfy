/** The IDs of GraphQL operations: duplicate numbering and the operations added for schema
    root fields (compactOperations, addSchemaRootOperations in graphql/parse.go). */
module OperationIDs {
  import opened GraphQLModel
  import opened Text
  import opened Wrappers
  import Ordering

  /** sourceOperationID */
  function BaseID(kind: string, name: string): string {
    ToLower(TrimSpace(kind)) + ['.'] + (if TrimSpace(name) == "" then "anonymous" else TrimSpace(name))
  }

  function Base(op: Operation): string {
    BaseID(op.kind, if op.name == "" then "anonymous" else op.name)
  }

  /** Operations that compactOperations keeps. */
  predicate Kept(op: Operation) {
    TrimSpace(op.kind) != ""
  }

  /** How many of the first `k` operations have this base ID. */
  function Count(ops: seq<Operation>, k: nat, base: string): nat
    requires k <= |ops|
  {
    if k == 0 then 0
    else Count(ops, k - 1, base) + if Kept(ops[k - 1]) && Base(ops[k - 1]) == base then 1 else 0
  }

  /** The ID of the `n`-th operation with a base. */
  function NumberedID(base: string, n: nat): string {
    if n > 1 then base + ['.'] + Decimal(n) else base
  }

  function Numbered(op: Operation, n: nat): Operation {
    var id := NumberedID(Base(op), n);
    op.(name := if op.name == "" then "anonymous" else op.name, id := id,
        selector := OperationSelector(id), sourceRef := OperationSelector(id))
  }

  /** compactOperations on the first `k` operations. */
  function CompactTo(ops: seq<Operation>, k: nat): seq<Operation>
    requires k <= |ops|
  {
    if k == 0 then []
    else
      CompactTo(ops, k - 1)
      + if Kept(ops[k - 1]) then [Numbered(ops[k - 1], Count(ops, k, Base(ops[k - 1])))] else []
  }

  function Compact(ops: seq<Operation>): seq<Operation> {
    CompactTo(ops, |ops|)
  }

  // ---------------------------------------------------------------- schema roots

  function TypeByName(types: seq<Type>, name: string): Option<Type> {
    if types == [] then None
    else if types[0].name == TrimSpace(name) then Some(types[0])
    else TypeByName(types[1..], name)
  }

  function RootOperation(kind: string, root: string, field: Field): Operation {
    Operation(field.name, kind, BaseID(kind, field.name), FieldSelector(root, field.name),
              FieldSelector(root, field.name),
              field.description, [], [], field.name, field.typ, root)
  }

  /** The operations of one root type; a field whose ID is taken adds none. */
  function AddFields(ops: seq<Operation>, kind: string, root: string, fields: seq<Field>): seq<Operation>
    decreases |fields|
  {
    if fields == [] then ops
    else
      var field := fields[0];
      var next := if TrimSpace(field.name) == "" || OperationByID(ops, BaseID(kind, field.name)).Some? then ops
                  else ops + [RootOperation(kind, root, field)];
      AddFields(next, kind, root, fields[1..])
  }

  function AddRoot(ops: seq<Operation>, types: seq<Type>, kind: string, root: string): seq<Operation> {
    match TypeByName(types, root)
    case None => ops
    case Some(t) => AddFields(ops, kind, root, t.fields)
  }

  function RootName(declared: string, default: string): string {
    FirstNonEmpty(declared, default)
  }

  function AddRoots(m: Model): seq<Operation> {
    var a := AddRoot(m.operations, m.types, "query", RootName(m.schema.queryType, "Query"));
    var b := AddRoot(a, m.types, "mutation", RootName(m.schema.mutationType, "Mutation"));
    AddRoot(b, m.types, "subscription", RootName(m.schema.subscriptionType, "Subscription"))
  }

  predicate HasFields(types: seq<Type>, name: string) {
    var t := TypeByName(types, name);
    t.Some? && t.value.fields != []
  }

  /** The schema names the default roots that were used. */
  function NamedRoots(m: Model): RootTypes {
    var s := m.schema;
    RootTypes(if s.queryType == "" && HasFields(m.types, "Query") then "Query" else s.queryType,
           if s.mutationType == "" && HasFields(m.types, "Mutation") then "Mutation" else s.mutationType,
           if s.subscriptionType == "" && HasFields(m.types, "Subscription") then "Subscription"
             else s.subscriptionType,
           s.description)
  }

  // ---------------------------------------------------------------- the loops

  method CompactOperations(ops: seq<Operation>) returns (out: seq<Operation>)
    ensures out == Compact(ops)
  {
    hide Base, Numbered, CompactTo, Count, TrimSpace;
    out := [];
    var seen: map<string, nat> := map[];
    NothingCounted(ops);
    for i := 0 to |ops|
      invariant out == CompactTo(ops, i)
      invariant forall base :: Count(ops, i, base) == if base in seen then seen[base] else 0
    {
      Step(ops, i + 1, Base(ops[i]));
      ghost var before := seen;
      if TrimSpace(ops[i].kind) != "" {
        var base := Base(ops[i]);
        var n := (if base in seen then seen[base] else 0) + 1;
        seen := seen[base := n];
        out := out + [Numbered(ops[i], n)];
      }
      forall base ensures Count(ops, i + 1, base) == if base in seen then seen[base] else 0 {
        Step(ops, i + 1, base);
        assert Count(ops, i, base) == if base in before then before[base] else 0;
      }
    }
  }

  lemma NothingCounted(ops: seq<Operation>)
    ensures CompactTo(ops, 0) == [] && forall base :: Count(ops, 0, base) == 0
  {
  }

  lemma Step(ops: seq<Operation>, k: nat, base: string)
    requires 0 < k <= |ops|
    ensures CompactTo(ops, k)
         == CompactTo(ops, k - 1)
            + if Kept(ops[k - 1]) then [Numbered(ops[k - 1], Count(ops, k, Base(ops[k - 1])))] else []
    ensures Count(ops, k, base)
         == Count(ops, k - 1, base) + if Kept(ops[k - 1]) && Base(ops[k - 1]) == base then 1 else 0
  {
    hide Base, Kept, Numbered;
  }

  method AddRootOperations(ops: seq<Operation>, types: seq<Type>, kind: string, root: string)
    returns (out: seq<Operation>)
    ensures out == AddRoot(ops, types, kind, root)
  {
    hide BaseID, RootOperation;
    out := ops;
    var t := TypeByName(types, root);
    if t.None? || |t.value.fields| == 0 {
      return;
    }
    var fields := t.value.fields;
    for i := 0 to |fields|
      invariant AddFields(ops, kind, root, fields) == AddFields(out, kind, root, fields[i..])
    {
      assert fields[i..][1..] == fields[i + 1..];
      if TrimSpace(fields[i].name) == "" {
        continue;
      }
      var id := BaseID(kind, fields[i].name);
      var existing := OperationByID(out, id);
      if existing.Some? {
        continue;
      }
      out := out + [RootOperation(kind, root, fields[i])];
    }
  }

  /** addSchemaRootOperations */
  method AddSchemaRootOperations(m: Model) returns (r: Model)
    ensures r == m.(operations := AddRoots(m), schema := NamedRoots(m))
  {
    hide AddRoot, RootName;
    var a := AddRootOperations(m.operations, m.types, "query", RootName(m.schema.queryType, "Query"));
    var b := AddRootOperations(a, m.types, "mutation", RootName(m.schema.mutationType, "Mutation"));
    var c := AddRootOperations(b, m.types, "subscription", RootName(m.schema.subscriptionType, "Subscription"));
    var s := m.schema;
    if s.queryType == "" && HasFields(m.types, "Query") {
      s := s.(queryType := "Query");
    }
    if s.mutationType == "" && HasFields(m.types, "Mutation") {
      s := s.(mutationType := "Mutation");
    }
    if s.subscriptionType == "" && HasFields(m.types, "Subscription") {
      s := s.(subscriptionType := "Subscription");
    }
    r := m.(operations := c, schema := s);
  }

  // ---------------------------------------------------------------- distinct IDs

  ghost predicate DistinctIDs(ops: seq<Operation>) {
    forall i, j :: 0 <= i < j < |ops| ==> ops[i].id != ops[j].id
  }

  lemma {:induction false} CountGrows(ops: seq<Operation>, j: nat, k: nat, base: string)
    requires j <= k <= |ops|
    ensures Count(ops, j, base) <= Count(ops, k, base)
    decreases k
  {
    hide Base, Kept;
    if j < k {
      CountGrows(ops, j, k - 1, base);
    }
  }

  lemma NumberedBase(op: Operation, n: nat)
    ensures Base(Numbered(op, n)) == Base(op)
  {
    hide BaseID;
  }

  /** Every number of a base is given to an operation with that base. */
  lemma {:induction false} CompactIDs(ops: seq<Operation>, k: nat, base: string, n: nat)
    requires k <= |ops| && 1 <= n <= Count(ops, k, base)
    ensures exists x <- CompactTo(ops, k) :: x.id == NumberedID(base, n) && Base(x) == base
  {
    hide Base, Kept, NumberedID, CompactTo, Count, OperationSelector;
    if k == 0 {
      NothingCounted(ops);
      return;
    }
    Step(ops, k, base);
    if n <= Count(ops, k - 1, base) {
      CompactIDs(ops, k - 1, base, n);
    } else {
      NumberedBase(ops[k - 1], n);
      assert Numbered(ops[k - 1], n) in CompactTo(ops, k);
    }
  }

  /** Each compacted operation carries the number of an operation before it. */
  lemma {:induction false} CompactFrom(ops: seq<Operation>, k: nat, x: Operation)
    requires k <= |ops| && x in CompactTo(ops, k)
    ensures exists j: nat, n: nat ::
              j < k && Kept(ops[j]) && 1 <= n <= Count(ops, k, Base(ops[j])) && x == Numbered(ops[j], n)
  {
    hide Base, Kept, Numbered;
    if x in CompactTo(ops, k - 1) {
      CompactFrom(ops, k - 1, x);
      var j: nat, n: nat :| j < k - 1 && Kept(ops[j]) && 1 <= n <= Count(ops, k - 1, Base(ops[j]))
        && x == Numbered(ops[j], n);
      CountGrows(ops, k - 1, k, Base(ops[j]));
    } else {
      assert x == Numbered(ops[k - 1], Count(ops, k, Base(ops[k - 1])));
    }
  }

  lemma NumberedInjective(a: string, m: nat, b: string, n: nat)
    requires m > 1 && n > 1 && NumberedID(a, m) == NumberedID(b, n)
    ensures a == b && m == n
  {
    hide Decimal;
    SplitUniqueRight(a, Decimal(m), b, Decimal(n), '.');
    DecimalInjective(m, n);
  }

  function Total(ops: seq<Operation>, base: string): nat {
    Count(ops, |ops|, base)
  }

  /** No base ID is a base ID with a number that is given out. */
  ghost predicate NoNumberedName(ops: seq<Operation>) {
    forall op, other, n: nat | op in ops && other in ops && Kept(op) && Kept(other) && 2 <= n <= Total(ops, Base(op)) ::
      Base(other) != NumberedID(Base(op), n)
  }

  lemma {:induction false} CompactDistinct(ops: seq<Operation>, k: nat)
    requires k <= |ops| && NoNumberedName(ops)
    ensures DistinctIDs(CompactTo(ops, k))
  {
    hide Base, Kept, NumberedID, NoNumberedName, Numbered, Count;
    if k > 0 {
      CompactDistinct(ops, k - 1);
      if Kept(ops[k - 1]) {
        forall x <- CompactTo(ops, k - 1) ensures x.id != Numbered(ops[k - 1], Count(ops, k, Base(ops[k - 1]))).id {
          LastApart(ops, k, x);
        }
      }
    }
  }

  /** The last operation has another ID than each one before it. */
  lemma LastApart(ops: seq<Operation>, k: nat, x: Operation)
    requires 0 < k <= |ops| && NoNumberedName(ops) && Kept(ops[k - 1]) && x in CompactTo(ops, k - 1)
    ensures x.id != Numbered(ops[k - 1], Count(ops, k, Base(ops[k - 1]))).id
  {
    hide Base, Kept, NumberedID, CompactTo, NoNumberedName, Count, OperationSelector;
    var op := ops[k - 1];
    CompactFrom(ops, k - 1, x);
    var j: nat, m: nat :| j < k - 1 && Kept(ops[j]) && 1 <= m <= Count(ops, k - 1, Base(ops[j]))
      && x == Numbered(ops[j], m);
    Step(ops, k, Base(op));
    CountGrows(ops, k - 1, |ops|, Base(ops[j]));
    CountGrows(ops, k, |ops|, Base(op));
    IDsApart(ops, ops[j], m, op, Count(ops, k, Base(op)));
  }

  /** Different operations, or different numbers, have different IDs. */
  lemma IDsApart(ops: seq<Operation>, y: Operation, m: nat, op: Operation, n: nat)
    requires NoNumberedName(ops) && y in ops && op in ops && Kept(y) && Kept(op)
    requires 1 <= m <= Total(ops, Base(y)) && 1 <= n <= Total(ops, Base(op))
    requires Base(y) == Base(op) ==> m != n
    ensures NumberedID(Base(y), m) != NumberedID(Base(op), n)
  {
    hide Base, Kept, Total, Decimal;
    if m > 1 && n > 1 {
      if NumberedID(Base(y), m) == NumberedID(Base(op), n) {
        NumberedInjective(Base(y), m, Base(op), n);
      }
    } else if m > 1 {
      assert Base(op) != NumberedID(Base(y), m);
    } else if n > 1 {
      assert Base(y) != NumberedID(Base(op), n);
    }
  }

  /** A clash of names gives two operations one ID. */
  lemma CompactClashes(ops: seq<Operation>)
    requires !NoNumberedName(ops)
    ensures !DistinctIDs(Compact(ops))
  {
    hide Base, Kept, NumberedID, Count, CompactTo;
    var op, other, n: nat :| op in ops && other in ops && Kept(op) && Kept(other) && 2 <= n <= Total(ops, Base(op))
                             && Base(other) == NumberedID(Base(op), n);
    assert ops[..|ops|] == ops;
    KeptCounted(ops, |ops|, other);
    CompactIDs(ops, |ops|, Base(op), n);
    CompactIDs(ops, |ops|, Base(other), 1);
    var x :| x in Compact(ops) && x.id == NumberedID(Base(op), n) && Base(x) == Base(op);
    var y :| y in Compact(ops) && y.id == NumberedID(Base(other), 1) && Base(y) == Base(other);
    NumberedLonger(Base(op), n);
    NumberedLonger(Base(other), 1);
    var i :| 0 <= i < |Compact(ops)| && Compact(ops)[i] == x;
    var j :| 0 <= j < |Compact(ops)| && Compact(ops)[j] == y;
    assert i != j;
    assert Compact(ops)[i].id == Compact(ops)[j].id;
  }

  lemma NumberedLonger(base: string, n: nat)
    ensures n > 1 ==> |NumberedID(base, n)| > |base|
    ensures NumberedID(base, 1) == base
  {
  }

  lemma {:induction false} KeptCounted(ops: seq<Operation>, k: nat, op: Operation)
    requires k <= |ops| && op in ops[..k] && Kept(op)
    ensures Count(ops, k, Base(op)) >= 1
  {
    hide Base, Kept;
    if op != ops[k - 1] {
      assert ops[..k] == ops[..k - 1] + [ops[k - 1]];
      KeptCounted(ops, k - 1, op);
    }
  }

  /** Duplicate numbering gives distinct IDs exactly when no operation is named like another
      with one of the numbers that are given out. */
  lemma DistinctExactly(ops: seq<Operation>)
    ensures DistinctIDs(Compact(ops)) <==> NoNumberedName(ops)
  {
    hide CompactTo, NoNumberedName, DistinctIDs;
    if NoNumberedName(ops) {
      CompactDistinct(ops, |ops|);
    } else {
      CompactClashes(ops);
    }
  }

  /** Kinds and names without dots, such as those of the GraphQL grammar. */
  predicate DotFree(op: Operation) {
    '.' !in op.kind && '.' !in op.name
  }

  lemma TrimmedDotFree(s: string)
    requires '.' !in s
    ensures '.' !in TrimSpace(s) && '.' !in ToLower(TrimSpace(s))
  {
    hide TrimSpace;
    TrimmedOf(s);
    var t := TrimSpace(s);
    assert forall i :: 0 <= i < |t| ==> ToLower(t)[i] != '.';
  }

  lemma BaseParts(op: Operation) returns (kind: string, name: string)
    requires DotFree(op)
    ensures '.' !in kind && '.' !in name && Base(op) == kind + ['.'] + name
  {
    hide TrimSpace, ToLower;
    var given := if op.name == "" then "anonymous" else op.name;
    TrimmedDotFree(op.kind);
    TrimmedDotFree(given);
    kind, name := ToLower(TrimSpace(op.kind)), if TrimSpace(given) == "" then "anonymous" else TrimSpace(given);
  }

  lemma DotFreeNames(ops: seq<Operation>)
    requires forall op <- ops :: DotFree(op)
    ensures NoNumberedName(ops)
  {
    hide Base, DotFree, Total, Kept;
    forall op, other, n: nat | op in ops && other in ops && Kept(op) && Kept(other) && 2 <= n <= Total(ops, Base(op))
      ensures Base(other) != NumberedID(Base(op), n)
    {
      var k, x := BaseParts(op);
      var l, y := BaseParts(other);
      assert (k + ['.'] + x)[|k|] == '.';
      if Base(other) == NumberedID(Base(op), n) {
        DecimalDotFree(n);
        SplitUniqueRight(l, y, k + ['.'] + x, Decimal(n), '.');
      }
    }
  }

  lemma DecimalDotFree(n: nat)
    ensures '.' !in Decimal(n)
  {
    hide Decimal;
  }

  // ---------------------------------------------------------------- the whole model

  lemma {:induction false} FindsFirst(ops: seq<Operation>, id: string)
    ensures OperationByID(ops, id).None? <==> forall op <- ops :: op.id != TrimSpace(id)
    ensures OperationByID(ops, id).Some? ==>
              OperationByID(ops, id).value in ops && OperationByID(ops, id).value.id == TrimSpace(id)
  {
    hide TrimSpace;
    if ops != [] {
      FindsFirst(ops[1..], id);
    }
  }

  lemma {:induction false} AddFieldsDistinct(ops: seq<Operation>, kind: string, root: string, fields: seq<Field>)
    requires DistinctIDs(ops)
    requires forall field <- fields :: TrimSpace(BaseID(kind, field.name)) == BaseID(kind, field.name)
    ensures DistinctIDs(AddFields(ops, kind, root, fields))
    decreases |fields|
  {
    hide BaseID, TrimSpace;
    if fields != [] {
      var field := fields[0];
      FindsFirst(ops, BaseID(kind, field.name));
      var next := if TrimSpace(field.name) == "" || OperationByID(ops, BaseID(kind, field.name)).Some? then ops
                  else ops + [RootOperation(kind, root, field)];
      AddFieldsDistinct(next, kind, root, fields[1..]);
    }
  }

  lemma BaseTrimmed(kind: string, name: string)
    requires kind in {"query", "mutation", "subscription"}
    ensures TrimSpace(BaseID(kind, name)) == BaseID(kind, name)
  {
    hide TrimSpace;
    TrimSpaceFixes(kind);
    TrimSpaceFixes("anonymous");
    var id := BaseID(kind, name);
    var last := if TrimSpace(name) == "" then "anonymous" else TrimSpace(name);
    assert last != "" && !IsSpace(last[|last| - 1]) && id[|id| - 1] == last[|last| - 1];
    assert ToLower(kind)[0] == kind[0] && id[0] == kind[0];
    TrimSpaceFixes(id);
  }

  lemma AddRootDistinct(ops: seq<Operation>, types: seq<Type>, kind: string, root: string)
    requires DistinctIDs(ops) && kind in {"query", "mutation", "subscription"}
    ensures DistinctIDs(AddRoot(ops, types, kind, root))
  {
    hide AddFields, BaseID, DistinctIDs, TypeByName;
    match TypeByName(types, root) {
      case None =>
      case Some(t) =>
        forall field <- t.fields ensures TrimSpace(BaseID(kind, field.name)) == BaseID(kind, field.name) {
          BaseTrimmed(kind, field.name);
        }
        AddFieldsDistinct(ops, kind, root, t.fields);
    }
  }

  /** Adding schema root fields never repeats an ID. */
  lemma RootsDistinct(m: Model)
    requires DistinctIDs(m.operations)
    ensures DistinctIDs(AddRoots(m))
  {
    hide AddRoot, RootName, DistinctIDs;
    var a := AddRoot(m.operations, m.types, "query", RootName(m.schema.queryType, "Query"));
    AddRootDistinct(m.operations, m.types, "query", RootName(m.schema.queryType, "Query"));
    AddRootDistinct(a, m.types, "mutation", RootName(m.schema.mutationType, "Mutation"));
    var b := AddRoot(a, m.types, "mutation", RootName(m.schema.mutationType, "Mutation"));
    AddRootDistinct(b, m.types, "subscription", RootName(m.schema.subscriptionType, "Subscription"));
  }

  function OperationKey(op: Operation): string {
    op.id
  }

  /** The operations of a parsed document, sorted by ID. */
  function Operations(m: Model): seq<Operation> {
    Ordering.SortBy(OperationKey, AddRoots(m.(operations := Compact(m.operations))))
  }

  predicate OtherID(a: Operation, b: Operation) {
    a.id != b.id
  }

  lemma PairwiseIDs(ops: seq<Operation>)
    ensures DistinctIDs(ops) <==> Ordering.Pairwise(OtherID, ops)
  {
    if Ordering.Pairwise(OtherID, ops) {
      assert forall i, j :: 0 <= i < j < |ops| ==> OtherID(ops[i], ops[j]);
    }
  }

  lemma SortedDistinct(ops: seq<Operation>)
    ensures DistinctIDs(Ordering.SortBy(OperationKey, ops)) <==> DistinctIDs(ops)
  {
    hide DistinctIDs, Ordering.SortBy, Ordering.Pairwise;
    var sorted := Ordering.SortBy(OperationKey, ops);
    Ordering.SortBySorts(OperationKey, ops);
    PairwiseIDs(ops);
    PairwiseIDs(sorted);
    if DistinctIDs(ops) {
      Ordering.PairwisePermutes(OtherID, ops, sorted);
    } else if DistinctIDs(sorted) {
      Ordering.PairwisePermutes(OtherID, sorted, ops);
    }
  }

  lemma {:induction false} AddFieldsAppends(ops: seq<Operation>, kind: string, root: string, fields: seq<Field>)
    ensures ops <= AddFields(ops, kind, root, fields)
    decreases |fields|
  {
    hide BaseID, TrimSpace, RootOperation, OperationByID;
    if fields != [] {
      var field := fields[0];
      var next := if TrimSpace(field.name) == "" || OperationByID(ops, BaseID(kind, field.name)).Some? then ops
                  else ops + [RootOperation(kind, root, field)];
      AddFieldsAppends(next, kind, root, fields[1..]);
    }
  }

  lemma AddRootAppends(ops: seq<Operation>, types: seq<Type>, kind: string, root: string)
    ensures ops <= AddRoot(ops, types, kind, root)
  {
    hide AddFields, TypeByName;
    match TypeByName(types, root) {
      case None =>
      case Some(t) => AddFieldsAppends(ops, kind, root, t.fields);
    }
  }

  /** Adding schema root fields keeps the operations of the document in front. */
  lemma RootsAppend(m: Model)
    ensures m.operations <= AddRoots(m)
  {
    hide AddRoot, RootName;
    var q, u, s := RootName(m.schema.queryType, "Query"), RootName(m.schema.mutationType, "Mutation"),
                   RootName(m.schema.subscriptionType, "Subscription");
    AddRootAppends(m.operations, m.types, "query", q);
    var a := AddRoot(m.operations, m.types, "query", q);
    AddRootAppends(a, m.types, "mutation", u);
    AddRootAppends(AddRoot(a, m.types, "mutation", u), m.types, "subscription", s);
  }

  lemma PrefixDistinct(a: seq<Operation>, b: seq<Operation>)
    requires a <= b && DistinctIDs(b)
    ensures DistinctIDs(a)
  {
    forall i, j | 0 <= i < j < |a| ensures a[i].id != a[j].id {
      assert b[i] == a[i] && b[j] == a[j];
    }
  }

  /** All operation IDs of a document, those added for schema roots included, are distinct
      exactly when no operation is named like another with one of its numbers. */
  lemma AllDistinctExactly(m: Model)
    ensures DistinctIDs(Operations(m)) <==> NoNumberedName(m.operations)
  {
    hide *;
    var compacted := m.(operations := Compact(m.operations));
    DistinctExactly(m.operations);
    OperationsAre(m);
    SortedDistinct(AddRoots(compacted));
    RootsAppend(compacted);
    if DistinctIDs(compacted.operations) {
      RootsDistinct(compacted);
    } else if DistinctIDs(AddRoots(compacted)) {
      PrefixDistinct(compacted.operations, AddRoots(compacted));
    }
  }

  lemma OperationsAre(m: Model)
    ensures Operations(m) == Ordering.SortBy(OperationKey, AddRoots(m.(operations := Compact(m.operations))))
  {
  }

  lemma {:induction false} FindsOwn(ops: seq<Operation>, i: nat)
    requires i < |ops| && DistinctIDs(ops) && TrimSpace(ops[i].id) == ops[i].id
    ensures OperationByID(ops, ops[i].id) == Some(ops[i])
  {
    hide TrimSpace;
    if i > 0 {
      assert ops[0].id != ops[i].id;
      FindsOwn(ops[1..], i - 1);
    }
  }

  // ---------------------------------------------------------------- lookups

  const KINDS := {"query", "mutation", "subscription"}

  /** An operation that no other operation's ID can be mistaken for. */
  predicate Addressed(op: Operation) {
    && op.kind in KINDS && '.' !in op.name
    && op.kind + ['.'] <= op.id && TrimSpace(op.id) == op.id
    && "#" <= op.selector && "#" <= op.sourceRef
  }

  lemma HashTrimmed(s: string)
    requires "#" <= s
    ensures "#" <= TrimSpace(s)
  {
    assert TrimLeft(s) == s;
    HashKept(s);
  }

  lemma {:induction false} HashKept(s: string)
    requires "#" <= s
    ensures "#" <= TrimRight(s)
    decreases |s|
  {
    if |s| > 1 && IsSpace(s[|s| - 1]) {
      HashKept(s[..|s| - 1]);
    }
  }

  lemma OperationTrimmed(id: string)
    ensures (var t := TrimSpace("operation:" + id); t != "" && t[0] == 'o')
  {
    var s := "operation:" + id;
    assert TrimLeft(s) == s;
    FirstKept(s);
  }

  lemma {:induction false} FirstKept(s: string)
    requires s != "" && !IsSpace(s[0])
    ensures TrimRight(s) != "" && TrimRight(s)[0] == s[0]
    decreases |s|
  {
    if |s| > 1 && IsSpace(s[|s| - 1]) {
      FirstKept(s[..|s| - 1]);
    }
  }

  /** Of the aliases of an operation only its own ID can be an operation ID. */
  lemma AliasIsID(op: Operation, id: string, kind: string)
    requires Addressed(op) && kind in KINDS && kind + ['.'] <= id
    ensures id in Aliases(op) <==> id == op.id
  {
    hide TrimSpace, ToLower;
    assert id[|kind|] == '.';
    TrimmedDotFree(op.name);
    OperationTrimmed(op.id);
    HashTrimmed(op.selector);
    HashTrimmed(op.sourceRef);
    assert id[0] == kind[0] && kind[0] != 'o' && kind[0] != '#';
    assert op.id in [op.id, op.name, "operation:" + op.id, op.selector, op.sourceRef];
  }

  lemma {:induction false} ResolvesOwn(ops: seq<Operation>, i: nat)
    requires i < |ops| && DistinctIDs(ops) && forall op <- ops :: Addressed(op)
    ensures ResolveSelector(ops, ops[i].id) == Some(ops[i])
  {
    hide TrimSpace, Aliases, Addressed;
    var id := ops[i].id;
    AddressedMeans(ops[i]);
    AliasIsID(ops[0], id, ops[i].kind);
    if i > 0 {
      assert ops[0].id != id;
      ResolvesOwn(ops[1..], i - 1);
    }
  }

  lemma AddressedMeans(op: Operation)
    requires Addressed(op)
    ensures op.kind in KINDS && op.kind + ['.'] <= op.id && TrimSpace(op.id) == op.id
  {
    hide TrimSpace;
  }

  lemma NumberedAddressed(op: Operation, n: nat)
    requires op.kind in KINDS && '.' !in op.name
    ensures Addressed(Numbered(op, n))
  {
    hide TrimSpace, ToLower, Decimal;
    var name := if op.name == "" then "anonymous" else op.name;
    var id := NumberedID(BaseID(op.kind, name), n);
    BaseTrimmed(op.kind, name);
    KindKept(op.kind);
    NumberTrimmed(BaseID(op.kind, name), n);
  }

  lemma KindKept(kind: string)
    requires kind in KINDS
    ensures TrimSpace(kind) == kind == ToLower(kind) && kind != ""
  {
    hide TrimSpace;
    TrimSpaceFixes(kind);
    assert ToLower("query") == "query" && ToLower("mutation") == "mutation"
           && ToLower("subscription") == "subscription";
  }

  lemma NumberTrimmed(base: string, n: nat)
    requires base != "" && TrimSpace(base) == base
    ensures TrimSpace(NumberedID(base, n)) == NumberedID(base, n)
  {
    hide TrimSpace, Decimal;
    var id := NumberedID(base, n);
    if n > 1 {
      var d := Decimal(n);
      assert id[|id| - 1] == d[|d| - 1] && d[|d| - 1] in d;
      assert id[0] == base[0];
      TrimSpaceFixes(id);
    }
  }

  lemma RootAddressed(kind: string, root: string, field: Field)
    requires kind in KINDS && '.' !in field.name
    ensures Addressed(RootOperation(kind, root, field))
  {
    hide TrimSpace, ToLower;
    BaseTrimmed(kind, field.name);
    KindKept(kind);
  }

  lemma {:induction false} CompactAddressed(ops: seq<Operation>, k: nat)
    requires k <= |ops| && forall op <- ops :: op.kind in KINDS && '.' !in op.name
    ensures forall op <- CompactTo(ops, k) :: Addressed(op)
  {
    hide Base, Numbered, Addressed, Kept, Count;
    if k > 0 {
      CompactAddressed(ops, k - 1);
      NumberedAddressed(ops[k - 1], Count(ops, k, Base(ops[k - 1])));
    }
  }

  lemma {:induction false} FieldsAddressed(ops: seq<Operation>, kind: string, root: string, fields: seq<Field>)
    requires (forall op <- ops :: Addressed(op)) && kind in KINDS && forall field <- fields :: '.' !in field.name
    ensures forall op <- AddFields(ops, kind, root, fields) :: Addressed(op)
    decreases |fields|
  {
    hide RootOperation, Addressed, BaseID, TrimSpace, OperationByID;
    if fields != [] {
      var field := fields[0];
      RootAddressed(kind, root, field);
      var next := if TrimSpace(field.name) == "" || OperationByID(ops, BaseID(kind, field.name)).Some? then ops
                  else ops + [RootOperation(kind, root, field)];
      FieldsAddressed(next, kind, root, fields[1..]);
    }
  }

  lemma {:induction false} TypeFound(types: seq<Type>, name: string)
    ensures TypeByName(types, name).Some? ==> TypeByName(types, name).value in types
  {
    hide TrimSpace;
    if types != [] {
      TypeFound(types[1..], name);
    }
  }

  lemma RootsAddressed(m: Model)
    requires forall op <- m.operations :: Addressed(op)
    requires forall t <- m.types :: forall field <- t.fields :: '.' !in field.name
    ensures forall op <- AddRoots(m) :: Addressed(op)
  {
    hide AddFields, Addressed, TypeByName, RootName;
    var q, u, s := RootName(m.schema.queryType, "Query"), RootName(m.schema.mutationType, "Mutation"),
                   RootName(m.schema.subscriptionType, "Subscription");
    RootAddressedAll(m.operations, m.types, "query", q);
    var a := AddRoot(m.operations, m.types, "query", q);
    RootAddressedAll(a, m.types, "mutation", u);
    RootAddressedAll(AddRoot(a, m.types, "mutation", u), m.types, "subscription", s);
  }

  lemma RootAddressedAll(ops: seq<Operation>, types: seq<Type>, kind: string, root: string)
    requires (forall op <- ops :: Addressed(op)) && kind in KINDS
    requires forall t <- types :: forall field <- t.fields :: '.' !in field.name
    ensures forall op <- AddRoot(ops, types, kind, root) :: Addressed(op)
  {
    hide AddFields, Addressed, TypeByName;
    TypeFound(types, root);
    match TypeByName(types, root) {
      case None =>
      case Some(t) => FieldsAddressed(ops, kind, root, t.fields);
    }
  }

  /** For dot-free names all operation IDs of a document are distinct, and looking up or
      resolving the ID of an operation returns that operation. */
  lemma OperationsFound(m: Model)
    requires forall op <- m.operations :: op.kind in KINDS && '.' !in op.name
    requires forall t <- m.types :: forall field <- t.fields :: '.' !in field.name
    ensures DistinctIDs(Operations(m))
    ensures forall op <- Operations(m) :: OperationByID(Operations(m), op.id) == Some(op)
                                          && ResolveSelector(Operations(m), op.id) == Some(op)
  {
    hide CompactTo, AddRoots, Addressed, DistinctIDs, NoNumberedName, OperationByID, ResolveSelector, Ordering.SortBy,
         DotFree, TrimSpace;
    AllDotFree(m.operations);
    DotFreeNames(m.operations);
    AllDistinctExactly(m);
    var compacted := m.(operations := Compact(m.operations));
    CompactAddressed(m.operations, |m.operations|);
    RootsAddressed(compacted);
    Ordering.SortBySorts(OperationKey, AddRoots(compacted));
    var ops := Operations(m);
    forall op <- ops ensures Addressed(op) {
      assert op in multiset(ops);
      assert op in multiset(AddRoots(compacted));
    }
    forall op <- ops ensures OperationByID(ops, op.id) == Some(op) && ResolveSelector(ops, op.id) == Some(op) {
      var i :| 0 <= i < |ops| && ops[i] == op;
      AddressedMeans(op);
      FindsOwn(ops, i);
      ResolvesOwn(ops, i);
    }
  }

  lemma AllDotFree(ops: seq<Operation>)
    requires forall op <- ops :: op.kind in KINDS && '.' !in op.name
    ensures forall op <- ops :: DotFree(op)
  {
  }
}
