/** What is left of a parsed GraphQL document: which operations its model has, and which types,
    stated about the definitions, operations and fields of the document. */
module FinishedModels {
  import opened GraphQLModel
  import opened GraphQLSpec
  import opened OperationIDs
  import opened Text
  import opened Wrappers
  import Ordering
  import ProtoModel

  // ---------------------------------------------------------------- document operations

  /** kind.name, with the kind in lower case and a blank name read as anonymous. */
  function PlainID(kind: string, name: string): string {
    ToLower(TrimSpace(kind)) + "." + if TrimSpace(name) == "" then "anonymous" else TrimSpace(name)
  }

  predicate HasKind(op: Operation) {
    TrimSpace(op.kind) != ""
  }

  /** The operations up to this one that share its plain ID. */
  ghost function Namesakes(ops: seq<Operation>, i: nat): set<nat>
    requires i < |ops|
  {
    set j: nat | j <= i && HasKind(ops[j]) && PlainID(ops[j].kind, ops[j].name) == PlainID(ops[i].kind, ops[i].name)
  }

  /** The ID of an operation: its plain ID, with its number from the second namesake on. */
  ghost function DocumentID(ops: seq<Operation>, i: nat): string
    requires i < |ops|
  {
    var n := |Namesakes(ops, i)|;
    PlainID(ops[i].kind, ops[i].name) + if n > 1 then "." + Decimal(n) else ""
  }

  /** The operation as it is, named and with its ID. */
  ghost function DocumentOperation(ops: seq<Operation>, i: nat): Operation
    requires i < |ops|
  {
    var id := DocumentID(ops, i);
    var selector := "#/operations/" + ProtoModel.Escape(TrimSpace(id));
    ops[i].(name := if ops[i].name == "" then "anonymous" else ops[i].name, id := id, selector := selector,
            sourceRef := selector)
  }

  lemma SamePlainID(op: Operation)
    ensures Base(op) == PlainID(op.kind, op.name)
  {
    hide ToLower;
    assert TrimSpace("") == "" && TrimSpace("anonymous") == "anonymous" by {
      TrimSpaceFixes("");
      TrimSpaceFixes("anonymous");
    }
  }

  ghost function Sharing(ops: seq<Operation>, k: nat, base: string): set<nat>
    requires k <= |ops|
  {
    set j: nat | j < k && HasKind(ops[j]) && PlainID(ops[j].kind, ops[j].name) == base
  }

  lemma SharingNext(ops: seq<Operation>, k: nat, base: string)
    requires 0 < k <= |ops|
    ensures (var here := HasKind(ops[k - 1]) && PlainID(ops[k - 1].kind, ops[k - 1].name) == base;
             Sharing(ops, k, base) == Sharing(ops, k - 1, base) + if here then {k - 1} else {})
    ensures k - 1 !in Sharing(ops, k - 1, base)
  {
    hide PlainID, HasKind;
  }

  lemma {:induction false} CountShares(ops: seq<Operation>, k: nat, base: string)
    requires k <= |ops|
    ensures Count(ops, k, base) == |Sharing(ops, k, base)|
    decreases k
  {
    hide Base, PlainID, TrimSpace, Sharing;
    if k == 0 {
      NothingShared(ops, base);
    } else {
      CountShares(ops, k - 1, base);
      SamePlainID(ops[k - 1]);
      SharingNext(ops, k, base);
    }
  }

  lemma NothingShared(ops: seq<Operation>, base: string)
    ensures Sharing(ops, 0, base) == {}
  {
    hide PlainID, HasKind;
  }

  lemma NumberedFrom(ops: seq<Operation>, i: nat)
    requires i < |ops|
    ensures Numbered(ops[i], Count(ops, i + 1, Base(ops[i]))) == DocumentOperation(ops, i)
  {
    hide PlainID, Base, TrimSpace, ProtoModel.Escape, Count, Decimal;
    SamePlainID(ops[i]);
    CountShares(ops, i + 1, Base(ops[i]));
    assert Namesakes(ops, i) == Sharing(ops, i + 1, Base(ops[i]));
    var base, n := Base(ops[i]), |Namesakes(ops, i)|;
    assert base + "" == base && base + ['.'] + Decimal(n) == base + ("." + Decimal(n));
  }

  /** Compacting keeps the operations with a kind, in order. */
  lemma {:induction false} CompactSays(ops: seq<Operation>, k: nat)
    requires k <= |ops|
    ensures forall op :: op in CompactTo(ops, k) <==>
              exists i: nat :: i < k && HasKind(ops[i]) && op == DocumentOperation(ops, i)
    decreases k
  {
    hide Base, Numbered, DocumentOperation, TrimSpace, Count;
    if k > 0 {
      CompactSays(ops, k - 1);
      NumberedFrom(ops, k - 1);
      forall op ensures op in CompactTo(ops, k) <==>
                        exists i: nat :: i < k && HasKind(ops[i]) && op == DocumentOperation(ops, i)
      {
        if i: nat :| i < k && HasKind(ops[i]) && op == DocumentOperation(ops, i) {
          assert i == k - 1 || i < k - 1;
        }
      }
    }
  }

  // ---------------------------------------------------------------- root fields

  /** The operation that stands for a field of a root type. */
  function FromField(kind: string, root: string, f: Field): Operation {
    var selector := "#/schema/" + ProtoModel.Escape(TrimSpace(root)) + "/fields/"
                    + ProtoModel.Escape(TrimSpace(f.name));
    Operation(f.name, kind, PlainID(kind, f.name), selector, selector, f.description, [], [], f.name, f.typ, root)
  }

  /** The field has a name, no field before it has its ID, and no operation has it either. */
  ghost predicate Fresh(ops: seq<Operation>, kind: string, fields: seq<Field>, i: nat)
    requires i < |fields|
  {
    && TrimSpace(fields[i].name) != ""
    && (forall j :: 0 <= j < i && TrimSpace(fields[j].name) != "" ==>
          PlainID(kind, fields[j].name) != PlainID(kind, fields[i].name))
    && forall op <- ops :: op.id != PlainID(kind, fields[i].name)
  }

  lemma {:induction false} ByIDExactly(ops: seq<Operation>, id: string)
    requires TrimSpace(id) == id
    ensures OperationByID(ops, id).Some? <==> exists op <- ops :: op.id == id
    decreases |ops|
  {
    hide TrimSpace;
    if ops != [] {
      ByIDExactly(ops[1..], id);
      assert ops == [ops[0]] + ops[1..];
    }
  }

  lemma PlainTrimmed(kind: string, name: string)
    requires kind in KINDS
    ensures TrimSpace(PlainID(kind, name)) == PlainID(kind, name) == BaseID(kind, name)
    ensures PlainID(kind, name) != "" && PlainID(kind, name)[0] == kind[0]
  {
    hide TrimSpace, ToLower;
    KindKept(kind);
    BaseTrimmed(kind, name);
  }

  lemma SameField(kind: string, root: string, f: Field)
    requires kind in KINDS
    ensures RootOperation(kind, root, f) == FromField(kind, root, f)
  {
    hide TrimSpace, ToLower;
    PlainTrimmed(kind, f.name);
  }

  /** One field more in front. */
  lemma FreshNext(ops: seq<Operation>, next: seq<Operation>, kind: string, root: string, fields: seq<Field>, i: nat)
    requires 0 < i < |fields|
    requires next == if TrimSpace(fields[0].name) == ""
                        || exists op <- ops :: op.id == PlainID(kind, fields[0].name)
                     then ops else ops + [FromField(kind, root, fields[0])]
    ensures Fresh(next, kind, fields[1..], i - 1) <==> Fresh(ops, kind, fields, i)
  {
    hide TrimSpace, PlainID;
    var rest := fields[1..];
    assert rest[i - 1] == fields[i];
    if Fresh(next, kind, rest, i - 1) {
      forall j | 0 <= j < i && TrimSpace(fields[j].name) != ""
        ensures PlainID(kind, fields[j].name) != PlainID(kind, fields[i].name)
      {
        assert j > 0 ==> rest[j - 1] == fields[j];
      }
    }
  }

  /** Adding the fields of a root type adds the fresh ones and nothing else, behind the
      operations that were there. */
  lemma {:induction false} FieldsSay(ops: seq<Operation>, kind: string, root: string, fields: seq<Field>)
    requires kind in KINDS
    ensures forall op :: op in AddFields(ops, kind, root, fields) <==>
              op in ops || exists i: nat :: i < |fields| && Fresh(ops, kind, fields, i)
                             && op == FromField(kind, root, fields[i])
    decreases |fields|
  {
    hide TrimSpace, BaseID, RootOperation, OperationByID, Fresh, FromField, PlainID;
    if fields != [] {
      var f, rest := fields[0], fields[1..];
      PlainTrimmed(kind, f.name);
      ByIDExactly(ops, PlainID(kind, f.name));
      SameField(kind, root, f);
      var next := if TrimSpace(f.name) == "" || OperationByID(ops, BaseID(kind, f.name)).Some? then ops
                  else ops + [RootOperation(kind, root, f)];
      FieldsSay(next, kind, root, rest);
      FirstFresh(ops, kind, fields);
      forall i: nat | 0 < i < |fields| ensures Fresh(next, kind, rest, i - 1) <==> Fresh(ops, kind, fields, i) {
        FreshNext(ops, next, kind, root, fields, i);
      }
      forall op ensures op in AddFields(ops, kind, root, fields) <==>
                        op in ops || exists i: nat :: i < |fields| && Fresh(ops, kind, fields, i)
                                       && op == FromField(kind, root, fields[i])
      {
        if i: nat :| i < |rest| && Fresh(next, kind, rest, i) && op == FromField(kind, root, rest[i]) {
          assert Fresh(ops, kind, fields, i + 1) && rest[i] == fields[i + 1];
        }
        if i: nat :| i < |fields| && Fresh(ops, kind, fields, i) && op == FromField(kind, root, fields[i]) {
          assert i > 0 ==> Fresh(next, kind, rest, i - 1) && rest[i - 1] == fields[i];
        }
      }
    }
  }

  lemma FirstFresh(ops: seq<Operation>, kind: string, fields: seq<Field>)
    requires fields != []
    ensures Fresh(ops, kind, fields, 0) <==>
              TrimSpace(fields[0].name) != "" && !exists op <- ops :: op.id == PlainID(kind, fields[0].name)
  {
    hide TrimSpace, PlainID;
  }

  // ---------------------------------------------------------------- root types

  /** The root type of a kind is the declared one, else Query, Mutation or Subscription. */
  predicate IsRoot(s: RootTypes, kind: string, root: string) {
    || (kind == "query" && root == if TrimSpace(s.queryType) != "" then TrimSpace(s.queryType) else "Query")
    || (kind == "mutation" && root == if TrimSpace(s.mutationType) != "" then TrimSpace(s.mutationType) else "Mutation")
    || (kind == "subscription"
        && root == if TrimSpace(s.subscriptionType) != "" then TrimSpace(s.subscriptionType) else "Subscription")
  }

  /** The first type of that name. */
  ghost predicate TypeNamed(types: seq<Type>, name: string, t: Type) {
    exists i :: 0 <= i < |types| && types[i] == t && t.name == name && forall j :: 0 <= j < i ==> types[j].name != name
  }

  lemma TypeNamedFirst(types: seq<Type>, name: string, t: Type)
    requires types != []
    ensures TypeNamed(types, name, t) <==>
              if types[0].name == name then t == types[0] else TypeNamed(types[1..], name, t)
  {
    if TypeNamed(types, name, t) {
      var i :| 0 <= i < |types| && types[i] == t && t.name == name && forall j :: 0 <= j < i ==> types[j].name != name;
      assert i == 0 || types[1..][i - 1] == t;
    }
    if types[0].name != name && TypeNamed(types[1..], name, t) {
      var i :| 0 <= i < |types| - 1 && types[1..][i] == t && t.name == name
        && forall j :: 0 <= j < i ==> types[1..][j].name != name;
      forall j | 0 <= j < i + 1 ensures types[j].name != name {
        assert j == 0 || types[1..][j - 1] == types[j];
      }
      assert types[i + 1] == t;
    }
  }

  lemma {:induction false} TypeByNameExactly(types: seq<Type>, name: string)
    requires TrimSpace(name) == name
    ensures forall t :: TypeByName(types, name) == Some(t) <==> TypeNamed(types, name, t)
    decreases |types|
  {
    hide TrimSpace;
    if types != [] {
      hide TypeNamed;
      TypeByNameExactly(types[1..], name);
      forall t ensures TypeByName(types, name) == Some(t) <==> TypeNamed(types, name, t) {
        TypeNamedFirst(types, name, t);
      }
    }
  }

  /** The operation stands for a fresh field of the root type of this kind. */
  ghost predicate FromRoot(ops: seq<Operation>, types: seq<Type>, kind: string, root: string, op: Operation) {
    exists t, i: nat :: TypeNamed(types, root, t) && i < |t.fields| && Fresh(ops, kind, t.fields, i)
                        && op == FromField(kind, root, t.fields[i])
  }

  lemma RootSays(ops: seq<Operation>, types: seq<Type>, kind: string, root: string)
    requires kind in KINDS && TrimSpace(root) == root
    ensures forall op :: op in AddRoot(ops, types, kind, root) <==> op in ops || FromRoot(ops, types, kind, root, op)
  {
    hide TrimSpace, TypeByName, AddFields, TypeNamed, Fresh, FromField;
    TypeByNameExactly(types, root);
    match TypeByName(types, root) {
      case None =>
        assert forall t :: !TypeNamed(types, root, t);
      case Some(t) =>
        assert TypeNamed(types, root, t);
        FieldsSay(ops, kind, root, t.fields);
        forall u | TypeNamed(types, root, u) ensures u == t {
        }
    }
  }

  lemma RootIs(declared: string, default: string)
    requires TrimSpace(default) == default
    ensures RootName(declared, default) == if TrimSpace(declared) != "" then TrimSpace(declared) else default
    ensures TrimSpace(RootName(declared, default)) == RootName(declared, default)
  {
    hide TrimSpace;
    TrimSpaceIdempotent(declared);
  }

  lemma DefaultsTrimmed()
    ensures TrimSpace("Query") == "Query" && TrimSpace("Mutation") == "Mutation"
            && TrimSpace("Subscription") == "Subscription"
  {
    TrimSpaceFixes("Query");
    TrimSpaceFixes("Mutation");
    TrimSpaceFixes("Subscription");
  }

  /** Fields of another kind do not take an ID. */
  lemma FreshElsewhere(ops: seq<Operation>, more: seq<Operation>, kind: string, fields: seq<Field>, i: nat)
    requires kind in KINDS && i < |fields|
    requires forall op :: op in more ==> op in ops || (op.id != "" && op.id[0] != kind[0])
    requires forall op <- ops :: op in more
    ensures Fresh(more, kind, fields, i) <==> Fresh(ops, kind, fields, i)
  {
    hide TrimSpace, PlainID;
    PlainTrimmed(kind, fields[i].name);
  }

  lemma RootElsewhere(ops: seq<Operation>, more: seq<Operation>, types: seq<Type>, kind: string, root: string)
    requires kind in KINDS
    requires forall op :: op in more ==> op in ops || (op.id != "" && op.id[0] != kind[0])
    requires forall op <- ops :: op in more
    ensures forall op :: FromRoot(more, types, kind, root, op) <==> FromRoot(ops, types, kind, root, op)
  {
    hide TypeNamed, Fresh, FromField;
    forall t: Type, i: nat | i < |t.fields|
      ensures Fresh(more, kind, t.fields, i) <==> Fresh(ops, kind, t.fields, i)
    {
      FreshElsewhere(ops, more, kind, t.fields, i);
    }
  }

  lemma RootID(ops: seq<Operation>, types: seq<Type>, kind: string, root: string, op: Operation)
    requires kind in KINDS && FromRoot(ops, types, kind, root, op)
    ensures op.id != "" && op.id[0] == kind[0]
  {
    hide PlainID, TypeNamed, Fresh;
    var t, i: nat :| TypeNamed(types, root, t) && i < |t.fields| && Fresh(ops, kind, t.fields, i)
                     && op == FromField(kind, root, t.fields[i]);
    PlainTrimmed(kind, t.fields[i].name);
  }

  /** The operations with those of all three roots. */
  lemma RootsSay(m: Model)
    ensures forall op :: op in AddRoots(m) <==>
              op in m.operations
              || exists kind, root :: IsRoot(m.schema, kind, root) && FromRoot(m.operations, m.types, kind, root, op)
  {
    hide AddRoot, RootName, FromRoot, TrimSpace, IsRoot;
    DefaultsTrimmed();
    var q, u, s := RootName(m.schema.queryType, "Query"), RootName(m.schema.mutationType, "Mutation"),
                   RootName(m.schema.subscriptionType, "Subscription");
    RootIs(m.schema.queryType, "Query");
    RootIs(m.schema.mutationType, "Mutation");
    RootIs(m.schema.subscriptionType, "Subscription");
    var a := AddRoot(m.operations, m.types, "query", q);
    var b := AddRoot(a, m.types, "mutation", u);
    RootSays(m.operations, m.types, "query", q);
    RootSays(a, m.types, "mutation", u);
    RootSays(b, m.types, "subscription", s);
    RootIDs(m.operations, m.types, "query", q);
    RootElsewhere(m.operations, a, m.types, "mutation", u);
    RootIDs(m.operations, m.types, "mutation", u);
    RootElsewhere(m.operations, b, m.types, "subscription", s);
    RootKinds(m.schema, q, u, s);
  }

  lemma RootIDs(ops: seq<Operation>, types: seq<Type>, kind: string, root: string)
    requires kind in KINDS
    ensures forall op :: FromRoot(ops, types, kind, root, op) ==> op.id != "" && op.id[0] == kind[0]
  {
    hide FromRoot;
    forall op | FromRoot(ops, types, kind, root, op) ensures op.id != "" && op.id[0] == kind[0] {
      RootID(ops, types, kind, root, op);
    }
  }

  lemma RootKinds(s: RootTypes, q: string, u: string, v: string)
    requires q == if TrimSpace(s.queryType) != "" then TrimSpace(s.queryType) else "Query"
    requires u == if TrimSpace(s.mutationType) != "" then TrimSpace(s.mutationType) else "Mutation"
    requires v == if TrimSpace(s.subscriptionType) != "" then TrimSpace(s.subscriptionType) else "Subscription"
    ensures forall kind, root :: IsRoot(s, kind, root) <==>
              (kind, root) == ("query", q) || (kind, root) == ("mutation", u) || (kind, root) == ("subscription", v)
  {
    hide TrimSpace;
  }

  // ---------------------------------------------------------------- all operations

  /** The operations of a document are its own, named and numbered, and those that stand for the
      fields of its root types -- for each name the first field, unless an operation of the
      document has the ID -- and no others. */
  lemma OperationsSay(m: Model, op: Operation)
    ensures op in Operations(m) <==>
              || (exists i: nat :: i < |m.operations| && HasKind(m.operations[i])
                    && op == DocumentOperation(m.operations, i))
              || (exists kind, root :: IsRoot(m.schema, kind, root)
                    && FromRoot(Compact(m.operations), m.types, kind, root, op))
  {
    hide CompactTo, AddRoots, FromRoot, IsRoot, DocumentOperation, HasKind, Ordering.SortBy;
    var compacted := m.(operations := Compact(m.operations));
    CompactSays(m.operations, |m.operations|);
    RootsSay(compacted);
    Ordering.SortBySorts(OperationKey, AddRoots(compacted));
    assert op in Operations(m) <==> op in multiset(Operations(m));
    assert op in multiset(AddRoots(compacted)) <==> op in AddRoots(compacted);
  }

  /** Each named field of a root type has an operation with its ID. */
  lemma RootFieldsFound(m: Model, kind: string, root: string, t: Type, i: nat)
    requires IsRoot(m.schema, kind, root) && TypeNamed(m.types, root, t) && i < |t.fields|
    requires TrimSpace(t.fields[i].name) != ""
    ensures exists op <- Operations(m) :: op.id == PlainID(kind, t.fields[i].name)
  {
    hide TrimSpace, TypeNamed, Operations, PlainID, Compact;
    var id, ops := PlainID(kind, t.fields[i].name), Compact(m.operations);
    if op :| op in ops && op.id == id {
      CompactSays(m.operations, |m.operations|);
      CompactIs(m.operations);
      OperationsSay(m, op);
    } else {
      var k := FirstNamesake(kind, t.fields, i);
      assert Fresh(ops, kind, t.fields, k);
      var op := FromField(kind, root, t.fields[k]);
      assert FromRoot(ops, m.types, kind, root, op);
      OperationsSay(m, op);
    }
  }

  lemma CompactIs(ops: seq<Operation>)
    ensures Compact(ops) == CompactTo(ops, |ops|)
  {
  }

  lemma {:induction false} FirstNamesake(kind: string, fields: seq<Field>, i: nat) returns (k: nat)
    requires i < |fields| && TrimSpace(fields[i].name) != ""
    ensures k <= i && TrimSpace(fields[k].name) != ""
    ensures PlainID(kind, fields[k].name) == PlainID(kind, fields[i].name)
    ensures forall j :: 0 <= j < k && TrimSpace(fields[j].name) != "" ==>
              PlainID(kind, fields[j].name) != PlainID(kind, fields[i].name)
    decreases i
  {
    hide TrimSpace, PlainID;
    if j :| 0 <= j < i && TrimSpace(fields[j].name) != ""
            && PlainID(kind, fields[j].name) == PlainID(kind, fields[i].name) {
      k := FirstNamesake(kind, fields, j);
    } else {
      k := i;
    }
  }

  // ---------------------------------------------------------------- types

  /** A part of all definitions of a name, in the order they are given. */
  function Gathered<T>(types: seq<Type>, name: string, part: Type -> seq<T>): seq<T> {
    if types == [] then []
    else (if types[0].name == name then part(types[0]) else []) + Gathered(types[1..], name, part)
  }

  function FieldsOf(t: Type): seq<Field> { t.fields }
  function InputFieldsOf(t: Type): seq<Argument> { t.inputFields }
  function ValuesOf(t: Type): seq<EnumValue> { t.enumValues }
  function MembersOf(t: Type): seq<string> { t.unionMembers }

  /** The first description that is not empty. */
  function FirstDescription(types: seq<Type>, name: string): string {
    if types == [] then ""
    else if types[0].name == name && types[0].description != "" then types[0].description
    else FirstDescription(types[1..], name)
  }

  /** The first definition of the name says what kind it is. */
  ghost predicate FirstKind(types: seq<Type>, name: string, kind: string) {
    exists i :: 0 <= i < |types| && types[i].name == name && types[i].kind == kind
                && forall j :: 0 <= j < i ==> types[j].name != name
  }

  /** What the definitions of a name make together. */
  ghost predicate Makes(types: seq<Type>, t: Type) {
    && t.fields == Gathered(types, t.name, FieldsOf) && t.inputFields == Gathered(types, t.name, InputFieldsOf)
    && t.enumValues == Gathered(types, t.name, ValuesOf) && t.unionMembers == Gathered(types, t.name, MembersOf)
    && t.description == FirstDescription(types, t.name) && FirstKind(types, t.name, t.kind)
  }

  lemma {:induction false} GatheredMore<T>(a: seq<Type>, t: Type, name: string, part: Type -> seq<T>)
    ensures Gathered(a + [t], name, part) == Gathered(a, name, part) + if t.name == name then part(t) else []
    decreases |a|
  {
    if a == [] {
      assert a + [t] == [t] && [t][1..] == [];
    } else {
      assert (a + [t])[1..] == a[1..] + [t] && (a + [t])[0] == a[0];
      GatheredMore(a[1..], t, name, part);
    }
  }

  lemma {:induction false} DescribedMore(a: seq<Type>, t: Type, name: string)
    ensures FirstDescription(a + [t], name)
         == if FirstDescription(a, name) != "" then FirstDescription(a, name)
            else if t.name == name then t.description else ""
    decreases |a|
  {
    if a == [] {
      assert a + [t] == [t] && [t][1..] == [];
    } else {
      assert (a + [t])[1..] == a[1..] + [t] && (a + [t])[0] == a[0];
      DescribedMore(a[1..], t, name);
    }
  }

  lemma KindMore(a: seq<Type>, t: Type, name: string, kind: string)
    ensures FirstKind(a, name, kind) ==> FirstKind(a + [t], name, kind)
    ensures (forall v <- a :: v.name != t.name) ==> FirstKind(a + [t], t.name, t.kind)
  {
    var b := a + [t];
    assert b[|a|] == t && forall j :: 0 <= j < |a| ==> b[j] == a[j];
  }

  lemma JoinedNames(a: seq<Type>, t: Type, name: string)
    ensures Gathered(a + [t], name, FieldsOf) == Gathered(a, name, FieldsOf) + if t.name == name then t.fields else []
    ensures Gathered(a + [t], name, InputFieldsOf)
         == Gathered(a, name, InputFieldsOf) + if t.name == name then t.inputFields else []
    ensures Gathered(a + [t], name, ValuesOf)
         == Gathered(a, name, ValuesOf) + if t.name == name then t.enumValues else []
    ensures Gathered(a + [t], name, MembersOf)
         == Gathered(a, name, MembersOf) + if t.name == name then t.unionMembers else []
  {
    hide Gathered;
    GatheredMore(a, t, name, FieldsOf);
    GatheredMore(a, t, name, InputFieldsOf);
    GatheredMore(a, t, name, ValuesOf);
    GatheredMore(a, t, name, MembersOf);
  }

  lemma {:induction false} NothingGathered<T>(types: seq<Type>, name: string, part: Type -> seq<T>)
    requires forall t <- types :: t.name != name
    ensures Gathered(types, name, part) == [] && FirstDescription(types, name) == ""
    decreases |types|
  {
    if types != [] {
      NothingGathered(types[1..], name, part);
    }
  }

  ghost predicate OtherNames(types: seq<Type>) {
    forall i, j :: 0 <= i < j < |types| ==> types[i].name != types[j].name
  }

  /** Merging a type adds it to the one of its name, or puts it last. */
  lemma {:induction false} MergeSays(types: seq<Type>, t: Type)
    requires OtherNames(types)
    ensures (var r := MergeInto(types, t);
             && OtherNames(r)
             && (forall u :: u in r <==>
                   || (u in types && u.name != t.name)
                   || (exists v <- types :: v.name == t.name && u == Merged(v, t))
                   || (u == t && forall v <- types :: v.name != t.name))
             && (forall u <- r :: u.name == t.name || exists v <- types :: v.name == u.name))
    decreases |types|
  {
    hide Merged;
    MergedName(types, t);
    if types != [] && types[0].name != t.name {
      MergeSays(types[1..], t);
      assert types == [types[0]] + types[1..];
      var rest := MergeInto(types[1..], t);
      forall u <- rest ensures u.name != types[0].name {
        if u.name != t.name {
          var v :| v in types[1..] && v.name == u.name;
        }
      }
    } else if types != [] {
      assert types == [types[0]] + types[1..];
      forall v <- types[1..] ensures v.name != t.name {
      }
    }
  }

  lemma MergedName(types: seq<Type>, t: Type)
    ensures forall v :: Merged(v, t).name == v.name
  {
  }

  lemma MakesMore(types: seq<Type>, v: Type, t: Type)
    requires Makes(types, v) && t.name == v.name
    ensures Makes(types + [t], Merged(v, t))
  {
    hide Gathered, FirstDescription, FirstKind;
    JoinedNames(types, t, t.name);
    DescribedMore(types, t, t.name);
    KindMore(types, t, v.name, v.kind);
  }

  lemma MakesStill(types: seq<Type>, v: Type, t: Type)
    requires Makes(types, v) && t.name != v.name
    ensures Makes(types + [t], v)
  {
    hide Gathered, FirstDescription, FirstKind;
    JoinedNames(types, t, v.name);
    DescribedMore(types, t, v.name);
    KindMore(types, t, v.name, v.kind);
  }

  lemma MakesFirst(types: seq<Type>, t: Type)
    requires forall v <- types :: v.name != t.name
    ensures Makes(types + [t], t)
  {
    hide Gathered, FirstDescription, FirstKind;
    JoinedNames(types, t, t.name);
    DescribedMore(types, t, t.name);
    KindMore(types, t, t.name, t.kind);
    NothingGathered(types, t.name, FieldsOf);
    NothingGathered(types, t.name, InputFieldsOf);
    NothingGathered(types, t.name, ValuesOf);
    NothingGathered(types, t.name, MembersOf);
  }

  /** One type for each name that is not blank, made of all definitions of that name. */
  ghost predicate MadeOf(r: seq<Type>, types: seq<Type>) {
    && OtherNames(r)
    && (forall u <- r :: TrimSpace(u.name) != "" && Makes(types, u))
    && (forall t <- types :: TrimSpace(t.name) != "" ==> exists u <- r :: u.name == t.name)
  }

  lemma BlankAdds(c: seq<Type>, before: seq<Type>, t: Type)
    requires MadeOf(c, before) && TrimSpace(t.name) == ""
    ensures MadeOf(c, before + [t])
  {
    hide TrimSpace, Makes, OtherNames;
    forall u <- c ensures Makes(before + [t], u) {
      MakesStill(before, u, t);
    }
  }

  lemma NamedAdds(c: seq<Type>, before: seq<Type>, t: Type)
    requires MadeOf(c, before) && TrimSpace(t.name) != ""
    ensures MadeOf(MergeInto(c, t), before + [t])
  {
    hide TrimSpace, Makes, OtherNames, Merged, MergeInto;
    var r := MergeInto(c, t);
    MergedName(c, t);
    MergeSays(c, t);
    forall u <- r ensures TrimSpace(u.name) != "" && Makes(before + [t], u) {
      if u in c && u.name != t.name {
        MakesStill(before, u, t);
      } else if v :| v in c && v.name == t.name && u == Merged(v, t) {
        MakesMore(before, v, t);
      } else {
        NotThere(c, before, t);
        MakesFirst(before, t);
      }
    }
    forall s <- before + [t] | TrimSpace(s.name) != "" ensures exists u <- r :: u.name == s.name {
      NameKept(c, before, t, s);
    }
  }

  lemma NotThere(c: seq<Type>, before: seq<Type>, t: Type)
    requires MadeOf(c, before) && TrimSpace(t.name) != "" && forall v <- c :: v.name != t.name
    ensures forall v <- before :: v.name != t.name
  {
    hide TrimSpace, Makes, OtherNames;
  }

  lemma NameKept(c: seq<Type>, before: seq<Type>, t: Type, s: Type)
    requires MadeOf(c, before) && s in before + [t] && TrimSpace(s.name) != ""
    ensures exists u <- MergeInto(c, t) :: u.name == s.name
  {
    hide TrimSpace, Makes, OtherNames, Merged, MergeInto;
    MergedName(c, t);
    assert OtherNames(c);
    MergeSays(c, t);
    if s.name == t.name {
      if v :| v in c && v.name == t.name {
        assert Merged(v, t) in MergeInto(c, t);
      } else {
        assert t in MergeInto(c, t);
      }
    } else {
      var u :| u in c && u.name == s.name;
      assert u in MergeInto(c, t);
    }
  }

  lemma {:induction false} TypesSay(types: seq<Type>)
    ensures MadeOf(CompactTypes(types), types)
    decreases |types|
  {
    hide TrimSpace, MadeOf, MergeInto;
    if types == [] {
      NothingMade();
    } else {
      var before, t := types[..|types| - 1], types[|types| - 1];
      TypesSay(before);
      assert types == before + [t];
      if TrimSpace(t.name) == "" {
        BlankAdds(CompactTypes(before), before, t);
      } else {
        NamedAdds(CompactTypes(before), before, t);
      }
    }
  }

  lemma NothingMade()
    ensures MadeOf([], [])
  {
  }

  // ---------------------------------------------------------------- the model

  /** The schema names a default root that has fields, and else what was declared. */
  predicate NamesRoot(declared: string, default: string, types: seq<Type>, named: string) {
    named == if declared == "" && (exists t <- types :: t.name == default && t.fields != []) then default else declared
  }

  lemma HasFieldsExactly(types: seq<Type>, name: string)
    requires TrimSpace(name) == name && OtherNames(types)
    ensures HasFields(types, name) <==> exists t <- types :: t.name == name && t.fields != []
  {
    hide TrimSpace, TypeByName;
    TypeByNameExactly(types, name);
    if t :| t in types && t.name == name && t.fields != [] {
      var i :| 0 <= i < |types| && types[i] == t;
      assert TypeNamed(types, name, t);
    }
    if HasFields(types, name) {
      assert TypeNamed(types, name, TypeByName(types, name).value);
    }
  }

  ghost predicate NamesRoots(s: RootTypes, types: seq<Type>, named: RootTypes) {
    && NamesRoot(s.queryType, "Query", types, named.queryType)
    && NamesRoot(s.mutationType, "Mutation", types, named.mutationType)
    && NamesRoot(s.subscriptionType, "Subscription", types, named.subscriptionType)
    && named.description == s.description
  }

  lemma RootsNamed(m: Model)
    requires OtherNames(m.types)
    ensures NamesRoots(m.schema, m.types, NamedRoots(m))
  {
    hide TrimSpace, HasFields, OtherNames;
    DefaultsTrimmed();
    HasFieldsExactly(m.types, "Query");
    HasFieldsExactly(m.types, "Mutation");
    HasFieldsExactly(m.types, "Subscription");
  }

  /** A finished model: its types are those the definitions make, in order of name, its
      operations in order of ID, and its schema names the roots. */
  lemma ModelSays(m: Model)
    ensures (var r := Finish(m);
             && Ordering.Sorted(TypeKey, r.types) && Ordering.Sorted(OperationKey, r.operations)
             && MadeOf(r.types, m.types) && NamesRoots(m.schema, r.types, r.schema))
  {
    hide TrimSpace, Makes, CompactTypes, AddRoots, Ordering.SortBy, Ordering.Sorted, HasFields, OtherNames, NamedRoots,
         NamesRoot;
    var compacted := m.(types := CompactTypes(m.types));
    TypesSay(m.types);
    Ordering.SortBySorts(TypeKey, compacted.types);
    Ordering.SortBySorts(OperationKey, AddRoots(compacted.(operations := Compact(m.operations))));
    var r := Finish(m);
    forall t ensures t in r.types <==> t in compacted.types {
      assert t in multiset(r.types) <==> t in multiset(compacted.types);
    }
    SortedNames(compacted.types);
    RootsNamed(compacted);
    SameRoots(m.schema, compacted.types, r.types, r.schema);
  }

  lemma SameRoots(s: RootTypes, a: seq<Type>, b: seq<Type>, named: RootTypes)
    requires NamesRoots(s, a, named) && forall t :: t in b <==> t in a
    ensures NamesRoots(s, b, named)
  {
  }

  predicate OtherName(a: Type, b: Type) {
    a.name != b.name
  }

  lemma SortedNames(types: seq<Type>)
    requires OtherNames(types)
    ensures OtherNames(Ordering.SortBy(TypeKey, types))
  {
    hide Ordering.SortBy;
    var sorted := Ordering.SortBy(TypeKey, types);
    Ordering.SortBySorts(TypeKey, types);
    Ordering.PairwisePermutes(OtherName, types, sorted);
    forall i, j | 0 <= i < j < |sorted| ensures sorted[i].name != sorted[j].name {
      assert OtherName(sorted[i], sorted[j]);
    }
  }

  /** The first field of its name among those with one, whose ID no operation of the document
      has. */
  ghost predicate StandsAlone(ops: seq<Operation>, kind: string, fields: seq<Field>, i: nat)
    requires i < |fields|
  {
    && TrimSpace(fields[i].name) != ""
    && (forall j :: 0 <= j < i && TrimSpace(fields[j].name) != "" ==>
          PlainID(kind, fields[j].name) != PlainID(kind, fields[i].name))
    && forall j: nat :: j < |ops| && HasKind(ops[j]) ==> DocumentID(ops, j) != PlainID(kind, fields[i].name)
  }

  lemma FreshExactly(ops: seq<Operation>, kind: string, fields: seq<Field>, i: nat)
    requires i < |fields|
    ensures Fresh(Compact(ops), kind, fields, i) <==> StandsAlone(ops, kind, fields, i)
  {
    hide TrimSpace, PlainID, CompactTo, HasKind, DocumentID;
    CompactSays(ops, |ops|);
    if Fresh(Compact(ops), kind, fields, i) {
      forall j: nat | j < |ops| && HasKind(ops[j]) ensures DocumentID(ops, j) != PlainID(kind, fields[i].name) {
        assert DocumentOperation(ops, j) in Compact(ops);
      }
    }
    if StandsAlone(ops, kind, fields, i) {
      forall op <- Compact(ops) ensures op.id != PlainID(kind, fields[i].name) {
        var j: nat :| j < |ops| && HasKind(ops[j]) && op == DocumentOperation(ops, j);
      }
    }
  }

  lemma TypeNamedExactly(types: seq<Type>, name: string, t: Type)
    requires OtherNames(types)
    ensures TypeNamed(types, name, t) <==> t in types && t.name == name
  {
    if t in types && t.name == name {
      var i :| 0 <= i < |types| && types[i] == t;
    }
  }

  /** The operation stands for a field of a root type that has no operation of the document. */
  ghost predicate ForRootField(m: Model, types: seq<Type>, kind: string, t: Type, i: nat, op: Operation) {
    && IsRoot(m.schema, kind, t.name) && t in types && i < |t.fields| && StandsAlone(m.operations, kind, t.fields, i)
    && op == FromField(kind, t.name, t.fields[i])
  }

  /** The operations of a finished model are those of the document, named and numbered, and one
      for each field of its root types that no operation of the document stands for, and no
      others. */
  lemma FinishedOperationsSay(m: Model, op: Operation)
    ensures op in Finish(m).operations <==>
              || (exists i: nat :: i < |m.operations| && HasKind(m.operations[i])
                    && op == DocumentOperation(m.operations, i))
              || exists kind, t: Type, i: nat :: ForRootField(m, Finish(m).types, kind, t, i, op)
  {
    hide *;
    var compacted := m.(types := CompactTypes(m.types));
    ModelSays(m);
    TypesSay(m.types);
    FinishIs(m);
    OperationsSay(compacted, op);
    MadeMeans(compacted.types, m.types);
    forall kind, t: Type, i: nat
      ensures ForRootField(m, Finish(m).types, kind, t, i, op) <==>
                IsRoot(m.schema, kind, t.name) && TypeNamed(compacted.types, t.name, t) && i < |t.fields|
                && Fresh(Compact(m.operations), kind, t.fields, i) && op == FromField(kind, t.name, t.fields[i])
    {
      TypeNamedExactly(compacted.types, t.name, t);
      if i < |t.fields| {
        FreshExactly(m.operations, kind, t.fields, i);
      }
      RootFieldMeans(m, Finish(m).types, kind, t, i, op);
    }
    RootsMean(m, compacted.types, op);
  }

  lemma RootFieldMeans(m: Model, types: seq<Type>, kind: string, t: Type, i: nat, op: Operation)
    ensures ForRootField(m, types, kind, t, i, op) <==>
              IsRoot(m.schema, kind, t.name) && t in types && i < |t.fields|
              && StandsAlone(m.operations, kind, t.fields, i) && op == FromField(kind, t.name, t.fields[i])
  {
    hide IsRoot, StandsAlone, FromField;
  }

  lemma MadeMeans(r: seq<Type>, types: seq<Type>)
    requires MadeOf(r, types)
    ensures OtherNames(r)
  {
  }

  lemma FinishIs(m: Model)
    ensures (var compacted := m.(types := CompactTypes(m.types));
             && Finish(m).operations == Operations(compacted) && compacted.operations == m.operations
             && compacted.schema == m.schema
             && forall t :: t in Finish(m).types <==> t in compacted.types)
  {
    hide CompactTypes, Operations, Ordering.SortBy, NamedRoots;
    var compacted := m.(types := CompactTypes(m.types));
    Ordering.SortBySorts(TypeKey, compacted.types);
    forall t ensures t in Finish(m).types <==> t in compacted.types {
      assert t in multiset(Finish(m).types) <==> t in multiset(compacted.types);
    }
  }

  lemma RootsMean(m: Model, types: seq<Type>, op: Operation)
    ensures (exists kind, root ::
               IsRoot(m.schema, kind, root) && FromRoot(Compact(m.operations), types, kind, root, op))
       <==> exists kind, t: Type, i: nat ::
              && IsRoot(m.schema, kind, t.name) && TypeNamed(types, t.name, t) && i < |t.fields|
              && Fresh(Compact(m.operations), kind, t.fields, i) && op == FromField(kind, t.name, t.fields[i])
  {
    hide IsRoot, Compact, Fresh, FromField;
    if kind, root :| IsRoot(m.schema, kind, root) && FromRoot(Compact(m.operations), types, kind, root, op) {
      var t, i: nat :| TypeNamed(types, root, t) && i < |t.fields| && Fresh(Compact(m.operations), kind, t.fields, i)
                       && op == FromField(kind, root, t.fields[i]);
      assert t.name == root;
    }
    if kind, t: Type, i: nat :|
      && IsRoot(m.schema, kind, t.name) && TypeNamed(types, t.name, t) && i < |t.fields|
      && Fresh(Compact(m.operations), kind, t.fields, i) && op == FromField(kind, t.name, t.fields[i]) {
      assert FromRoot(Compact(m.operations), types, kind, t.name, op);
    }
  }

  /** Each named field of a root type has an operation with its ID. */
  lemma FinishedRootFields(m: Model, kind: string, t: Type, i: nat)
    requires t in Finish(m).types && IsRoot(m.schema, kind, t.name) && i < |t.fields|
    requires TrimSpace(t.fields[i].name) != ""
    ensures exists op <- Finish(m).operations :: op.id == PlainID(kind, t.fields[i].name)
  {
    hide *;
    var compacted := m.(types := CompactTypes(m.types));
    FinishIs(m);
    TypesSay(m.types);
    MadeMeans(compacted.types, m.types);
    TypeNamedExactly(compacted.types, t.name, t);
    RootFieldsFound(compacted, kind, t.name, t, i);
  }
}
