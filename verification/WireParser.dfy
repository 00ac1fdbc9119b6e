/** The parse loops of grpcproto/wire.go over the shared cursor and budget.  Every method
    is proved equal to the specification: same metadata, same error, same work charged. */
module WireParser {
  import opened ProtoModel
  import opened WireFormat
  import opened WireModel
  import opened WireReader
  import opened Text

  // ---------------------------------------------------------------- where a parse loop stands

  /** The call a parse loop belongs to: its message, and the work charged before it. */
  datatype Call = Call(kind: Kind, depth: nat, scope: Scope, data: Bytes, start: nat)

  ghost function Whole(call: Call): Step {
    DecodeFields(call.kind, call.depth, call.data, call.start)
  }

  /** What a parse function fills in from the fields it read. */
  ghost function Drafted(kind: Kind, scope: Scope, items: seq<Item>): (d: Draft)
    ensures d.Kind() == kind
  {
    Build(Fresh(kind, scope), scope, items)
  }

  /** `draft` holds the fields `read` so far; `step` is what the rest decodes to. */
  ghost predicate Holds(call: Call, read: seq<Item>, draft: Draft, step: Step) {
    Whole(call) == Prepend(read, step) && draft == Drafted(call.kind, call.scope, read)
  }

  /** At the head of the loop, with `rest` still unread. */
  ghost predicate AtField(call: Call, draft: Draft, rest: Bytes, used: nat) {
    exists read :: Holds(call, read, draft, DecodeFields(call.kind, call.depth, rest, used))
  }

  ghost function Onward(call: Call, fetch: Fetch): Step {
    match fetch
    case Halt(error, used) => Stop(error, used)
    case Got(items, rest, used) => Prepend(items, DecodeFields(call.kind, call.depth, rest, used))
  }

  /** After the tag, in front of the payload `body`. */
  ghost predicate AtPayload(call: Call, draft: Draft, number: nat, wireType: nat, body: Bytes, used: nat) {
    exists read :: Holds(call, read, draft,
      Onward(call, DecodePayload(ShapeOf(call.kind, number, wireType), SubDepth(call.kind, call.depth),
                                 number, wireType, body, used)))
  }

  /** About to parse a nested message; `rest` follows it. */
  ghost predicate AtMessage(call: Call, draft: Draft, number: nat, sub: Kind, payload: Bytes, rest: Bytes, used: nat) {
    && ShapeOf(call.kind, number, 2) == SubS(sub)
    && exists read :: Holds(call, read, draft,
         Onward(call, Nest(number, rest, DecodeMessage(sub, SubDepth(call.kind, call.depth), payload, used))))
  }

  ghost predicate Fails(call: Call, error: WireError, used: nat) {
    Whole(call) == Stop(error, used)
  }

  lemma Begin(call: Call)
    ensures AtField(call, Fresh(call.kind, call.scope), call.data, call.start)
  {
    hide DecodeFields;
    var step := Whole(call);
    assert step.Done? ==> [] + step.items == step.items;
    assert Holds(call, [], Fresh(call.kind, call.scope), step);
  }

  lemma Finish(call: Call, draft: Draft, rest: Bytes, used: nat)
    requires AtField(call, draft, rest, used) && rest == []
    ensures Whole(call).Done? && Whole(call).used == used
    ensures draft == Drafted(call.kind, call.scope, Whole(call).items)
  {
    var read :| Holds(call, read, draft, DecodeFields(call.kind, call.depth, rest, used));
    assert read + [] == read;
  }

  lemma StopsHere(call: Call, read: seq<Item>, draft: Draft, step: Step)
    requires Holds(call, read, draft, step) && step.Stop?
    ensures Fails(call, step.error, step.used)
  {
    hide DecodeFields;
  }

  /** Reading `items` moves the loop on. */
  lemma MoveOn(call: Call, read: seq<Item>, draft: Draft, items: seq<Item>, rest: Bytes, used: nat)
    requires Holds(call, read, draft, Onward(call, Got(items, rest, used)))
    ensures AtField(call, Build(draft, call.scope, items), rest, used)
  {
    hide DecodeFields, Build;
    var step := DecodeFields(call.kind, call.depth, rest, used);
    assert step.Done? ==> read + (items + step.items) == read + items + step.items;
    BuildAppend(Fresh(call.kind, call.scope), call.scope, read, items);
    assert Holds(call, read + items, Build(draft, call.scope, items), step);
  }

  lemma BuildOne(draft: Draft, scope: Scope, item: Item)
    ensures Build(draft, scope, [item]) == Apply(draft, scope, item)
    ensures Build(draft, scope, []) == draft
  {
    hide Apply;
    assert [item][1..] == [];
  }

  lemma TagRead(call: Call, draft: Draft, rest: Bytes, used: nat, number: nat, wireType: nat, body: Bytes)
    requires AtField(call, draft, rest, used) && rest != []
    ensures TagReply(rest, used).Failure? ==> Fails(call, TagReply(rest, used).error, used + 1)
    ensures TagReply(rest, used).Success? && Tagged(rest, number, wireType, body) ==>
              AtPayload(call, draft, number, wireType, body, used + 1)
  {
    hide DecodePayload, ReadVarint, ShapeOf, Build;
    var read :| Holds(call, read, draft, DecodeFields(call.kind, call.depth, rest, used));
    var step := DecodeFields(call.kind, call.depth, rest, used);
    assert step == Onward(call, DecodeField(call.kind, call.depth, rest, used));
  }

  lemma TextRead(call: Call, draft: Draft, number: nat, wireType: nat, body: Bytes, used: nat)
    requires AtPayload(call, draft, number, wireType, body, used) && ShapeOf(call.kind, number, wireType) == TextS
    ensures (var r := WireFormat.ReadText(wireType, body);
             if r.Fail? then Fails(call, r.error, used)
             else AtField(call, ApplyText(draft, number, r.value), r.rest, used))
  {
    hide DecodeFields, WireFormat.ReadText, ShapeOf, Holds, AtField, Build, ApplyText;
    var f := DecodePayload(TextS, SubDepth(call.kind, call.depth), number, wireType, body, used);
    var read :| Holds(call, read, draft, Onward(call, f));
    if f.Halt? {
      StopsHere(call, read, draft, Onward(call, f));
    } else {
      MoveOn(call, read, draft, f.items, f.rest, f.used);
      BuildOne(draft, call.scope, f.items[0]);
    }
  }

  lemma IntRead(call: Call, draft: Draft, number: nat, wireType: nat, body: Bytes, used: nat)
    requires AtPayload(call, draft, number, wireType, body, used) && ShapeOf(call.kind, number, wireType) == IntS
    ensures (var r := WireFormat.ReadInt(wireType, body);
             if r.Fail? then Fails(call, r.error, used)
             else AtField(call, ApplyInt(draft, number, r.value), r.rest, used))
  {
    hide DecodeFields, WireFormat.ReadInt, ShapeOf, Holds, AtField, Build, ApplyInt;
    var f := DecodePayload(IntS, SubDepth(call.kind, call.depth), number, wireType, body, used);
    var read :| Holds(call, read, draft, Onward(call, f));
    if f.Halt? {
      StopsHere(call, read, draft, Onward(call, f));
    } else {
      MoveOn(call, read, draft, f.items, f.rest, f.used);
      BuildOne(draft, call.scope, f.items[0]);
    }
  }

  lemma FieldSkipped(call: Call, draft: Draft, number: nat, wireType: nat, body: Bytes, used: nat)
    requires AtPayload(call, draft, number, wireType, body, used) && ShapeOf(call.kind, number, wireType) == UnknownS
    ensures (var r := WireFormat.Skip(wireType, body);
             if r.Fail? then Fails(call, r.error, used) else AtField(call, draft, r.rest, used))
  {
    hide DecodeFields, WireFormat.Skip, ShapeOf, Holds, AtField, Build;
    var f := DecodePayload(UnknownS, SubDepth(call.kind, call.depth), number, wireType, body, used);
    var read :| Holds(call, read, draft, Onward(call, f));
    if f.Halt? {
      StopsHere(call, read, draft, Onward(call, f));
    } else {
      MoveOn(call, read, draft, [], f.rest, f.used);
      BuildOne(draft, call.scope, Item(0, IntP(0)));
    }
  }

  lemma MessageRead(call: Call, draft: Draft, number: nat, wireType: nat, body: Bytes, used: nat, sub: Kind)
    requires AtPayload(call, draft, number, wireType, body, used) && ShapeOf(call.kind, number, wireType) == SubS(sub)
    ensures (var r := WireFormat.ReadText(wireType, body);
             if r.Fail? then Fails(call, r.error, used)
             else AtMessage(call, draft, number, sub, r.value, r.rest, used))
  {
    hide DecodeFields, DecodeMessage, ReadBytes, ShapeOf, Holds;
    var f := DecodePayload(SubS(sub), SubDepth(call.kind, call.depth), number, wireType, body, used);
    var read :| Holds(call, read, draft, Onward(call, f));
    var r := WireFormat.ReadText(wireType, body);
    if r.Fail? {
      StopsHere(call, read, draft, Onward(call, f));
    } else {
      assert f == Nest(number, r.rest, DecodeMessage(sub, SubDepth(call.kind, call.depth), r.value, used));
    }
  }

  lemma MessageParsed(call: Call, draft: Draft, number: nat, sub: Kind, payload: Bytes, rest: Bytes, used: nat)
    requires AtMessage(call, draft, number, sub, payload, rest, used)
    ensures (var r, inner := DecodeMessage(sub, SubDepth(call.kind, call.depth), payload, used),
             SubScope(draft, call.scope, sub);
             if r.Stop? then Fails(call, r.error, r.used)
             else AtField(call, ApplySub(draft, number, Drafted(sub, inner, r.items), inner), rest, r.used))
  {
    hide DecodeFields, DecodeMessage, ShapeOf, AtField, Build, ApplySub, Whole;
    var r := DecodeMessage(sub, SubDepth(call.kind, call.depth), payload, used);
    var f := Nest(number, rest, r);
    var read :| Holds(call, read, draft, Onward(call, f));
    if r.Stop? {
      StopsHere(call, read, draft, Onward(call, f));
    } else {
      MoveOn(call, read, draft, f.items, rest, r.used);
      BuildOne(draft, call.scope, f.items[0]);
    }
  }

  // ---------------------------------------------------------------- reading one field

  method NextTag(reader: Reader, ghost call: Call, ghost draft: Draft) returns (r: Result<(nat, nat)>)
    requires reader.Valid() && reader.pos < |reader.data|
    requires AtField(call, draft, reader.Rest(), reader.budget.used)
    modifies reader`pos, reader.budget
    ensures reader.Valid()
    ensures if r.Failure? then Fails(call, r.error, reader.budget.used)
            else reader.pos > old(reader.pos) &&
                 AtPayload(call, draft, r.value.0, r.value.1, reader.Rest(), reader.budget.used)
  {
    hide AtField, AtPayload, Fails, Tagged, TagReply;
    ghost var rest, used := reader.Rest(), reader.budget.used;
    r := reader.ReadTag();
    if r.Success? {
      TagRead(call, draft, rest, used, r.value.0, r.value.1, reader.Rest());
    } else {
      TagRead(call, draft, rest, used, 0, 0, []);
    }
  }

  method TextField(reader: Reader, wireType: nat, ghost call: Call, ghost draft: Draft, ghost number: nat)
    returns (r: Result<Bytes>)
    requires reader.Valid() && ShapeOf(call.kind, number, wireType) == TextS
    requires AtPayload(call, draft, number, wireType, reader.Rest(), reader.budget.used)
    modifies reader`pos
    ensures reader.Valid() && reader.pos >= old(reader.pos)
    ensures if r.Failure? then Fails(call, r.error, reader.budget.used)
            else AtField(call, ApplyText(draft, number, r.value), reader.Rest(), reader.budget.used)
  {
    hide AtField, AtPayload, Fails, WireFormat.ReadText, ApplyText, ShapeOf;
    TextRead(call, draft, number, wireType, reader.Rest(), reader.budget.used);
    r := reader.ReadText(wireType);
  }

  method IntField(reader: Reader, wireType: nat, ghost call: Call, ghost draft: Draft, ghost number: nat)
    returns (r: Result<int>)
    requires reader.Valid() && ShapeOf(call.kind, number, wireType) == IntS
    requires AtPayload(call, draft, number, wireType, reader.Rest(), reader.budget.used)
    modifies reader`pos
    ensures reader.Valid() && reader.pos >= old(reader.pos)
    ensures if r.Failure? then Fails(call, r.error, reader.budget.used)
            else AtField(call, ApplyInt(draft, number, r.value), reader.Rest(), reader.budget.used)
  {
    hide AtField, AtPayload, Fails, WireFormat.ReadInt, ApplyInt, ShapeOf;
    IntRead(call, draft, number, wireType, reader.Rest(), reader.budget.used);
    r := reader.ReadInt(wireType);
  }

  method SkipField(reader: Reader, wireType: nat, ghost call: Call, ghost draft: Draft, ghost number: nat)
    returns (r: Result<()>)
    requires reader.Valid() && ShapeOf(call.kind, number, wireType) == UnknownS
    requires AtPayload(call, draft, number, wireType, reader.Rest(), reader.budget.used)
    modifies reader`pos
    ensures reader.Valid() && reader.pos >= old(reader.pos)
    ensures if r.Failure? then Fails(call, r.error, reader.budget.used)
            else AtField(call, draft, reader.Rest(), reader.budget.used)
  {
    hide AtField, AtPayload, Fails, WireFormat.Skip, ShapeOf;
    FieldSkipped(call, draft, number, wireType, reader.Rest(), reader.budget.used);
    r := reader.Skip(wireType);
  }

  method MessageField(reader: Reader, wireType: nat, ghost call: Call, ghost draft: Draft, ghost number: nat,
                      ghost sub: Kind)
    returns (r: Result<Bytes>)
    requires reader.Valid() && ShapeOf(call.kind, number, wireType) == SubS(sub)
    requires AtPayload(call, draft, number, wireType, reader.Rest(), reader.budget.used)
    modifies reader`pos
    ensures reader.Valid() && reader.pos >= old(reader.pos)
    ensures if r.Failure? then Fails(call, r.error, reader.budget.used)
            else |r.value| < |old(reader.Rest())| &&
                 AtMessage(call, draft, number, sub, r.value, reader.Rest(), reader.budget.used)
  {
    hide AtMessage, AtPayload, Fails, WireFormat.ReadText, ShapeOf;
    MessageRead(call, draft, number, wireType, reader.Rest(), reader.budget.used, sub);
    r := reader.ReadText(wireType);
  }

  // ---------------------------------------------------------------- the parse methods

  // The switch of each parse function, and what its scalar arms fill in.

  lemma ValueShapes(number: nat, wireType: nat)
    ensures ShapeOf(ValueK, number, wireType) == if number == 1 then TextS else if number == 2 then IntS else UnknownS
  {
  }

  lemma EnumShapes(number: nat, wireType: nat)
    ensures ShapeOf(EnumK, number, wireType)
         == if number == 1 then TextS else if number == 2 then SubS(ValueK) else UnknownS
  {
  }

  lemma FieldShapes(number: nat, wireType: nat)
    ensures ShapeOf(FieldK, number, wireType)
         == if number == 1 || number == 6 || number == 10 then TextS
            else if 3 <= number <= 5 then IntS else UnknownS
  {
  }

  lemma MessageShapes(number: nat, wireType: nat)
    ensures ShapeOf(MessageK, number, wireType)
         == if number == 1 then TextS else if number == 2 then SubS(FieldK) else if number == 3 then SubS(MessageK)
            else if number == 4 then SubS(EnumK) else UnknownS
  {
  }

  lemma MethodShapes(number: nat, wireType: nat)
    ensures ShapeOf(MethodK, number, wireType)
         == if 1 <= number <= 3 then TextS else if 5 <= number <= 6 then IntS else UnknownS
  {
  }

  lemma ServiceShapes(number: nat, wireType: nat)
    ensures ShapeOf(ServiceK, number, wireType)
         == if number == 1 then TextS else if number == 2 then SubS(MethodK) else UnknownS
  {
  }

  lemma FileShapes(number: nat, wireType: nat)
    ensures ShapeOf(FileK, number, wireType)
         == if 1 <= number <= 3 || number == 12 then TextS else if number == 4 then SubS(MessageK)
            else if number == 5 then SubS(EnumK) else if number == 6 then SubS(ServiceK) else UnknownS
  {
  }

  lemma SetShapes(number: nat, wireType: nat)
    ensures ShapeOf(SetK, number, wireType) == if number == 1 && wireType == 2 then SubS(FileK) else UnknownS
  {
  }

  lemma ValueSteps(value: EnumValue, text: string, n: int)
    ensures ApplyText(ValueD(value), 1, text) == ValueD(value.(name := text))
    ensures ApplyInt(ValueD(value), 2, n) == ValueD(value.(number := n))
  {
  }

  lemma EnumSteps(e: Enum, text: string)
    ensures ApplyText(EnumD(e), 1, text) == EnumD(e.(name := text))
  {
  }

  lemma FieldSteps(f: Field, number: nat, text: string, n: int)
    ensures ApplyText(FieldD(f), number, text) == FieldD(FieldText(f, number, text))
    ensures ApplyInt(FieldD(f), number, n) == FieldD(FieldInt(f, number, n))
  {
  }

  lemma MessageSteps(m: Message, text: string)
    ensures ApplyText(MessageD(m), 1, text) == MessageD(m.(name := text))
  {
  }

  lemma MethodSteps(m: Method, number: nat, text: string, n: int)
    ensures ApplyText(MethodD(m), number, text) == MethodD(MethodText(m, number, text))
    ensures ApplyInt(MethodD(m), number, n) == MethodD(MethodInt(m, number, n))
  {
  }

  lemma ServiceSteps(s: Service, text: string)
    ensures ApplyText(ServiceD(s), 1, text) == ServiceD(s.(name := text))
  {
  }

  lemma FileSteps(f: File, number: nat, text: string)
    ensures ApplyText(FileD(f), number, text) == FileD(FileText(f, number, text))
  {
  }

  /** parseEnumValueDescriptorProto; the empty sequence is the source's nil. */
  method ParseEnumValue(data: Bytes, budget: Budget) returns (r: Result<seq<EnumValue>>)
    modifies budget
    ensures (var step := DecodeFields(ValueK, 0, data, old(budget.used));
             budget.used == step.used &&
             r == if step.Stop? then Failure(step.error)
                  else Success(NamedValue(Drafted(ValueK, NoScope, step.items).value)))
  {
    hide Reader.Rest, DecodeFields, Build, AtField, AtPayload, ShapeOf, ApplyText, ApplyInt, Drafted;
    ghost var call := Call(ValueK, 0, NoScope, data, budget.used);
    var reader := new Reader(data, budget);
    var value := EnumValue("", 0);
    Begin(call);
    while reader.pos < |data|
      invariant reader.Valid() && AtField(call, ValueD(value), reader.Rest(), budget.used)
      decreases |data| - reader.pos
    {
      var tag := NextTag(reader, call, ValueD(value));
      if tag.Failure? {
        return Failure(tag.error);
      }
      var (number, wireType) := tag.value;
      ValueShapes(number, wireType);
      match number {
        case 1 =>
          var text := TextField(reader, wireType, call, ValueD(value), number);
          if text.Failure? {
            return Failure(text.error);
          }
          ValueSteps(value, text.value, 0);
          value := value.(name := text.value);
        case 2 =>
          var n := IntField(reader, wireType, call, ValueD(value), number);
          if n.Failure? {
            return Failure(n.error);
          }
          ValueSteps(value, "", n.value);
          value := value.(number := n.value);
        case _ =>
          var skipped := SkipField(reader, wireType, call, ValueD(value), number);
          if skipped.Failure? {
            return Failure(skipped.error);
          }
      }
    }
    Finish(call, ValueD(value), reader.Rest(), budget.used);
    return Success(if value.name == "" then [] else [value]);
  }

  /** parseEnumDescriptorProto */
  method ParseEnum(data: Bytes, pkg: string, parent: string, ghost depth: nat, budget: Budget)
    returns (r: Result<seq<Enum>>)
    modifies budget
    ensures (var step := DecodeFields(EnumK, depth, data, old(budget.used));
             budget.used == step.used &&
             r == if step.Stop? then Failure(step.error)
                  else Success(NamedEnum(Drafted(EnumK, Scope(pkg, parent), step.items).enumeration,
                                         Scope(pkg, parent))))
    decreases |data|
  {
    hide Reader.Rest, DecodeFields, DecodeMessage, Build, AtField, AtPayload, AtMessage, ShapeOf, ApplyText, ApplyInt,
         ApplySub, Drafted, NamedEnum;
    ghost var call := Call(EnumK, depth, Scope(pkg, parent), data, budget.used);
    var reader := new Reader(data, budget);
    var enum' := Enum("", "", []);
    Begin(call);
    while reader.pos < |data|
      invariant reader.Valid() && AtField(call, EnumD(enum'), reader.Rest(), budget.used)
      decreases |data| - reader.pos
    {
      var tag := NextTag(reader, call, EnumD(enum'));
      if tag.Failure? {
        return Failure(tag.error);
      }
      var (number, wireType) := tag.value;
      var next: Result<Enum>;
      EnumShapes(number, wireType);
      match number {
        case 1 =>
          var text := TextField(reader, wireType, call, EnumD(enum'), number);
          if text.Success? { EnumSteps(enum', text.value); }
          next := if text.Success? then Success(enum'.(name := text.value)) else Failure(text.error);
        case 2 =>
          var payload := MessageField(reader, wireType, call, EnumD(enum'), number, ValueK);
          if payload.Failure? {
            return Failure(payload.error);
          }
          ghost var step := DecodeMessage(ValueK, 0, payload.value, budget.used);
          MessageParsed(call, EnumD(enum'), 2, ValueK, payload.value, reader.Rest(), budget.used);
          PlainMessage(ValueK, 0, payload.value, budget.used);
          var sub := ParseEnumValue(payload.value, budget);
          if sub.Success? { ValueJoins(enum', Drafted(ValueK, NoScope, step.items).value, NoScope); }
          next := if sub.Success? then Success(enum'.(values := enum'.values + sub.value)) else Failure(sub.error);
        case _ =>
          var skipped := SkipField(reader, wireType, call, EnumD(enum'), number);
          next := if skipped.Success? then Success(enum') else Failure(skipped.error);
      }
      if next.Failure? {
        return Failure(next.error);
      }
      enum' := next.value;
    }
    Finish(call, EnumD(enum'), reader.Rest(), budget.used);
    return Success(NamedEnum(enum', Scope(pkg, parent)));
  }

  /** parseFieldDescriptorProto */
  method ParseField(data: Bytes, ghost depth: nat, budget: Budget) returns (r: Result<seq<Field>>)
    modifies budget
    ensures (var step := DecodeFields(FieldK, depth, data, old(budget.used));
             budget.used == step.used &&
             r == if step.Stop? then Failure(step.error)
                  else Success(NamedField(Drafted(FieldK, NoScope, step.items).field)))
    decreases |data|
  {
    hide Reader.Rest, DecodeFields, DecodeMessage, Build, AtField, AtPayload, AtMessage, ShapeOf, ApplyText, ApplyInt,
         ApplySub, Drafted, LabelName, TypeName, NormalizeTypeName;
    ghost var call := Call(FieldK, depth, NoScope, data, budget.used);
    var reader := new Reader(data, budget);
    var field := Field("", 0, "", "", "", "", false, false);
    Begin(call);
    while reader.pos < |data|
      invariant reader.Valid() && AtField(call, FieldD(field), reader.Rest(), budget.used)
      decreases |data| - reader.pos
    {
      var tag := NextTag(reader, call, FieldD(field));
      if tag.Failure? {
        return Failure(tag.error);
      }
      var (number, wireType) := tag.value;
      var next: Result<Field>;
      FieldShapes(number, wireType);
      match number {
        case 1 =>
          var text := TextField(reader, wireType, call, FieldD(field), number);
          if text.Success? { FieldSteps(field, 1, text.value, 0); }
          next := if text.Success? then Success(field.(name := text.value)) else Failure(text.error);
        case 3 =>
          var n := IntField(reader, wireType, call, FieldD(field), number);
          if n.Success? { FieldSteps(field, 3, "", n.value); }
          next := if n.Success? then Success(field.(number := n.value)) else Failure(n.error);
        case 4 =>
          var n := IntField(reader, wireType, call, FieldD(field), number);
          if n.Success? { FieldSteps(field, 4, "", n.value); }
          next := if n.Success?
                  then Success(field.(cardinality := LabelName(n.value), repeated := LabelName(n.value) == "repeated",
                                      required := LabelName(n.value) == "required"))
                  else Failure(n.error);
        case 5 =>
          var n := IntField(reader, wireType, call, FieldD(field), number);
          if n.Success? { FieldSteps(field, 5, "", n.value); }
          next := if n.Success? then Success(field.(typ := TypeName(n.value))) else Failure(n.error);
        case 6 =>
          var text := TextField(reader, wireType, call, FieldD(field), number);
          if text.Success? { FieldSteps(field, 6, text.value, 0); }
          next := if text.Success? then Success(field.(typeName := NormalizeTypeName(text.value)))
            else Failure(text.error);
        case 10 =>
          var text := TextField(reader, wireType, call, FieldD(field), number);
          if text.Success? { FieldSteps(field, 10, text.value, 0); }
          next := if text.Success? then Success(field.(jsonName := text.value)) else Failure(text.error);
        case _ =>
          var skipped := SkipField(reader, wireType, call, FieldD(field), number);
          next := if skipped.Success? then Success(field) else Failure(skipped.error);
      }
      if next.Failure? {
        return Failure(next.error);
      }
      field := next.value;
    }
    Finish(call, FieldD(field), reader.Rest(), budget.used);
    return Success(if field.name == "" then [] else [field]);
  }

  /** Field 2 of a message: a field. */
  method MessageFieldArm(reader: Reader, wireType: nat, message: Message, pkg: string, parent: string, depth: nat,
                         ghost call: Call)
    returns (r: Result<Message>)
    requires reader.Valid() && call.kind == MessageK && call.depth == depth && call.scope == Scope(pkg, parent)
    requires AtPayload(call, MessageD(message), 2, wireType, reader.Rest(), reader.budget.used)
    modifies reader`pos, reader.budget
    ensures reader.Valid() && reader.pos >= old(reader.pos)
    ensures if r.Failure? then Fails(call, r.error, reader.budget.used)
            else AtField(call, MessageD(r.value), reader.Rest(), reader.budget.used)
    decreases |reader.Rest()|
  {
    hide Reader.Rest, DecodeFields, DecodeMessage, AtField, AtPayload, AtMessage, ShapeOf, ApplySub, JoinName,
         Drafted, NamedField, Fails;
    MessageShapes(2, wireType);
    var payload := MessageField(reader, wireType, call, MessageD(message), 2, FieldK);
    if payload.Failure? {
      return Failure(payload.error);
    }
    ghost var inner := NoScope;
    ghost var step := DecodeMessage(FieldK, depth + 1, payload.value, reader.budget.used);
    MessageParsed(call, MessageD(message), 2, FieldK, payload.value, reader.Rest(), reader.budget.used);
    PlainMessage(FieldK, depth + 1, payload.value, reader.budget.used);
    var sub := ParseField(payload.value, depth + 1, reader.budget);
    if sub.Failure? {
      return Failure(sub.error);
    }
    FieldJoins(message, Drafted(FieldK, inner, step.items), inner);
    return Success(message.(fields := message.fields + sub.value));
  }

  /** Field 3 of a message: a nested message, one level deeper. */
  method NestedMessageArm(reader: Reader, wireType: nat, message: Message, pkg: string, parent: string, depth: nat,
                          ghost call: Call)
    returns (r: Result<Message>)
    requires reader.Valid() && call.kind == MessageK && call.depth == depth && call.scope == Scope(pkg, parent)
    requires AtPayload(call, MessageD(message), 3, wireType, reader.Rest(), reader.budget.used)
    modifies reader`pos, reader.budget
    ensures reader.Valid() && reader.pos >= old(reader.pos)
    ensures if r.Failure? then Fails(call, r.error, reader.budget.used)
            else AtField(call, MessageD(r.value), reader.Rest(), reader.budget.used)
    decreases |reader.Rest()|
  {
    hide Reader.Rest, DecodeFields, DecodeMessage, AtField, AtPayload, AtMessage, ShapeOf, ApplySub, JoinName,
         Drafted, NamedMessage, Fails;
    MessageShapes(3, wireType);
    var payload := MessageField(reader, wireType, call, MessageD(message), 3, MessageK);
    if payload.Failure? {
      return Failure(payload.error);
    }
    var path := JoinName(parent, message.name);
    ghost var inner := Scope(pkg, path);
    ghost var step := DecodeMessage(MessageK, depth + 1, payload.value, reader.budget.used);
    MessageParsed(call, MessageD(message), 3, MessageK, payload.value, reader.Rest(), reader.budget.used);
    var sub := ParseMessage(payload.value, pkg, path, depth + 1, reader.budget);
    if sub.Failure? {
      return Failure(sub.error);
    }
    MessageJoins(message, Drafted(MessageK, inner, step.items), inner);
    return Success(message.(messages := message.messages + sub.value));
  }

  /** Field 4 of a message: an enum. */
  method NestedEnumArm(reader: Reader, wireType: nat, message: Message, pkg: string, parent: string, depth: nat,
                       ghost call: Call)
    returns (r: Result<Message>)
    requires reader.Valid() && call.kind == MessageK && call.depth == depth && call.scope == Scope(pkg, parent)
    requires AtPayload(call, MessageD(message), 4, wireType, reader.Rest(), reader.budget.used)
    modifies reader`pos, reader.budget
    ensures reader.Valid() && reader.pos >= old(reader.pos)
    ensures if r.Failure? then Fails(call, r.error, reader.budget.used)
            else AtField(call, MessageD(r.value), reader.Rest(), reader.budget.used)
    decreases |reader.Rest()|
  {
    hide Reader.Rest, DecodeFields, DecodeMessage, AtField, AtPayload, AtMessage, ShapeOf, ApplySub, JoinName,
         Drafted, NamedEnum, Fails;
    MessageShapes(4, wireType);
    var payload := MessageField(reader, wireType, call, MessageD(message), 4, EnumK);
    if payload.Failure? {
      return Failure(payload.error);
    }
    var path := JoinName(parent, message.name);
    ghost var inner := Scope(pkg, path);
    ghost var step := DecodeMessage(EnumK, depth + 1, payload.value, reader.budget.used);
    MessageParsed(call, MessageD(message), 4, EnumK, payload.value, reader.Rest(), reader.budget.used);
    PlainMessage(EnumK, depth + 1, payload.value, reader.budget.used);
    var sub := ParseEnum(payload.value, pkg, path, depth + 1, reader.budget);
    if sub.Failure? {
      return Failure(sub.error);
    }
    EnumJoinsMessage(message, Drafted(EnumK, inner, step.items), inner);
    return Success(message.(enums := message.enums + sub.value));
  }

  /** parseDescriptorProtoDepth */
  method ParseMessage(data: Bytes, pkg: string, parent: string, depth: nat, budget: Budget)
    returns (r: Result<seq<Message>>)
    modifies budget
    ensures (var step := DecodeMessage(MessageK, depth, data, old(budget.used));
             budget.used == step.used &&
             r == if step.Stop? then Failure(step.error)
                  else Success(NamedMessage(Drafted(MessageK, Scope(pkg, parent), step.items).message,
                                            Scope(pkg, parent))))
    decreases |data|
  {
    hide Reader.Rest, DecodeFields, DecodeMessage, Build, AtField, AtPayload, ShapeOf, ApplyText, Drafted,
         NamedMessage;
    MessageDepth(depth, data, budget.used);
    if depth > MAX_DEPTH {
      return Failure(NestingTooDeep);
    }
    ghost var call := Call(MessageK, depth, Scope(pkg, parent), data, budget.used);
    var reader := new Reader(data, budget);
    var message := Message("", "", [], [], []);
    Begin(call);
    while reader.pos < |data|
      invariant reader.Valid() && AtField(call, MessageD(message), reader.Rest(), budget.used)
      decreases |data| - reader.pos
    {
      var tag := NextTag(reader, call, MessageD(message));
      if tag.Failure? {
        return Failure(tag.error);
      }
      var (number, wireType) := tag.value;
      var next: Result<Message>;
      MessageShapes(number, wireType);
      match number {
        case 1 =>
          var text := TextField(reader, wireType, call, MessageD(message), number);
          if text.Success? { MessageSteps(message, text.value); }
          next := if text.Success? then Success(message.(name := text.value)) else Failure(text.error);
        case 2 =>
          next := MessageFieldArm(reader, wireType, message, pkg, parent, depth, call);
        case 3 =>
          next := NestedMessageArm(reader, wireType, message, pkg, parent, depth, call);
        case 4 =>
          next := NestedEnumArm(reader, wireType, message, pkg, parent, depth, call);
        case _ =>
          var skipped := SkipField(reader, wireType, call, MessageD(message), number);
          next := if skipped.Success? then Success(message) else Failure(skipped.error);
      }
      if next.Failure? {
        return Failure(next.error);
      }
      message := next.value;
    }
    Finish(call, MessageD(message), reader.Rest(), budget.used);
    return Success(NamedMessage(message, Scope(pkg, parent)));
  }

  /** parseMethodDescriptorProto */
  method ParseMethod(data: Bytes, pkg: string, budget: Budget) returns (r: Result<seq<Method>>)
    modifies budget
    ensures (var step := DecodeFields(MethodK, 0, data, old(budget.used));
             budget.used == step.used &&
             r == if step.Stop? then Failure(step.error)
                  else Success(NamedMethod(Drafted(MethodK, Scope(pkg, ""), step.items).rpc)))
    decreases |data|
  {
    hide Reader.Rest, DecodeFields, DecodeMessage, Build, AtField, AtPayload, AtMessage, ShapeOf, ApplyText, ApplyInt,
         ApplySub, Drafted, NormalizeTypeName;
    ghost var call := Call(MethodK, 0, Scope(pkg, ""), data, budget.used);
    var reader := new Reader(data, budget);
    var rpc := Method("", "", "", pkg, "", "", false, false, "", "");
    Begin(call);
    while reader.pos < |data|
      invariant reader.Valid() && AtField(call, MethodD(rpc), reader.Rest(), budget.used)
      decreases |data| - reader.pos
    {
      var tag := NextTag(reader, call, MethodD(rpc));
      if tag.Failure? {
        return Failure(tag.error);
      }
      var (number, wireType) := tag.value;
      var next: Result<Method>;
      MethodShapes(number, wireType);
      match number {
        case 1 =>
          var text := TextField(reader, wireType, call, MethodD(rpc), number);
          if text.Success? { MethodSteps(rpc, 1, text.value, 0); }
          next := if text.Success? then Success(rpc.(name := text.value)) else Failure(text.error);
        case 2 =>
          var text := TextField(reader, wireType, call, MethodD(rpc), number);
          if text.Success? { MethodSteps(rpc, 2, text.value, 0); }
          next := if text.Success? then Success(rpc.(requestType := NormalizeTypeName(text.value)))
            else Failure(text.error);
        case 3 =>
          var text := TextField(reader, wireType, call, MethodD(rpc), number);
          if text.Success? { MethodSteps(rpc, 3, text.value, 0); }
          next := if text.Success? then Success(rpc.(responseType := NormalizeTypeName(text.value)))
            else Failure(text.error);
        case 5 =>
          var n := IntField(reader, wireType, call, MethodD(rpc), number);
          if n.Success? { MethodSteps(rpc, 5, "", n.value); }
          next := if n.Success? then Success(rpc.(clientStreaming := n.value != 0)) else Failure(n.error);
        case 6 =>
          var n := IntField(reader, wireType, call, MethodD(rpc), number);
          if n.Success? { MethodSteps(rpc, 6, "", n.value); }
          next := if n.Success? then Success(rpc.(serverStreaming := n.value != 0)) else Failure(n.error);
        case _ =>
          var skipped := SkipField(reader, wireType, call, MethodD(rpc), number);
          next := if skipped.Success? then Success(rpc) else Failure(skipped.error);
      }
      if next.Failure? {
        return Failure(next.error);
      }
      rpc := next.value;
    }
    Finish(call, MethodD(rpc), reader.Rest(), budget.used);
    return Success(if rpc.name == "" then [] else [rpc]);
  }

  /** parseServiceDescriptorProto */
  method ParseService(data: Bytes, pkg: string, budget: Budget) returns (r: Result<seq<Service>>)
    modifies budget
    ensures (var step := DecodeFields(ServiceK, 0, data, old(budget.used));
             budget.used == step.used &&
             r == if step.Stop? then Failure(step.error)
                  else Success(NamedService(Drafted(ServiceK, Scope(pkg, ""), step.items).service, Scope(pkg, ""))))
    decreases |data|
  {
    hide Reader.Rest, DecodeFields, DecodeMessage, Build, AtField, AtPayload, AtMessage, ShapeOf, ApplyText, ApplyInt,
         ApplySub, Drafted, NamedService, NamedMethod;
    ghost var call := Call(ServiceK, 0, Scope(pkg, ""), data, budget.used);
    var reader := new Reader(data, budget);
    var service := Service("", "", pkg, []);
    Begin(call);
    while reader.pos < |data|
      invariant reader.Valid() && AtField(call, ServiceD(service), reader.Rest(), budget.used)
      decreases |data| - reader.pos
    {
      var tag := NextTag(reader, call, ServiceD(service));
      if tag.Failure? {
        return Failure(tag.error);
      }
      var (number, wireType) := tag.value;
      var next: Result<Service>;
      ServiceShapes(number, wireType);
      match number {
        case 1 =>
          var text := TextField(reader, wireType, call, ServiceD(service), number);
          if text.Success? { ServiceSteps(service, text.value); }
          next := if text.Success? then Success(service.(name := text.value)) else Failure(text.error);
        case 2 =>
          var payload := MessageField(reader, wireType, call, ServiceD(service), number, MethodK);
          if payload.Failure? {
            return Failure(payload.error);
          }
          ghost var step := DecodeMessage(MethodK, 0, payload.value, budget.used);
          MessageParsed(call, ServiceD(service), 2, MethodK, payload.value, reader.Rest(), budget.used);
          PlainMessage(MethodK, 0, payload.value, budget.used);
          var sub := ParseMethod(payload.value, pkg, budget);
          if sub.Success? { MethodJoins(service, Drafted(MethodK, Scope(pkg, ""), step.items), Scope(pkg, "")); }
          next := if sub.Success? then Success(service.(methods := service.methods + sub.value))
            else Failure(sub.error);
        case _ =>
          var skipped := SkipField(reader, wireType, call, ServiceD(service), number);
          next := if skipped.Success? then Success(service) else Failure(skipped.error);
      }
      if next.Failure? {
        return Failure(next.error);
      }
      service := next.value;
    }
    Finish(call, ServiceD(service), reader.Rest(), budget.used);
    return Success(NamedService(service, Scope(pkg, "")));
  }

  /** parseFileDescriptorProto */
  method ParseFile(data: Bytes, budget: Budget) returns (r: Result<File>)
    modifies budget
    ensures (var step := DecodeFields(FileK, 0, data, old(budget.used));
             budget.used == step.used &&
             r == if step.Stop? then Failure(step.error)
                  else Success(Drafted(FileK, NoScope, step.items).file))
    decreases |data|
  {
    hide Reader.Rest, DecodeFields, DecodeMessage, Build, AtField, AtPayload, AtMessage, ShapeOf, ApplyText, ApplyInt,
         ApplySub, Drafted, NamedMessage, NamedEnum, NamedService;
    ghost var call := Call(FileK, 0, NoScope, data, budget.used);
    var reader := new Reader(data, budget);
    var file := File("", "", "", [], [], [], []);
    Begin(call);
    while reader.pos < |data|
      invariant reader.Valid() && AtField(call, FileD(file), reader.Rest(), budget.used)
      decreases |data| - reader.pos
    {
      var tag := NextTag(reader, call, FileD(file));
      if tag.Failure? {
        return Failure(tag.error);
      }
      var (number, wireType) := tag.value;
      var next: Result<File>;
      FileShapes(number, wireType);
      match number {
        case 1 =>
          var text := TextField(reader, wireType, call, FileD(file), number);
          if text.Success? { FileSteps(file, 1, text.value); }
          next := if text.Success? then Success(file.(name := text.value)) else Failure(text.error);
        case 2 =>
          var text := TextField(reader, wireType, call, FileD(file), number);
          if text.Success? { FileSteps(file, 2, text.value); }
          next := if text.Success? then Success(file.(pkg := text.value)) else Failure(text.error);
        case 3 =>
          var text := TextField(reader, wireType, call, FileD(file), number);
          if text.Success? { FileSteps(file, 3, text.value); }
          next := if text.Success?
                  then Success(if text.value == "" then file else file.(imports := file.imports + [text.value]))
                  else Failure(text.error);
        case 4 =>
          var payload := MessageField(reader, wireType, call, FileD(file), number, MessageK);
          if payload.Failure? {
            return Failure(payload.error);
          }
          ghost var step := DecodeMessage(MessageK, 0, payload.value, budget.used);
          MessageParsed(call, FileD(file), 4, MessageK, payload.value, reader.Rest(), budget.used);
          var sub := ParseMessage(payload.value, file.pkg, "", 0, budget);
          if sub.Success? { MessageJoinsFile(file, Drafted(MessageK, Scope(file.pkg, ""), step.items),
                                             Scope(file.pkg, "")); }
          next := if sub.Success? then Success(file.(messages := file.messages + sub.value)) else Failure(sub.error);
        case 5 =>
          var payload := MessageField(reader, wireType, call, FileD(file), number, EnumK);
          if payload.Failure? {
            return Failure(payload.error);
          }
          ghost var step := DecodeMessage(EnumK, 0, payload.value, budget.used);
          MessageParsed(call, FileD(file), 5, EnumK, payload.value, reader.Rest(), budget.used);
          PlainMessage(EnumK, 0, payload.value, budget.used);
          var sub := ParseEnum(payload.value, file.pkg, "", 0, budget);
          if sub.Success? { EnumJoinsFile(file, Drafted(EnumK, Scope(file.pkg, ""), step.items), Scope(file.pkg, "")); }
          next := if sub.Success? then Success(file.(enums := file.enums + sub.value)) else Failure(sub.error);
        case 6 =>
          var payload := MessageField(reader, wireType, call, FileD(file), number, ServiceK);
          if payload.Failure? {
            return Failure(payload.error);
          }
          ghost var step := DecodeMessage(ServiceK, 0, payload.value, budget.used);
          MessageParsed(call, FileD(file), 6, ServiceK, payload.value, reader.Rest(), budget.used);
          PlainMessage(ServiceK, 0, payload.value, budget.used);
          var sub := ParseService(payload.value, file.pkg, budget);
          if sub.Success? { ServiceJoins(file, Drafted(ServiceK, Scope(file.pkg, ""), step.items),
                                         Scope(file.pkg, "")); }
          next := if sub.Success? then Success(file.(services := file.services + sub.value)) else Failure(sub.error);
        case 12 =>
          var text := TextField(reader, wireType, call, FileD(file), number);
          if text.Success? { FileSteps(file, 12, text.value); }
          next := if text.Success? then Success(file.(syntax := text.value)) else Failure(text.error);
        case _ =>
          var skipped := SkipField(reader, wireType, call, FileD(file), number);
          next := if skipped.Success? then Success(file) else Failure(skipped.error);
      }
      if next.Failure? {
        return Failure(next.error);
      }
      file := next.value;
    }
    Finish(call, FileD(file), reader.Rest(), budget.used);
    return Success(file);
  }

  /** parseBinaryDescriptorSet: any other field, and field 1 of another wire type, is skipped. */
  method ParseSet(data: Bytes) returns (r: Parsed)
    ensures r == ParseDescriptorSet(data)
  {
    hide Reader.Rest, DecodeFields, DecodeMessage, Build, AtField, AtPayload, AtMessage, ShapeOf, Conclude, ApplySub,
         ParseDescriptorSet, Drafted;
    var budget := new Budget();
    ghost var call := Call(SetK, 0, NoScope, data, 0);
    var reader := new Reader(data, budget);
    var files: seq<File> := [];
    Begin(call);
    SetCall(data);
    while reader.pos < |data|
      invariant reader.Valid() && AtField(call, SetD(files), reader.Rest(), budget.used)
      decreases |data| - reader.pos
    {
      var tag := NextTag(reader, call, SetD(files));
      if tag.Failure? {
        return Rejected(Wire(tag.error));
      }
      var (number, wireType) := tag.value;
      SetShapes(number, wireType);
      if number == 1 && wireType == 2 {
        var payload := MessageField(reader, wireType, call, SetD(files), number, FileK);
        if payload.Failure? {
          return Rejected(Wire(payload.error));
        }
        MessageParsed(call, SetD(files), 1, FileK, payload.value, reader.Rest(), budget.used);
        PlainMessage(FileK, 0, payload.value, budget.used);
        var sub := ParseFile(payload.value, budget);
        if sub.Failure? {
          return Rejected(Wire(sub.error));
        }
        FileJoins(files, sub.value, NoScope);
        files := files + [sub.value];
      } else {
        var skipped := SkipField(reader, wireType, call, SetD(files), number);
        if skipped.Failure? {
          return Rejected(Wire(skipped.error));
        }
      }
    }
    Finish(call, SetD(files), reader.Rest(), budget.used);
    return Conclude(files);
  }

  lemma SetCall(data: Bytes)
    ensures ParseDescriptorSet(data)
         == (var step := Whole(Call(SetK, 0, NoScope, data, 0));
             if step.Stop? then Rejected(Wire(step.error))
             else Conclude(Drafted(SetK, NoScope, step.items).files))
  {
    hide DecodeFields, Build, Conclude;
  }

  /** The nesting check of parseDescriptorProtoDepth. */
  lemma MessageDepth(depth: nat, data: Bytes, used: nat)
    ensures DecodeMessage(MessageK, depth, data, used)
         == if depth > MAX_DEPTH then Stop(NestingTooDeep, used) else DecodeFields(MessageK, depth, data, used)
  {
    hide DecodeFields;
  }

  lemma PlainMessage(kind: Kind, depth: nat, data: Bytes, used: nat)
    requires kind != MessageK
    ensures DecodeMessage(kind, depth, data, used) == DecodeFields(kind, depth, data, used)
  {
    hide DecodeFields;
  }
}
