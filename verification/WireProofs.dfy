/** What the wire decoder guarantees: it inverts the encoder, ignores unknown fields,
    respects field boundaries and charges no more work than it has input. */
module WireProofs {
  import opened WireFormat

  // ---------------------------------------------------------------- round trip

  lemma LastGroup(value: nat, rest: Bytes, scale: nat, acc: nat)
    requires 1 <= scale < TWO_64 && value < 128 && value * scale < TWO_64
    ensures ReadVarint(EncodeVarint(value) + rest, scale, acc) == Ok(acc + value * scale, rest)
  {
    assert (EncodeVarint(value) + rest)[1..] == rest;
    assert Group(value, scale) == value * scale;
  }

  lemma FirstGroup(value: nat, rest: Bytes, scale: nat, acc: nat)
    requires 1 <= scale < TWO_64 && value >= 128 && (value % 128) * scale < TWO_64
    ensures ReadVarint(EncodeVarint(value) + rest, scale, acc)
         == ReadVarint(EncodeVarint(value / 128) + rest, 128 * scale, acc + (value % 128) * scale)
  {
    var data := EncodeVarint(value) + rest;
    assert data[1..] == EncodeVarint(value / 128) + rest;
    var b := data[0] as int;
    assert b == value % 128 + 128 && b % 128 == value % 128;
    assert Group(b, scale) == (value % 128) * scale;
  }

  lemma SplitGroup(value: nat, scale: nat)
    requires 1 <= scale && value >= 128
    ensures value * scale == (value % 128) * scale + (value / 128) * (128 * scale)
    ensures (value % 128) * scale <= value * scale && 128 * scale <= value * scale
  {
    assert value == value % 128 + 128 * (value / 128);
    assert value * scale == (value % 128) * scale + (128 * (value / 128)) * scale;
  }

  lemma {:induction false} VarintRoundTrip(value: nat, rest: Bytes, scale: nat, acc: nat)
    requires 1 <= scale < TWO_64 && value * scale < TWO_64
    ensures ReadVarint(EncodeVarint(value) + rest, scale, acc) == Ok(acc + value * scale, rest)
    decreases value
  {
    hide ReadVarint, EncodeVarint, Group;
    if value >= 128 {
      SplitGroup(value, scale);
      FirstGroup(value, rest, scale, acc);
      VarintRoundTrip(value / 128, rest, 128 * scale, acc + (value % 128) * scale);
    } else {
      LastGroup(value, rest, scale, acc);
    }
  }

  lemma VarintInverts(value: nat, rest: Bytes)
    requires value < TWO_64
    ensures Varint(EncodeVarint(value) + rest) == Ok(value, rest)
  {
    VarintRoundTrip(value, rest, 1, 0);
  }

  lemma BytesInvert(b: Bytes, rest: Bytes)
    requires |b| < TWO_64
    ensures ReadBytes(EncodeBytes(b) + rest) == Ok(b, rest)
  {
    VarintInverts(|b|, b + rest);
    assert EncodeBytes(b) + rest == EncodeVarint(|b|) + (b + rest);
  }

  /** The tag of an encoded field is read and charged before its payload. */
  lemma TagRead(kind: Kind, depth: nat, item: Item, rest: Bytes, used: nat)
    requires ItemFits(item) && used < MAX_WORK
    ensures EncodeItem(item) + rest != []
    ensures DecodeField(kind, depth, EncodeItem(item) + rest, used)
         == DecodePayload(ShapeOf(kind, item.number, WireTypeOf(item.payload)), SubDepth(kind, depth),
                          item.number, WireTypeOf(item.payload), EncodePayload(item.payload) + rest, used + 1)
  {
    hide ReadVarint, EncodeVarint, ShapeOf, DecodePayload, EncodePayload, PayloadFits;
    var wireType := WireTypeOf(item.payload);
    var body := EncodePayload(item.payload) + rest;
    var tag := 8 * item.number + wireType;
    VarintInverts(tag, body);
    assert EncodeItem(item) + rest == EncodeVarint(tag) + body;
    assert tag / 8 == item.number && tag % 8 == wireType;
  }

  /** What the decoder does with one encoded payload, whatever follows it. */
  ghost predicate Outcome(shape: Shape, depth: nat, item: Item, rest: Bytes, used: nat, r: Fetch) {
    var total := used + ItemTags(item) - 1;
    if total <= MAX_WORK && ShallowPayload(shape, depth, item.payload)
    then r == Got(StripItem(item), rest, total)
    else r.Halt? && r.error in {WorkExceeded, NestingTooDeep}
  }

  lemma TextPayload(depth: nat, item: Item, rest: Bytes, used: nat)
    requires item.payload.TextP? && |item.payload.text| < TWO_64 && used <= MAX_WORK
    ensures Outcome(TextS, depth, item, rest, used,
                    DecodePayload(TextS, depth, item.number, 2, EncodeBytes(item.payload.text) + rest, used))
  {
    hide ReadVarint, EncodeVarint, DecodeMessage, ReadBytes, EncodeBytes;
    BytesInvert(item.payload.text, rest);
  }

  lemma IntPayload(depth: nat, item: Item, rest: Bytes, used: nat)
    requires item.payload.IntP? && IsInt64(item.payload.value) && used <= MAX_WORK
    ensures Outcome(IntS, depth, item, rest, used,
                    DecodePayload(IntS, depth, item.number, 0, EncodeVarint(FromInt(item.payload.value)) + rest, used))
  {
    hide ReadVarint, EncodeVarint, DecodeMessage;
    VarintInverts(FromInt(item.payload.value), rest);
  }

  lemma ExtraPayload(depth: nat, item: Item, rest: Bytes, used: nat)
    requires item.payload.ExtraP? && PayloadFits(item.payload) && used <= MAX_WORK
    requires |EncodePayload(item.payload)| < TWO_64
    ensures Outcome(UnknownS, depth, item, rest, used,
                    DecodePayload(UnknownS, depth, item.number, WireTypeOf(item.payload),
                                  EncodePayload(item.payload) + rest, used))
  {
    hide ReadVarint, EncodeVarint, DecodeMessage, ReadBytes;
    match item.payload.extra
    case VarintX(word) => VarintInverts(word, rest);
    case BytesX(blob) => BytesInvert(blob, rest);
    case Fixed64X(raw) =>
      assert (raw + rest)[8..] == rest;
    case Fixed32X(raw) =>
      assert (raw + rest)[4..] == rest;
  }

  lemma PayloadOfMessage(kind: Kind, depth: nat, number: nat, payload: Bytes, rest: Bytes, used: nat)
    requires |payload| < TWO_64
    ensures DecodePayload(SubS(kind), depth, number, 2, EncodeBytes(payload) + rest, used)
         == Nest(number, rest, DecodeMessage(kind, depth, payload, used))
  {
    hide ReadVarint, EncodeVarint, DecodeMessage, ReadBytes, EncodeBytes;
    BytesInvert(payload, rest);
  }

  lemma {:induction false} SubPayload(kind: Kind, depth: nat, item: Item, rest: Bytes, used: nat)
    requires item.payload.SubP? && PayloadFits(item.payload) && Typed(kind, item.payload.items)
    requires used <= MAX_WORK && |EncodePayload(item.payload)| < TWO_64
    ensures Outcome(SubS(kind), depth, item, rest, used,
                    DecodePayload(SubS(kind), depth, item.number, 2, EncodePayload(item.payload) + rest, used))
    decreases item, 0
  {
    hide DecodePayload, DecodeFields, Tags, Shallow, Typed, EncodeItems;
    var items := item.payload.items;
    PayloadOfMessage(kind, depth, item.number, EncodeItems(items), rest, used);
    if kind != MessageK || depth <= MAX_DEPTH {
      FieldsRoundTrip(kind, depth, items, used);
    }
  }

  lemma {:induction false} FieldRoundTrip(kind: Kind, depth: nat, item: Item, rest: Bytes, used: nat)
    requires ItemFits(item) && TypedItem(kind, item)
    requires used < MAX_WORK && |EncodeItem(item)| < TWO_64
    ensures EncodeItem(item) + rest != []
    ensures FieldOutcome(kind, depth, item, rest, used, DecodeField(kind, depth, EncodeItem(item) + rest, used))
    decreases item, 1
  {
    hide ShapeOf, DecodePayload, DecodeField, EncodeVarint, ShallowPayload, StripItem, ItemTags, Outcome;
    TagRead(kind, depth, item, rest, used);
    var sub := SubDepth(kind, depth);
    match item.payload
    case TextP(_) => TextPayload(sub, item, rest, used + 1);
    case IntP(_) => IntPayload(sub, item, rest, used + 1);
    case ExtraP(_) => ExtraPayload(sub, item, rest, used + 1);
    case SubP(_) => SubPayload(ShapeOf(kind, item.number, 2).kind, sub, item, rest, used + 1);
  }

  /** What the decoder does with an encoded field tree. */
  ghost predicate TreeOutcome(kind: Kind, depth: nat, items: seq<Item>, used: nat, r: Step) {
    if used + Tags(items) <= MAX_WORK && Shallow(kind, depth, items)
    then r == Done(Strip(items), used + Tags(items))
    else r.Stop? && r.error in {WorkExceeded, NestingTooDeep}
  }

  ghost predicate FieldOutcome(kind: Kind, depth: nat, item: Item, rest: Bytes, used: nat, r: Fetch) {
    Outcome(ShapeOf(kind, item.number, WireTypeOf(item.payload)), SubDepth(kind, depth), item, rest, used + 1, r)
  }

  lemma EmptyTree(kind: Kind, depth: nat, used: nat)
    requires used <= MAX_WORK
    ensures TreeOutcome(kind, depth, [], used, DecodeFields(kind, depth, EncodeItems([]), used))
  {
  }

  lemma NoBudget(kind: Kind, depth: nat, items: seq<Item>)
    requires Fits(items) && items != []
    ensures TreeOutcome(kind, depth, items, MAX_WORK, DecodeFields(kind, depth, EncodeItems(items), MAX_WORK))
  {
    hide ShapeOf, PayloadFits, DecodePayload, Shallow, Strip, EncodePayload;
    assert EncodeTag(items[0].number, WireTypeOf(items[0].payload)) != [];
    assert EncodeItems(items) != [];
    assert Tags(items) >= 1;
  }

  lemma OutcomeRest(kind: Kind, depth: nat, item: Item, rest: Bytes, used: nat, r: Fetch)
    requires FieldOutcome(kind, depth, item, rest, used, r)
    ensures r.Got? ==> r.rest == rest && r.used == used + ItemTags(item) <= MAX_WORK
  {
    hide ShapeOf, Shallow, Strip, Tags;
  }

  lemma OutcomeJoin(kind: Kind, depth: nat, items: seq<Item>, rest: Bytes, used: nat, first: Fetch, later: Step)
    requires items != [] && FieldOutcome(kind, depth, items[0], rest, used, first)
    requires first.Got? ==> TreeOutcome(kind, depth, items[1..], first.used, later)
    ensures TreeOutcome(kind, depth, items, used,
                        if first.Got? then Prepend(first.items, later) else Stop(first.error, first.used))
  {
    hide ShapeOf, ShallowPayload, StripItem;
    assert Tags(items) == ItemTags(items[0]) + Tags(items[1..]);
    assert Strip(items) == StripItem(items[0]) + Strip(items[1..]);
    assert Shallow(kind, depth, items) <==> ShallowItem(kind, depth, items[0]) && Shallow(kind, depth, items[1..]);
  }

  /** Decoding the encoding of a field tree gives back its known fields, in order, with
      unknown fields dropped wherever they stand and at every level -- exactly when the
      tags fit the work budget and no message is nested too deep. */
  lemma {:induction false} FieldsRoundTrip(kind: Kind, depth: nat, items: seq<Item>, used: nat)
    requires Fits(items) && Typed(kind, items)
    requires used <= MAX_WORK && |EncodeItems(items)| < TWO_64
    ensures TreeOutcome(kind, depth, items, used, DecodeFields(kind, depth, EncodeItems(items), used))
    decreases items, 2
  {
    hide DecodeField, EncodeItem, ShapeOf, TypedPayload, PayloadFits, Tags, Shallow, Strip, Outcome, TreeOutcome;
    if items == [] {
      EmptyTree(kind, depth, used);
    } else {
      var rest := EncodeItems(items[1..]);
      if used < MAX_WORK {
        FieldRoundTrip(kind, depth, items[0], rest, used);
        var first := DecodeField(kind, depth, EncodeItem(items[0]) + rest, used);
        OutcomeRest(kind, depth, items[0], rest, used, first);
        if first.Got? {
          FieldsRoundTrip(kind, depth, items[1..], first.used);
        }
        OutcomeJoin(kind, depth, items, rest, used, first, DecodeFields(kind, depth, rest, used + ItemTags(items[0])));
      } else {
        NoBudget(kind, depth, items);
      }
    }
  }

  // ---------------------------------------------------------------- field boundaries

  /** `r` with `tail` appended to what it leaves unread. */
  function Followed<T>(r: Reply<T>, tail: Bytes): Reply<T> {
    match r
    case Ok(value, rest) => Ok(value, rest + tail)
    case Fail(_) => r
  }

  lemma {:induction false} VarintFollowed(data: Bytes, tail: Bytes, scale: nat, acc: nat)
    requires 1 <= scale && ReadVarint(data, scale, acc).Ok?
    ensures ReadVarint(data + tail, scale, acc) == Followed(ReadVarint(data, scale, acc), tail)
    decreases |data|
  {
    assert (data + tail)[1..] == data[1..] + tail;
    if data[0] as int >= 128 {
      VarintFollowed(data[1..], tail, 128 * scale, acc + Group(data[0] as int, scale));
    }
  }

  lemma BytesFollowed(data: Bytes, tail: Bytes)
    requires ReadBytes(data).Ok?
    ensures ReadBytes(data + tail) == Followed(ReadBytes(data), tail)
  {
    VarintFollowed(data, tail, 1, 0);
    SliceFollowed(Varint(data).rest, tail, Varint(data).value);
  }

  lemma SliceFollowed(data: Bytes, tail: Bytes, n: nat)
    requires n <= |data|
    ensures (data + tail)[..n] == data[..n] && (data + tail)[n..] == data[n..] + tail
  {
  }

  lemma SkipFollowed(wireType: nat, data: Bytes, tail: Bytes)
    requires Skip(wireType, data).Ok?
    ensures Skip(wireType, data + tail) == Followed(Skip(wireType, data), tail)
  {
    match wireType
    case 0 => VarintFollowed(data, tail, 1, 0);
    case 1 => assert (data + tail)[8..] == data[8..] + tail;
    case 2 => BytesFollowed(data, tail);
    case 5 => assert (data + tail)[4..] == data[4..] + tail;
    case _ =>
  }

  /** A field that decodes does so whatever follows it. */
  lemma FieldFollowed(kind: Kind, depth: nat, data: Bytes, tail: Bytes, used: nat)
    requires data != [] && DecodeField(kind, depth, data, used).Got?
    ensures var r := DecodeField(kind, depth, data, used);
            DecodeField(kind, depth, data + tail, used) == Got(r.items, r.rest + tail, r.used)
  {
    hide ShapeOf, DecodePayload, ReadVarint;
    VarintFollowed(data, tail, 1, 0);
    var r := Varint(data);
    PayloadFollowed(ShapeOf(kind, r.value / 8, r.value % 8), SubDepth(kind, depth),
                    r.value / 8, r.value % 8, r.rest, tail, used + 1);
  }

  lemma PayloadFollowed(shape: Shape, depth: nat, number: nat, wireType: nat, body: Bytes, tail: Bytes, used: nat)
    requires DecodePayload(shape, depth, number, wireType, body, used).Got?
    ensures var r := DecodePayload(shape, depth, number, wireType, body, used);
            DecodePayload(shape, depth, number, wireType, body + tail, used) == Got(r.items, r.rest + tail, r.used)
  {
    hide DecodeMessage, ReadVarint, ReadBytes, Skip;
    match shape
    case IntS => VarintFollowed(body, tail, 1, 0);
    case UnknownS => SkipFollowed(wireType, body, tail);
    case _ => BytesFollowed(body, tail);
  }

  lemma DecodeStep(kind: Kind, depth: nat, data: Bytes, used: nat)
    requires data != [] && DecodeField(kind, depth, data, used).Got?
    ensures var r := DecodeField(kind, depth, data, used);
            DecodeFields(kind, depth, data, used) == Prepend(r.items, DecodeFields(kind, depth, r.rest, r.used))
  {
    hide DecodeField;
  }

  lemma PrependTwice(a: seq<Item>, b: seq<Item>, step: Step)
    ensures Prepend(a, Prepend(b, step)) == Prepend(a + b, step)
  {
    if step.Done? {
      assert a + (b + step.items) == (a + b) + step.items;
    }
  }

  /** Two runs of whole fields decode one after the other. */
  lemma {:induction false} FieldsConcatenate(kind: Kind, depth: nat, a: Bytes, b: Bytes, used: nat)
    requires DecodeFields(kind, depth, a, used).Done?
    ensures var r := DecodeFields(kind, depth, a, used);
            DecodeFields(kind, depth, a + b, used) == Prepend(r.items, DecodeFields(kind, depth, b, r.used))
    decreases |a|
  {
    hide DecodeField;
    if a == [] {
      assert a + b == b;
    } else {
      var r := DecodeField(kind, depth, a, used);
      DecodeStep(kind, depth, a, used);
      FieldFollowed(kind, depth, a, b, used);
      DecodeStep(kind, depth, a + b, used);
      FieldsConcatenate(kind, depth, r.rest, b, r.used);
      var tail := DecodeFields(kind, depth, r.rest, r.used);
      PrependTwice(r.items, tail.items, DecodeFields(kind, depth, b, tail.used));
    }
  }

  /** `later` is the success `earlier`, reached with `more` work already charged. */
  ghost predicate Shifted(earlier: Step, later: Step, more: nat) {
    earlier.Done? && later == Done(earlier.items, earlier.used + more)
  }

  lemma ShiftJoin(kind: Kind, depth: nat, data: Bytes, used: nat, more: nat, items: seq<Item>, rest: Bytes, u: nat)
    requires data != []
    requires DecodeField(kind, depth, data, used) == Got(items, rest, u)
    requires DecodeField(kind, depth, data, used + more) == Got(items, rest, u + more)
    requires Shifted(DecodeFields(kind, depth, rest, u), DecodeFields(kind, depth, rest, u + more), more)
    ensures Shifted(DecodeFields(kind, depth, data, used), DecodeFields(kind, depth, data, used + more), more)
  {
    hide DecodeField;
  }

  /** A decoder that succeeds would succeed with less budget left, as long as it lasts. */
  lemma {:induction false} FieldsShift(kind: Kind, depth: nat, data: Bytes, used: nat, more: nat)
    requires DecodeFields(kind, depth, data, used).Done?
    requires DecodeFields(kind, depth, data, used).used + more <= MAX_WORK
    ensures Shifted(DecodeFields(kind, depth, data, used), DecodeFields(kind, depth, data, used + more), more)
    decreases |data|, 1
  {
    hide DecodeField;
    if data != [] {
      var r := DecodeField(kind, depth, data, used);
      WorkBounded(kind, depth, r.rest, r.used);
      FieldShift(kind, depth, data, used, more);
      FieldsShift(kind, depth, r.rest, r.used, more);
      ShiftJoin(kind, depth, data, used, more, r.items, r.rest, r.used);
    }
  }

  lemma {:induction false} FieldShift(kind: Kind, depth: nat, data: Bytes, used: nat, more: nat)
    requires data != [] && DecodeField(kind, depth, data, used).Got?
    requires DecodeField(kind, depth, data, used).used + more <= MAX_WORK
    ensures var r := DecodeField(kind, depth, data, used);
            DecodeField(kind, depth, data, used + more) == Got(r.items, r.rest, r.used + more)
    decreases |data|, 0
  {
    hide ShapeOf, DecodePayload, ReadVarint;
    var r := Varint(data);
    PayloadShift(ShapeOf(kind, r.value / 8, r.value % 8), SubDepth(kind, depth),
                 r.value / 8, r.value % 8, r.rest, used + 1, more);
  }

  lemma {:induction false} PayloadShift(shape: Shape, depth: nat, number: nat, wireType: nat, body: Bytes,
                                        used: nat, more: nat)
    requires DecodePayload(shape, depth, number, wireType, body, used).Got?
    requires DecodePayload(shape, depth, number, wireType, body, used).used + more <= MAX_WORK
    ensures var r := DecodePayload(shape, depth, number, wireType, body, used);
            && used <= r.used
            && DecodePayload(shape, depth, number, wireType, body, used + more) == Got(r.items, r.rest, r.used + more)
    decreases |body|, 2
  {
    hide DecodeFields, ReadVarint, ReadBytes, Skip;
    PayloadWork(shape, depth, number, wireType, body, used);
    if shape.SubS? {
      FieldsShift(shape.kind, depth, ReadText(wireType, body).value, used, more);
    }
  }

  /** The work charged, whether decoding succeeds or fails, is at most the input length. */
  lemma {:induction false} WorkBounded(kind: Kind, depth: nat, data: Bytes, used: nat)
    ensures used <= DecodeFields(kind, depth, data, used).used <= used + |data|
    decreases |data|, 2
  {
    hide DecodeField;
    if data != [] {
      FieldWork(kind, depth, data, used);
      var r := DecodeField(kind, depth, data, used);
      if r.Got? {
        WorkBounded(kind, depth, r.rest, r.used);
      }
    }
  }

  lemma {:induction false} FieldWork(kind: Kind, depth: nat, data: Bytes, used: nat)
    requires data != []
    ensures var r := DecodeField(kind, depth, data, used);
            if r.Got? then used < r.used && r.used + |r.rest| <= used + |data| else used < r.used <= used + |data|
    decreases |data|, 1
  {
    hide ShapeOf, DecodePayload, ReadVarint;
    var r := Varint(data);
    if used + 1 <= MAX_WORK && r.Ok? {
      PayloadWork(ShapeOf(kind, r.value / 8, r.value % 8), SubDepth(kind, depth),
                  r.value / 8, r.value % 8, r.rest, used + 1);
    }
  }

  lemma {:induction false} PayloadWork(shape: Shape, depth: nat, number: nat, wireType: nat, body: Bytes, used: nat)
    ensures var r := DecodePayload(shape, depth, number, wireType, body, used);
            if r.Got? then used <= r.used && r.used + |r.rest| <= used + |body| else used <= r.used <= used + |body|
    decreases |body|, 3
  {
    hide DecodeFields, ReadVarint, ReadBytes;
    if shape.SubS? {
      var p := ReadText(wireType, body);
      if p.Ok? {
        WorkBounded(shape.kind, depth, p.value, used);
      }
    }
  }

  /** An unknown field put at any field boundary of a message changes nothing but the
      work charged, as long as the budget lasts. */
  lemma UnknownFieldIgnored(kind: Kind, depth: nat, a: Bytes, extra: Item, b: Bytes, used: nat)
    requires extra.payload.ExtraP? && ItemFits(extra) && TypedItem(kind, extra) && |EncodeItem(extra)| < TWO_64
    requires DecodeFields(kind, depth, a, used).Done? && DecodeFields(kind, depth, a + b, used).Done?
    requires DecodeFields(kind, depth, a + b, used).used < MAX_WORK
    ensures var r := DecodeFields(kind, depth, a + b, used);
            DecodeFields(kind, depth, a + EncodeItem(extra) + b, used) == Done(r.items, r.used + 1)
  {
    hide DecodeFields, DecodeField, ShapeOf, EncodeItem;
    var ra := DecodeFields(kind, depth, a, used);
    var e := EncodeItem(extra);
    FieldsConcatenate(kind, depth, a, b, used);
    FieldsConcatenate(kind, depth, a, e + b, used);
    assert a + e + b == a + (e + b);
    UnknownFieldFirst(kind, depth, extra, b, ra.used);
  }

  lemma UnknownFieldFirst(kind: Kind, depth: nat, extra: Item, b: Bytes, used: nat)
    requires extra.payload.ExtraP? && ItemFits(extra) && TypedItem(kind, extra) && |EncodeItem(extra)| < TWO_64
    requires DecodeFields(kind, depth, b, used).Done? && DecodeFields(kind, depth, b, used).used < MAX_WORK
    ensures Shifted(DecodeFields(kind, depth, b, used), DecodeFields(kind, depth, EncodeItem(extra) + b, used), 1)
  {
    hide DecodeField, DecodeFields, ShapeOf, EncodeItem;
    var rb := DecodeFields(kind, depth, b, used);
    WorkBounded(kind, depth, b, used);
    FieldRoundTrip(kind, depth, extra, b, used);
    DecodeStep(kind, depth, EncodeItem(extra) + b, used);
    FieldsShift(kind, depth, b, used, 1);
    assert [] + rb.items == rb.items;
  }
}
