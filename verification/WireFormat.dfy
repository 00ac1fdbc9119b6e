/** The protobuf wire format as grpcproto/wire.go reads it: varints, length-delimited
    payloads, skipped fields, the shared work budget and the nesting limit.

    `DecodeFields` turns the bytes of one descriptor message into the tree of the fields
    the parser knows; the order in which it reads, charges the budget and fails is the
    order of the source. */
module WireFormat {

  /** Go's byte; a byte sequence is at the same time the Go string with those bytes. */
  type Byte = c: char | c as int < 256 witness '\0'
  type Bytes = seq<Byte>

  const TWO_63: int := 0x8000_0000_0000_0000
  const TWO_64: int := 0x1_0000_0000_0000_0000
  const MAX_WORK: nat := 100_000
  const MAX_DEPTH: nat := 100
  const MAX_DOCUMENT_BYTES: nat := 20 * 1024 * 1024

  datatype WireError = UnexpectedEOF | VarintOverflow | WrongWireType | UnsupportedWireType
                     | WorkExceeded | NestingTooDeep

  datatype Reply<T> = Ok(value: T, rest: Bytes) | Fail(error: WireError)

  // ---------------------------------------------------------------- varints

  /** The seven payload bits of one byte, shifted into place and cut to 64 bits. */
  function Group(b: nat, scale: nat): nat {
    (b % 128) * scale % TWO_64
  }

  /** The loop of wireReader.varint.  `scale` is 2^shift; the bits added at `scale` do not
      overlap those of `acc`, so the source's `|=` is an addition.  The last group keeps
      only the bits below 2^64. */
  function ReadVarint(data: Bytes, scale: nat, acc: nat): (r: Reply<nat>)
    requires 1 <= scale
    ensures r.Ok? ==> |r.rest| < |data|
    decreases |data|
  {
    if scale >= TWO_64 then Fail(VarintOverflow)
    else if data == [] then Fail(UnexpectedEOF)
    else
      var b := data[0] as int;
      var value := acc + Group(b, scale);
      if b < 128 then Ok(value, data[1..]) else ReadVarint(data[1..], 128 * scale, value)
  }

  function Varint(data: Bytes): (r: Reply<nat>)
    ensures r.Ok? ==> |r.rest| < |data|
  {
    ReadVarint(data, 1, 0)
  }

  /** The scales the ten iterations of the loop use. */
  predicate IsGroupScale(scale: nat) {
    scale in {0x1, 0x80, 0x4000, 0x20_0000, 0x1000_0000, 0x8_0000_0000, 0x400_0000_0000,
              0x2_0000_0000_0000, 0x100_0000_0000_0000, TWO_63}
  }

  lemma GroupBound(b: nat, scale: nat)
    requires IsGroupScale(scale)
    ensures scale + Group(b, scale) <= TWO_64
    ensures scale != TWO_63 ==> scale + Group(b, scale) <= 128 * scale && IsGroupScale(128 * scale)
  {
    var g := b % 128;
    if scale == TWO_63 {
      assert Group(b, scale) == (g % 2) * TWO_63;
    } else {
      assert g * scale <= 127 * scale;
      assert Group(b, scale) == g * scale;
    }
  }

  /** Every value the loop returns is a 64-bit word. */
  lemma {:induction false} VarintRange(data: Bytes, scale: nat, acc: nat)
    requires IsGroupScale(scale) && acc < scale
    ensures var r := ReadVarint(data, scale, acc); r.Ok? ==> r.value < TWO_64
  {
    if data != [] {
      GroupBound(data[0] as int, scale);
    }
    if data != [] && data[0] as int >= 128 && scale != TWO_63 {
      VarintRange(data[1..], 128 * scale, acc + Group(data[0] as int, scale));
    }
  }

  /** uint64 to Go's int. */
  function ToInt(value: nat): int {
    if value >= TWO_63 then value - TWO_64 else value
  }

  predicate IsInt64(n: int) {
    -TWO_63 <= n < TWO_63
  }

  /** Go's int to uint64. */
  function FromInt(n: int): (value: nat)
    requires IsInt64(n)
    ensures value < TWO_64 && ToInt(value) == n
  {
    if n < 0 then n + TWO_64 else n
  }

  // ---------------------------------------------------------------- one field

  /** wireReader.bytes */
  function ReadBytes(data: Bytes): (r: Reply<Bytes>)
    ensures r.Ok? ==> |r.value| + |r.rest| < |data|
  {
    match Varint(data)
    case Fail(e) => Fail(e)
    case Ok(size, body) =>
      if size > |body| then Fail(UnexpectedEOF) else Ok(body[..size], body[size..])
  }

  /** wireReader.bytesOfType */
  function ReadText(wireType: nat, data: Bytes): (r: Reply<Bytes>)
    ensures r.Ok? ==> |r.value| + |r.rest| < |data|
  {
    if wireType != 2 then Fail(WrongWireType) else ReadBytes(data)
  }

  /** wireReader.int */
  function ReadInt(wireType: nat, data: Bytes): (r: Reply<int>)
    ensures r.Ok? ==> |r.rest| < |data|
  {
    if wireType != 0 then Fail(WrongWireType)
    else
      match Varint(data)
      case Fail(e) => Fail(e)
      case Ok(value, rest) => Ok(ToInt(value), rest)
  }

  /** wireReader.skip */
  function Skip(wireType: nat, data: Bytes): (r: Reply<()>)
    ensures r.Ok? ==> |r.rest| <= |data|
  {
    match wireType
    case 0 => (match Varint(data) case Fail(e) => Fail(e) case Ok(_, rest) => Ok((), rest))
    case 1 => if 8 > |data| then Fail(UnexpectedEOF) else Ok((), data[8..])
    case 2 => (match ReadBytes(data) case Fail(e) => Fail(e) case Ok(_, rest) => Ok((), rest))
    case 5 => if 4 > |data| then Fail(UnexpectedEOF) else Ok((), data[4..])
    case _ => Fail(UnsupportedWireType)
  }

  // ---------------------------------------------------------------- messages

  /** The descriptor messages, one for each parse*DescriptorProto function. */
  datatype Kind = SetK | FileK | ServiceK | MethodK | MessageK | FieldK | EnumK | ValueK

  datatype Shape = TextS | IntS | SubS(kind: Kind) | UnknownS

  /** What the switch of each parse function does with a field number. */
  function ShapeOf(kind: Kind, number: nat, wireType: nat): Shape {
    match kind
    case SetK => if number == 1 && wireType == 2 then SubS(FileK) else UnknownS
    case FileK =>
      if number in {1, 2, 3, 12} then TextS
      else if number == 4 then SubS(MessageK)
      else if number == 5 then SubS(EnumK)
      else if number == 6 then SubS(ServiceK)
      else UnknownS
    case ServiceK => if number == 1 then TextS else if number == 2 then SubS(MethodK) else UnknownS
    case MethodK => if number in {1, 2, 3} then TextS else if number in {5, 6} then IntS else UnknownS
    case MessageK =>
      if number == 1 then TextS
      else if number == 2 then SubS(FieldK)
      else if number == 3 then SubS(MessageK)
      else if number == 4 then SubS(EnumK)
      else UnknownS
    case FieldK => if number in {1, 6, 10} then TextS else if number in {3, 4, 5} then IntS else UnknownS
    case EnumK => if number == 1 then TextS else if number == 2 then SubS(ValueK) else UnknownS
    case ValueK => if number == 1 then TextS else if number == 2 then IntS else UnknownS
  }

  /** A field of a descriptor message.  `ExtraP` is a field the parser does not know. */
  datatype Item = Item(number: nat, payload: Payload)
  datatype Payload = TextP(text: Bytes) | IntP(value: int) | SubP(items: seq<Item>) | ExtraP(extra: Extra)
  datatype Extra = VarintX(word: nat) | Fixed64X(raw: Bytes) | BytesX(blob: Bytes) | Fixed32X(raw: Bytes)

  datatype Step = Done(items: seq<Item>, used: nat) | Stop(error: WireError, used: nat)
  datatype Fetch = Got(items: seq<Item>, rest: Bytes, used: nat) | Halt(error: WireError, used: nat)

  /** The depth a nested message is parsed at. */
  function SubDepth(kind: Kind, depth: nat): nat {
    if kind == MessageK then depth + 1 else 0
  }

  /** Reads one field.  `used` is the work charged so far; the tag charges one item. */
  function DecodeField(kind: Kind, depth: nat, data: Bytes, used: nat): (r: Fetch)
    requires data != []
    ensures r.Got? ==> |r.rest| < |data|
    decreases |data|, 0
  {
    if used + 1 > MAX_WORK then Halt(WorkExceeded, used + 1)
    else
      match Varint(data)
      case Fail(e) => Halt(e, used + 1)
      case Ok(tag, body) =>
        DecodePayload(ShapeOf(kind, tag / 8, tag % 8), SubDepth(kind, depth), tag / 8, tag % 8, body, used + 1)
  }

  /** Reads the payload of a field whose tag has been read and charged. */
  function DecodePayload(shape: Shape, depth: nat, number: nat, wireType: nat, body: Bytes, used: nat): (r: Fetch)
    ensures r.Got? ==> |r.rest| <= |body|
    decreases |body|, 3
  {
    match shape
    case TextS => (
      match ReadText(wireType, body)
      case Fail(e) => Halt(e, used)
      case Ok(text, rest) => Got([Item(number, TextP(text))], rest, used))
    case IntS => (
      match ReadInt(wireType, body)
      case Fail(e) => Halt(e, used)
      case Ok(value, rest) => Got([Item(number, IntP(value))], rest, used))
    case SubS(kind) => (
      match ReadText(wireType, body)
      case Fail(e) => Halt(e, used)
      case Ok(payload, rest) => Nest(number, rest, DecodeMessage(kind, depth, payload, used)))
    case UnknownS =>
      match Skip(wireType, body)
      case Fail(e) => Halt(e, used)
      case Ok(_, rest) => Got([], rest, used)
  }

  /** The loop of every parse*DescriptorProto function. */
  function DecodeFields(kind: Kind, depth: nat, data: Bytes, used: nat): Step
    decreases |data|, 1
  {
    if data == [] then Done([], used)
    else
      match DecodeField(kind, depth, data, used)
      case Halt(e, u) => Stop(e, u)
      case Got(items, rest, u) => Prepend(items, DecodeFields(kind, depth, rest, u))
  }

  /** A whole message, with the nesting check on entry. */
  function DecodeMessage(kind: Kind, depth: nat, data: Bytes, used: nat): Step
    decreases |data|, 2
  {
    if kind == MessageK && depth > MAX_DEPTH then Stop(NestingTooDeep, used)
    else DecodeFields(kind, depth, data, used)
  }

  function Nest(number: nat, rest: Bytes, step: Step): Fetch {
    match step
    case Done(items, used) => Got([Item(number, SubP(items))], rest, used)
    case Stop(error, used) => Halt(error, used)
  }

  function Prepend(items: seq<Item>, step: Step): Step {
    match step
    case Done(more, used) => Done(items + more, used)
    case Stop(_, _) => step
  }

  // ---------------------------------------------------------------- encoding

  function EncodeVarint(value: nat): (e: Bytes)
    ensures e != []
  {
    if value < 128 then [value as char] else [(value % 128 + 128) as char] + EncodeVarint(value / 128)
  }

  function EncodeBytes(b: Bytes): Bytes {
    EncodeVarint(|b|) + b
  }

  function EncodeTag(number: nat, wireType: nat): Bytes
    requires wireType < 8
  {
    EncodeVarint(8 * number + wireType)
  }

  function WireTypeOf(payload: Payload): (wireType: nat)
    ensures wireType < 8
  {
    match payload
    case TextP(_) => 2
    case IntP(_) => 0
    case SubP(_) => 2
    case ExtraP(VarintX(_)) => 0
    case ExtraP(Fixed64X(_)) => 1
    case ExtraP(BytesX(_)) => 2
    case ExtraP(Fixed32X(_)) => 5
  }

  function EncodePayload(payload: Payload): Bytes
    requires PayloadFits(payload)
    decreases payload
  {
    match payload
    case TextP(text) => EncodeBytes(text)
    case IntP(value) => EncodeVarint(FromInt(value))
    case SubP(items) => EncodeBytes(EncodeItems(items))
    case ExtraP(VarintX(word)) => EncodeVarint(word)
    case ExtraP(Fixed64X(raw)) => raw
    case ExtraP(BytesX(blob)) => EncodeBytes(blob)
    case ExtraP(Fixed32X(raw)) => raw
  }

  function EncodeItem(item: Item): Bytes
    requires ItemFits(item)
    decreases item
  {
    EncodeTag(item.number, WireTypeOf(item.payload)) + EncodePayload(item.payload)
  }

  function EncodeItems(items: seq<Item>): Bytes
    requires Fits(items)
    decreases items
  {
    if items == [] then [] else EncodeItem(items[0]) + EncodeItems(items[1..])
  }

  /** Every number fits the 64-bit words of the wire format. */
  predicate Fits(items: seq<Item>)
    decreases items
  {
    items != [] ==> ItemFits(items[0]) && Fits(items[1..])
  }

  predicate ItemFits(item: Item)
    decreases item
  {
    8 * item.number + 7 < TWO_64 && PayloadFits(item.payload)
  }

  predicate PayloadFits(payload: Payload)
    decreases payload
  {
    match payload
    case TextP(_) => true
    case IntP(value) => IsInt64(value)
    case SubP(items) => Fits(items)
    case ExtraP(VarintX(word)) => word < TWO_64
    case ExtraP(Fixed64X(raw)) => |raw| == 8
    case ExtraP(BytesX(_)) => true
    case ExtraP(Fixed32X(raw)) => |raw| == 4
  }

  /** Every item is one the parser of `kind` reads as that item, or an unknown field. */
  predicate Typed(kind: Kind, items: seq<Item>)
    decreases items
  {
    items != [] ==> TypedItem(kind, items[0]) && Typed(kind, items[1..])
  }

  predicate TypedItem(kind: Kind, item: Item)
    decreases item
  {
    TypedPayload(ShapeOf(kind, item.number, WireTypeOf(item.payload)), item.payload)
  }

  predicate TypedPayload(shape: Shape, payload: Payload)
    decreases payload
  {
    match payload
    case TextP(_) => shape == TextS
    case IntP(_) => shape == IntS
    case SubP(items) => shape.SubS? && Typed(shape.kind, items)
    case ExtraP(_) => shape == UnknownS
  }

  /** Tags in the encoding, nested messages included. */
  function Tags(items: seq<Item>): nat {
    if items == [] then 0 else ItemTags(items[0]) + Tags(items[1..])
  }

  function ItemTags(item: Item): nat {
    1 + if item.payload.SubP? then Tags(item.payload.items) else 0
  }

  /** No message is nested below the limit. */
  predicate Shallow(kind: Kind, depth: nat, items: seq<Item>)
    decreases items
  {
    items != [] ==> ShallowItem(kind, depth, items[0]) && Shallow(kind, depth, items[1..])
  }

  predicate ShallowItem(kind: Kind, depth: nat, item: Item)
    decreases item
  {
    ShallowPayload(ShapeOf(kind, item.number, WireTypeOf(item.payload)), SubDepth(kind, depth), item.payload)
  }

  predicate ShallowPayload(shape: Shape, depth: nat, payload: Payload)
    decreases payload
  {
    payload.SubP? && shape.SubS? ==>
      (shape.kind == MessageK ==> depth <= MAX_DEPTH) && Shallow(shape.kind, depth, payload.items)
  }

  /** The items without the unknown fields, at every level. */
  function Strip(items: seq<Item>): seq<Item> {
    if items == [] then [] else StripItem(items[0]) + Strip(items[1..])
  }

  function StripItem(item: Item): seq<Item> {
    match item.payload
    case ExtraP(_) => []
    case SubP(sub) => [Item(item.number, SubP(Strip(sub)))]
    case _ => [item]
  }
}
