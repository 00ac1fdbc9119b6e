/** The decoder as the source writes it: a cursor over a byte slice, a work budget shared
    by all nested readers, and one parse loop per descriptor message.  Each method is
    proved to compute what `WireFormat` and `WireModel` say, including the error and the
    work charged. */
module WireReader {
  import opened WireFormat

  datatype Result<T> = Success(value: T) | Failure(error: WireError)

  /** sourceguard.Budget */
  class Budget {
    var used: nat

    constructor ()
      ensures used == 0
    {
      used := 0;
    }

    method Use() returns (ok: bool)
      modifies this
      ensures used == old(used) + 1 && ok == (used <= MAX_WORK)
    {
      used := used + 1;
      ok := used <= MAX_WORK;
    }
  }

  /** wireReader */
  class Reader {
    const data: Bytes
    const budget: Budget
    var pos: nat

    constructor (data: Bytes, budget: Budget)
      ensures this.data == data && this.budget == budget && Valid() && Rest() == data
    {
      this.data := data;
      this.budget := budget;
      pos := 0;
    }

    /** The cursor stays inside the slice. */
    ghost predicate Valid()
      reads this
    {
      pos <= |data|
    }

    ghost function Rest(): (r: Bytes)
      reads this
      requires Valid()
      ensures |r| == |data| - pos && (pos >= |data| ==> r == [])
    {
      data[pos..]
    }

    /** The reply of a specification function, as a method result. */
    ghost predicate Answers<T>(r: Result<T>, reply: Reply<T>)
      reads this
      requires Valid()
    {
      if reply.Ok? then r == Success(reply.value) && Rest() == reply.rest else r == Failure(reply.error)
    }

    method ReadVarint() returns (r: Result<nat>)
      requires Valid()
      modifies this`pos
      ensures Valid() && pos >= old(pos) && Answers(r, Varint(old(Rest())))
    {
      hide WireFormat.ReadVarint, Group, Pow128;
      var value: nat, shift: nat, scale: nat := 0, 0, 1;
      ghost var turn: nat := 0;
      ScaleOne();
      while shift < 64
        invariant Valid() && pos >= old(pos) && turn <= 10 && shift == 7 * turn && scale == Pow128(turn)
        invariant Varint(old(Rest())) == WireFormat.ReadVarint(Rest(), scale, value)
        decreases 64 - shift
      {
        ScaleBelow(turn);
        VarintTurn(Rest(), scale, value);
        if pos >= |data| {
          return Failure(UnexpectedEOF);
        }
        var b := data[pos] as int;
        assert Rest()[1..] == data[pos + 1..];
        pos := pos + 1;
        value := value + Group(b, scale);
        if b < 128 {
          return Success(value);
        }
        ScaleNext(turn);
        shift, scale, turn := shift + 7, 128 * scale, turn + 1;
      }
      ScaleBelow(turn);
      VarintTurn(Rest(), scale, value);
      return Failure(VarintOverflow);
    }

    method ReadTag() returns (r: Result<(nat, nat)>)
      requires Valid()
      modifies this`pos, budget
      ensures Valid() && budget.used == old(budget.used) + 1
      ensures r == TagReply(old(Rest()), old(budget.used))
      ensures pos >= old(pos)
      ensures r.Success? ==> pos > old(pos) && Tagged(old(Rest()), r.value.0, r.value.1, Rest())
    {
      var ok := budget.Use();
      if !ok {
        return Failure(WorkExceeded);
      }
      var word := ReadVarint();
      match word {
        case Success(tag) => r := Success((tag / 8, tag % 8));
        case Failure(error) => r := Failure(error);
      }
    }

    method ReadBytes() returns (r: Result<Bytes>)
      requires Valid()
      modifies this`pos
      ensures Valid() && pos >= old(pos) && Answers(r, WireFormat.ReadBytes(old(Rest())))
    {
      var word := ReadVarint();
      match word {
        case Failure(error) => return Failure(error);
        case Success(size) =>
          if size > |data| - pos {
            return Failure(UnexpectedEOF);
          }
          assert Rest()[..size] == data[pos..pos + size] && Rest()[size..] == data[pos + size..];
          var start := pos;
          pos := pos + size;
          return Success(data[start..pos]);
      }
    }

    method ReadText(wireType: nat) returns (r: Result<Bytes>)
      requires Valid()
      modifies this`pos
      ensures Valid() && pos >= old(pos) && Answers(r, WireFormat.ReadText(wireType, old(Rest())))
    {
      if wireType != 2 {
        return Failure(WrongWireType);
      }
      r := ReadBytes();
    }

    method ReadInt(wireType: nat) returns (r: Result<int>)
      requires Valid()
      modifies this`pos
      ensures Valid() && pos >= old(pos) && Answers(r, WireFormat.ReadInt(wireType, old(Rest())))
    {
      if wireType != 0 {
        return Failure(WrongWireType);
      }
      var word := ReadVarint();
      match word {
        case Success(value) => r := Success(ToInt(value));
        case Failure(error) => r := Failure(error);
      }
    }

    method Advance(n: nat) returns (r: Result<()>)
      requires Valid()
      modifies this`pos
      ensures Valid() && pos >= old(pos)
      ensures if n > |old(Rest())| then r == Failure(UnexpectedEOF)
              else r == Success(()) && Rest() == old(Rest())[n..]
    {
      if n > |data| - pos {
        return Failure(UnexpectedEOF);
      }
      assert Rest()[n..] == data[pos + n..];
      pos := pos + n;
      return Success(());
    }

    method Skip(wireType: nat) returns (r: Result<()>)
      requires Valid()
      modifies this`pos
      ensures Valid() && pos >= old(pos) && Answers(r, WireFormat.Skip(wireType, old(Rest())))
    {
      match wireType {
        case 0 =>
          var word := ReadVarint();
          r := if word.Success? then Success(()) else Failure(word.error);
        case 1 =>
          r := Advance(8);
        case 2 =>
          var blob := ReadBytes();
          r := if blob.Success? then Success(()) else Failure(blob.error);
        case 5 =>
          r := Advance(4);
        case _ =>
          r := Failure(UnsupportedWireType);
      }
    }
  }

  /** `rest` starts with this tag and `body` follows it. */
  ghost predicate Tagged(rest: Bytes, number: nat, wireType: nat, body: Bytes) {
    var word := Varint(rest);
    word.Ok? && number == word.value / 8 && wireType == word.value % 8 && body == word.rest
  }

  /** wireReader.tag: the budget is charged first. */
  ghost function TagReply(rest: Bytes, used: nat): Result<(nat, nat)> {
    var word := Varint(rest);
    if used + 1 > MAX_WORK then Failure(WorkExceeded)
    else if word.Ok? then Success((word.value / 8, word.value % 8))
    else Failure(word.error)
  }

  function Pow128(n: nat): (p: nat)
    ensures p >= 1
  {
    if n == 0 then 1 else 128 * Pow128(n - 1)
  }

  lemma ScaleOne()
    ensures Pow128(0) == 1
  {
  }

  lemma ScaleNext(n: nat)
    ensures Pow128(n + 1) == 128 * Pow128(n)
  {
  }

  /** One turn of the loop of varint. */
  lemma VarintTurn(data: Bytes, scale: nat, value: nat)
    requires 1 <= scale
    ensures WireFormat.ReadVarint(data, scale, value)
         == if scale >= TWO_64 then Fail(VarintOverflow)
            else if data == [] then Fail(UnexpectedEOF)
            else if data[0] as int < 128 then Ok(value + Group(data[0] as int, scale), data[1..])
            else WireFormat.ReadVarint(data[1..], 128 * scale, value + Group(data[0] as int, scale))
  {
    hide Group;
  }

  /** The loop of varint runs exactly while the scale is below 2^64. */
  lemma ScaleBelow(n: nat)
    requires n <= 10
    ensures Pow128(n) < TWO_64 <==> n < 10
  {
    assert Pow128(2) == 0x4000;
    assert Pow128(4) == 0x1000_0000;
    assert Pow128(6) == 0x400_0000_0000;
    assert Pow128(8) == 0x100_0000_0000_0000;
    assert Pow128(10) == 0x40_0000_0000_0000_0000;
  }
}
