/** The cursor methods of the parsers (advance, consume, consumeName, skipBalanced), which
    move a position and record an error in place. */
module TokenReader {
  import opened Tokens

  class Reader {
    const tokens: seq<Token>
    var pos: nat
    var failed: bool

    ghost predicate Valid()
      reads this
    {
      pos <= |tokens|
    }

    /** What is left to read. */
    ghost function Here(): Cursor
      requires Valid()
      reads this
    {
      Cursor(tokens[pos..], failed)
    }

    constructor (tokens: seq<Token>)
      ensures Valid() && this.tokens == tokens && Here() == Cursor(tokens, false)
    {
      this.tokens := tokens;
      pos, failed := 0, false;
      new;
      assert tokens[0..] == tokens;
    }

    predicate Done()
      requires Valid()
      reads this
      ensures Done() <==> Here().Done()
    {
      pos >= |tokens|
    }

    predicate PeekValue(value: string)
      requires Valid()
      reads this
      ensures PeekValue(value) <==> Here().At(value)
    {
      pos < |tokens| && tokens[pos].value == value
    }

    predicate PeekKind(kind: Kind)
      requires Valid()
      reads this
      ensures PeekKind(kind) <==> Here().AtKind(kind)
    {
      pos < |tokens| && tokens[pos].kind == kind
    }

    function Peek(): (t: Token)
      requires Valid() && !Done()
      reads this
      ensures Here().rest[0] == t
    {
      tokens[pos]
    }

    method Advance() returns (t: Token)
      requires Valid()
      modifies this
      ensures Valid() && Here() == old(Here()).Next()
      ensures t == if old(Here()).Done() then Token(Punct, "") else old(Here()).rest[0]
    {
      if pos >= |tokens| {
        failed := true;
        return Token(Punct, "");
      }
      t := tokens[pos];
      assert tokens[pos..][1..] == tokens[pos + 1..];
      pos := pos + 1;
    }

    method Consume(value: string) returns (ok: bool)
      requires Valid()
      modifies this
      ensures Valid() && Here() == old(Here()).Skip(value) && ok == old(Here()).At(value)
    {
      ok := PeekValue(value);
      if ok {
        var _ := Advance();
      }
    }

    method ConsumeName() returns (name: string)
      requires Valid()
      modifies this
      ensures Valid() && Here() == old(Here()).AfterName() && name == old(Here()).NameHere()
    {
      if !PeekKind(Name) {
        return "";
      }
      var t := Advance();
      return t.value;
    }

    method SkipBalanced(open: string, close: string)
      requires Valid()
      modifies this
      ensures Valid() && Here() == Tokens.SkipBalanced(old(Here()), open, close)
    {
      var ok := Consume(open);
      if !ok {
        return;
      }
      var depth: nat := 1;
      while pos < |tokens| && depth > 0
        invariant Valid() && Close(Here(), open, close, depth) == Tokens.SkipBalanced(old(Here()), open, close)
        decreases |tokens| - pos
      {
        assert tokens[pos..][1..] == tokens[pos + 1..];
        var t := Advance();
        if t.value == open {
          depth := depth + 1;
        } else if t.value == close {
          depth := depth - 1;
        }
      }
      if depth > 0 {
        failed := true;
      }
    }

    /** p.err is set. */
    method Fail()
      requires Valid()
      modifies this
      ensures Valid() && Here() == old(Here()).Fail()
    {
      failed := true;
    }
  }
}
