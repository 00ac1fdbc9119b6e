/** The token cursor that the text parsers of grpcproto/parse.go and graphql/parse.go share:
    what is left of the tokens, and whether an error was recorded. */
module Tokens {

  datatype Kind = Name | Text | Number | Punct

  datatype Token = Token(kind: Kind, value: string)

  datatype Cursor = Cursor(rest: seq<Token>, failed: bool)
  {
    predicate Done() {
      rest == []
    }

    /** peekValue, which does not look at the kind. */
    predicate At(value: string) {
      rest != [] && rest[0].value == value
    }

    predicate AtKind(kind: Kind) {
      rest != [] && rest[0].kind == kind
    }

    /** advance: an error at the end of the tokens. */
    function Next(): (c: Cursor)
      ensures failed ==> c.failed
      ensures rest != [] ==> |c.rest| < |rest|
      ensures |c.rest| <= |rest|
    {
      if rest == [] then this.(failed := true) else this.(rest := rest[1..])
    }

    /** consume */
    function Skip(value: string): (c: Cursor)
      ensures failed ==> c.failed
      ensures |c.rest| <= |rest| && (At(value) ==> |c.rest| < |rest|)
    {
      if At(value) then Next() else this
    }

    function NameHere(): string {
      if AtKind(Name) then rest[0].value else ""
    }

    /** consumeName */
    function AfterName(): (c: Cursor)
      ensures failed ==> c.failed
      ensures |c.rest| <= |rest| && (NameHere() != "" ==> |c.rest| < |rest|)
    {
      if AtKind(Name) then Next() else this
    }

    function Fail(): Cursor {
      this.(failed := true)
    }
  }

  /** The rest of a block of which `depth` opening brackets are unmatched. */
  function Close(c: Cursor, open: string, close: string, depth: nat): (r: Cursor)
    ensures c.failed ==> r.failed
    ensures |r.rest| <= |c.rest|
    decreases |c.rest|
  {
    if depth == 0 then c
    else if c.Done() then c.Fail()
    else if c.At(open) then Close(c.Next(), open, close, depth + 1)
    else if c.At(close) then Close(c.Next(), open, close, depth - 1)
    else Close(c.Next(), open, close, depth)
  }

  /** skipBalanced */
  function SkipBalanced(c: Cursor, open: string, close: string): (r: Cursor)
    ensures c.failed ==> r.failed
    ensures |r.rest| <= |c.rest| && (c.At(open) ==> |r.rest| < |c.rest|)
  {
    if c.At(open) then Close(c.Next(), open, close, 1) else c
  }

  // ---------------------------------------------------------------- facts about printed tokens

  /** The cursor on `tokens` followed by what `c` has left. */
  function Before(tokens: seq<Token>, c: Cursor): Cursor {
    c.(rest := tokens + c.rest)
  }

  lemma BeforeJoin(a: seq<Token>, b: seq<Token>, c: Cursor)
    ensures Before(a + b, c) == Before(a, Before(b, c))
  {
    assert (a + b) + c.rest == a + (b + c.rest);
  }

  lemma BeforeOne(t: Token, c: Cursor)
    ensures Before([t], c).rest != [] && Before([t], c).rest[0] == t && Before([t], c).Next() == c
  {
    assert ([t] + c.rest)[1..] == c.rest;
  }

  lemma BeforeCons(t: Token, ts: seq<Token>, c: Cursor)
    ensures (var b := Before([t] + ts, c);
             b.rest != [] && b.rest[0] == t && b.Next() == Before(ts, c))
  {
    BeforeJoin([t], ts, c);
    BeforeOne(t, Before(ts, c));
  }

  lemma BeforeNone(c: Cursor)
    ensures Before([], c) == c
  {
    assert [] + c.rest == c.rest;
  }

  /** None of the tokens is one of these brackets. */
  predicate Free(tokens: seq<Token>, open: string, close: string) {
    forall i :: 0 <= i < |tokens| ==> tokens[i].value != open && tokens[i].value != close
  }

  lemma {:induction false} ClosesAt(tokens: seq<Token>, open: string, close: string, last: Token, c: Cursor)
    requires Free(tokens, open, close) && last.value == close != open
    ensures Close(Before(tokens + [last], c), open, close, 1) == c
  {
    if tokens == [] {
      BeforeOne(last, c);
      assert tokens + [last] == [last];
      assert Close(c, open, close, 0) == c;
    } else {
      BeforeCons(tokens[0], tokens[1..] + [last], c);
      assert tokens + [last] == [tokens[0]] + (tokens[1..] + [last]);
      ClosesAt(tokens[1..], open, close, last, c);
    }
  }

  /** A block without inner brackets is skipped exactly. */
  lemma SkipsBlock(tokens: seq<Token>, open: string, close: string, first: Token, last: Token, c: Cursor)
    requires Free(tokens, open, close) && first.value == open && last.value == close != open
    ensures SkipBalanced(Before([first] + tokens + [last], c), open, close) == c
  {
    BeforeCons(first, tokens + [last], c);
    assert [first] + tokens + [last] == [first] + (tokens + [last]);
    ClosesAt(tokens, open, close, last, c);
  }

  /** The brackets match, with `depth` of them open before the tokens. */
  predicate Closed(tokens: seq<Token>, open: string, close: string, depth: nat) {
    if tokens == [] then depth == 0
    else if tokens[0].value == open then Closed(tokens[1..], open, close, depth + 1)
    else if tokens[0].value == close then depth > 0 && Closed(tokens[1..], open, close, depth - 1)
    else Closed(tokens[1..], open, close, depth)
  }

  lemma {:induction false} ClosesAfter(tokens: seq<Token>, open: string, last: Token, depth: nat, c: Cursor)
    requires Closed(tokens, open, last.value, depth) && open != last.value
    ensures Close(Before(tokens + [last], c), open, last.value, depth + 1) == c
    decreases |tokens|
  {
    if tokens == [] {
      BeforeOne(last, c);
      assert tokens + [last] == [last];
      assert Close(c, open, last.value, 0) == c;
    } else {
      BeforeCons(tokens[0], tokens[1..] + [last], c);
      assert tokens + [last] == [tokens[0]] + (tokens[1..] + [last]);
      var next := if tokens[0].value == open then depth + 1
                  else if tokens[0].value == last.value then depth - 1 else depth;
      ClosesAfter(tokens[1..], open, last, next, c);
    }
  }
}
