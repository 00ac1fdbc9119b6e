/** The lexer of GraphQL documents (lexGraphQL in graphql/parse.go): its definition over the
    rest of the input, the loop of the source, and its inverse.  Numbers are names. */
module GraphQLLexer {
  import opened Lexing
  import opened Text
  import opened Tokens
  import opened Wrappers

  /** appendToken */
  function Push(t: Token, n: Nesting): Option<Nesting> {
    if n.count + 1 > MAX_WORK_ITEMS then None
    else if t.value in {"{", "[", "("} then
      if n.depth + 1 > MAX_NESTING_DEPTH then None else Some(Nesting(n.count + 1, n.depth + 1))
    else if t.value in {"}", "]", ")"} && n.depth > 0 then Some(Nesting(n.count + 1, n.depth - 1))
    else Some(Nesting(n.count + 1, n.depth))
  }

  /** Whether a list of tokens stays within the limits. */
  predicate Admitted(ts: seq<Token>, n: Nesting) {
    ts == [] || (Push(ts[0], n).Some? && Admitted(ts[1..], Push(ts[0], n).value))
  }

  predicate NumberStart(s: string) {
    s != "" && ('0' <= s[0] <= '9' || (s[0] == '-' && |s| > 1 && '0' <= s[1] <= '9'))
  }

  predicate NumberContinue(c: char) {
    '0' <= c <= '9' || c == '.' || c == 'e' || c == 'E' || c == '+' || c == '-'
  }

  function NumberLength(s: string): (n: nat)
    ensures n <= |s|
  {
    if s == "" || !NumberContinue(s[0]) then 0 else 1 + NumberLength(s[1..])
  }

  const QUOTES := "\"\"\""

  /** A block string after its opening quotes: its text and the rest of the input. */
  function ReadBlock(s: string): (r: Option<(string, string)>)
    ensures r.Some? ==> |r.value.1| < |s|
  {
    if |s| < 3 then None
    else if QUOTES <= s then Some(("", s[3..]))
    else WithText([s[0]], ReadBlock(s[1..]))
  }

  predicate IsPunct(c: char) {
    c in {'!', '$', '&', '(', ')', ':', '=', '@', '[', ']', '{', '|', '}'}
  }

  function Next(s: string): (p: Piece)
    requires s != ""
    ensures !p.Bad? ==> |p.rest| < |s|
  {
    if IsSpace(s[0]) || s[0] == ',' then Blank(s[1..])
    else if s[0] == '#' then Blank(AfterLine(s[1..]))
    else if NameStart(s[0]) then
      var n := 1 + NameLength(s[1..]);
      One(Token(Name, s[..n]), s[n..])
    else if NumberStart(s) then
      var n := 1 + NumberLength(s[1..]);
      One(Token(Name, s[..n]), s[n..])
    else if QUOTES <= s then
      (match ReadBlock(s[3..])
       case None => Bad
       case Some((text, rest)) => One(Token(Kind.Text, TrimSpace(text)), rest))
    else if s[0] == '"' then
      (match ReadString(s[1..], '"')
       case None => Bad
       case Some((text, rest)) => One(Token(Kind.Text, text), rest))
    else if IsPunct(s[0]) then One(Token(Punct, s[..1]), s[1..])
    else if "..." <= s then One(Token(Punct, "..."), s[3..])
    else Bad
  }

  /** lexGraphQL */
  function Lex(s: string, n: Nesting): Option<seq<Token>>
    decreases |s|
  {
    if s == "" then Some([])
    else
      match Next(s)
      case Bad => None
      case Blank(rest) => Lex(rest, n)
      case One(t, rest) =>
        match Push(t, n)
        case None => None
        case Some(next) => Extend([t], Lex(rest, next))
  }

  // ---------------------------------------------------------------- the loop

  method ScanNumber(input: string, start: nat) returns (i: nat)
    requires start <= |input|
    ensures i == start + NumberLength(input[start..])
  {
    i := start;
    while i < |input| && NumberContinue(input[i])
      invariant start <= i <= |input| && i + NumberLength(input[i..]) == start + NumberLength(input[start..])
    {
      assert input[i..][1..] == input[i + 1..];
      i := i + 1;
    }
  }

  method ScanBlock(input: string, start: nat) returns (ok: bool, text: string, i: nat)
    requires start <= |input|
    ensures ok <==> ReadBlock(input[start..]).Some?
    ensures ok ==> i <= |input| && ReadBlock(input[start..]).value == (text, input[i..])
  {
    hide WithText;
    text, i, ok := "", start, false;
    WithTextTwice("", "", ReadBlock(input[start..]));
    while i + 3 <= |input|
      invariant start <= i <= |input|
      invariant ReadBlock(input[start..]) == WithText(text, ReadBlock(input[i..]))
    {
      assert input[i..][1..] == input[i + 1..] && input[i..][3..] == input[i + 3..];
      if QUOTES <= input[i..] {
        JustText(text, input[i + 3..]);
        return true, text, i + 3;
      }
      WithTextTwice(text, [input[i]], ReadBlock(input[i + 1..]));
      text := text + [input[i]];
      i := i + 1;
    }
    NoText(text);
  }

  lemma NoText(text: string)
    ensures WithText(text, None) == None
  {
  }

  /** One piece of the input, by the tests of the loop in order. */
  method Scan(input: string, start: nat) returns (p: Piece, i: nat)
    requires start < |input|
    ensures p == Next(input[start..])
    ensures !p.Bad? ==> start < i <= |input| && p.rest == input[i..]
  {
    hide AfterLine, ReadBlock, ReadString, NameLength, NumberLength, NumberContinue, IsPunct, NameStart, IsSpace,
         TrimSpace;
    var s := input[start..];
    assert s[0] == input[start] && s[1..] == input[start + 1..];
    if IsSpace(input[start]) || input[start] == ',' {
      return Blank(input[start + 1..]), start + 1;
    }
    if input[start] == '#' {
      i := SkipLine(input, start + 1);
      return Blank(input[i..]), i;
    }
    if NameStart(input[start]) {
      i := ScanName(input, start + 1);
      assert s[..i - start] == input[start..i] && s[i - start..] == input[i..];
      return One(Token(Name, input[start..i]), input[i..]), i;
    }
    if NumberStart(s) {
      i := ScanNumber(input, start + 1);
      assert s[..i - start] == input[start..i] && s[i - start..] == input[i..];
      return One(Token(Name, input[start..i]), input[i..]), i;
    }
    if QUOTES <= s {
      assert s[3..] == input[start + 3..];
      var ok, text, end := ScanBlock(input, start + 3);
      if !ok {
        return Bad, start;
      }
      return One(Token(Kind.Text, TrimSpace(text)), input[end..]), end;
    }
    if input[start] == '"' {
      var ok, text, end := ScanString(input, start + 1, '"');
      if !ok {
        return Bad, start;
      }
      return One(Token(Kind.Text, text), input[end..]), end;
    }
    if IsPunct(input[start]) {
      assert s[..1] == input[start..start + 1];
      return One(Token(Punct, input[start..start + 1]), input[start + 1..]), start + 1;
    }
    if "..." <= s {
      assert s[3..] == input[start + 3..];
      return One(Token(Punct, "..."), input[start + 3..]), start + 3;
    }
    return Bad, start;
  }

  /** lexGraphQL, with its token slice and depth counter. */
  method LexGraphQL(input: string) returns (r: Option<seq<Token>>)
    ensures r == Lex(input, Start)
  {
    hide Next, Push;
    var tokens: seq<Token> := [];
    var n := Start;
    var i := 0;
    assert input[0..] == input;
    ExtendTwice([], [], Lex(input, n));
    while i < |input|
      invariant 0 <= i <= |input|
      invariant Lex(input, Start) == Extend(tokens, Lex(input[i..], n))
      decreases |input| - i
    {
      var p, end := Scan(input, i);
      if p.Bad? {
        return None;
      }
      if p.One? {
        var next := Push(p.token, n);
        if next.None? {
          return None;
        }
        ExtendTwice(tokens, [p.token], Lex(input[end..], next.value));
        tokens := tokens + [p.token];
        n := next.value;
      }
      i := end;
    }
    assert tokens + [] == tokens;
    return Some(tokens);
  }

  // ---------------------------------------------------------------- the inverse

  predicate IsNumber(s: string) {
    NumberStart(s) && forall i :: 1 <= i < |s| ==> NumberContinue(s[i])
  }

  /** A token that the lexer can produce from a name, a number, a quoted string or
      punctuation. */
  predicate Printable(t: Token) {
    match t.kind
    case Name => IsName(t.value) || IsNumber(t.value)
    case Punct => (|t.value| == 1 && IsPunct(t.value[0])) || t.value == "..."
    case Text => true
    case Number => false
  }

  predicate AllPrintable(ts: seq<Token>) {
    forall i :: 0 <= i < |ts| ==> Printable(ts[i])
  }

  function RenderToken(t: Token): string {
    if t.kind == Kind.Text then "\"" + Quote(t.value) + "\"" else t.value
  }

  /** The tokens as text, each followed by a space. */
  function Render(ts: seq<Token>): string {
    if ts == [] then "" else RenderToken(ts[0]) + (" " + Render(ts[1..]))
  }

  /** A quoted string does not look like a block string. */
  lemma NotBlock(value: string, tail: string)
    requires tail != "" ==> tail[0] == ' '
    ensures !(QUOTES <= "\"" + (Quote(value) + ("\"" + tail)))
  {
    var s := "\"" + (Quote(value) + ("\"" + tail));
    assert QUOTES[1] == '"' && QUOTES[2] == '"';
    if value == "" {
      assert Quote(value) + ("\"" + tail) == "\"" + tail;
      assert |s| > 2 ==> s[2] == tail[0];
    } else {
      assert s[1] == Quote(value)[0];
    }
  }

  lemma NameRead(name: string, tail: string)
    requires IsName(name) && (tail != "" ==> tail[0] == ' ')
    ensures Next(name + tail) == One(Token(Name, name), tail)
  {
    hide NameLength, NumberLength, ReadString, ReadBlock, AfterLine, Quote, TrimSpace;
    var s := name + tail;
    NameEnds(name[1..], tail);
    assert NameContinue(name[0]);
    assert s[1..] == name[1..] + tail;
    assert s[..|name|] == name && s[|name|..] == tail;
  }

  lemma {:induction false} NumberEnds(s: string, tail: string)
    requires (forall i :: 0 <= i < |s| ==> NumberContinue(s[i])) && (tail != "" ==> tail[0] == ' ')
    ensures NumberLength(s + tail) == |s|
  {
    if s == "" {
      assert s + tail == tail;
    } else {
      assert (s + tail)[1..] == s[1..] + tail;
      NumberEnds(s[1..], tail);
    }
  }

  lemma NumberRead(number: string, tail: string)
    requires IsNumber(number) && (tail != "" ==> tail[0] == ' ')
    ensures Next(number + tail) == One(Token(Name, number), tail)
  {
    hide NameLength, NumberLength, ReadString, ReadBlock, AfterLine, Quote, TrimSpace;
    var s := number + tail;
    NumberEnds(number[1..], tail);
    assert s[0] == number[0] && (|number| > 1 ==> s[1] == number[1]);
    assert s[1..] == number[1..] + tail;
    assert s[..|number|] == number && s[|number|..] == tail;
  }

  lemma PunctRead(t: Token, tail: string)
    requires Printable(t) && t.kind.Punct?
    ensures Next(t.value + tail) == One(t, tail)
  {
    hide NameLength, NumberLength, ReadString, ReadBlock, AfterLine, Quote, TrimSpace;
    var s := t.value + tail;
    if t.value == "..." {
      assert s[0] == '.' && s[3..] == tail;
    } else {
      assert s[..1] == t.value && s[1..] == tail;
      assert s[0] == t.value[0];
      assert QUOTES[0] == '"';
    }
  }

  /** A rendered token is read back, up to the space after it. */
  lemma TokenRead(t: Token, tail: string)
    requires Printable(t) && (tail != "" ==> tail[0] == ' ')
    ensures RenderToken(t) != "" && Next(RenderToken(t) + tail) == One(t, tail)
  {
    hide NameLength, NumberLength, ReadString, ReadBlock, AfterLine, Quote, TrimSpace;
    var s := RenderToken(t) + tail;
    match t.kind {
      case Name =>
        if IsName(t.value) {
          NameRead(t.value, tail);
        } else {
          NumberRead(t.value, tail);
        }
      case Punct => PunctRead(t, tail);
      case Text =>
        QuoteRead(t.value, tail);
        NotBlock(t.value, tail);
        assert s == "\"" + (Quote(t.value) + ("\"" + tail));
        assert s[1..] == Quote(t.value) + ("\"" + tail);
      case Number =>
    }
  }

  /** Lexing the rendering of printable tokens gives them back, exactly when they stay
      within the limits. */
  lemma {:induction false} LexRendered(ts: seq<Token>, n: Nesting)
    requires AllPrintable(ts)
    ensures Lex(Render(ts), n) == if Admitted(ts, n) then Some(ts) else None
    decreases |ts|
  {
    hide Next, Push, RenderToken, Printable;
    if ts != [] {
      var tail := " " + Render(ts[1..]);
      TokenRead(ts[0], tail);
      SpaceRead(Render(ts[1..]));
      if Push(ts[0], n).Some? {
        LexRendered(ts[1..], Push(ts[0], n).value);
        assert [ts[0]] + ts[1..] == ts;
      }
    }
  }

  lemma SpaceRead(rest: string)
    ensures Next(" " + rest) == Blank(rest)
  {
    assert (" " + rest)[1..] == rest;
  }
}
