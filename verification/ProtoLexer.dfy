/** The lexer of .proto text (lexProto in grpcproto/parse.go): its definition over the rest
    of the input, the loop of the source, and its inverse. */
module ProtoLexer {
  import opened Lexing
  import opened Text
  import opened Tokens
  import opened Wrappers

  /** appendToken: brackets count whatever the kind of the token. */
  function Push(t: Token, n: Nesting): Option<Nesting> {
    if n.count + 1 > MAX_WORK_ITEMS then None
    else if t.value in {"{", "[", "(", "<"} then
      if n.depth + 1 > MAX_NESTING_DEPTH then None else Some(Nesting(n.count + 1, n.depth + 1))
    else if t.value in {"}", "]", ")", ">"} && n.depth > 0 then Some(Nesting(n.count + 1, n.depth - 1))
    else Some(Nesting(n.count + 1, n.depth))
  }

  /** Whether a list of tokens stays within the limits. */
  predicate Admitted(ts: seq<Token>, n: Nesting) {
    ts == [] || (Push(ts[0], n).Some? && Admitted(ts[1..], Push(ts[0], n).value))
  }

  /** isProtoNumberContinue */
  predicate NumberContinue(c: char) {
    '0' <= c <= '9' || c == '.' || c == 'x' || c == 'X' || 'a' <= c <= 'f' || 'A' <= c <= 'F'
  }

  function NumberLength(s: string): (n: nat)
    ensures n <= |s|
  {
    if s == "" || !NumberContinue(s[0]) then 0 else 1 + NumberLength(s[1..])
  }

  /** The input after the end of a block comment. */
  function AfterComment(s: string): (r: Option<string>)
    ensures r.Some? ==> |r.value| < |s|
  {
    if |s| < 2 then None
    else if s[0] == '*' && s[1] == '/' then Some(s[2..])
    else AfterComment(s[1..])
  }

  predicate IsPunct(c: char) {
    c in {'{', '}', '(', ')', '[', ']', '<', '>', ';', ':', '=', ',', '.', '/', '-'}
  }

  function Next(s: string): (p: Piece)
    requires s != ""
    ensures !p.Bad? ==> |p.rest| < |s|
  {
    if IsSpace(s[0]) then Blank(s[1..])
    else if "//" <= s then Blank(AfterLine(s[2..]))
    else if "/*" <= s then (match AfterComment(s[2..]) case None => Bad case Some(rest) => Blank(rest))
    else if NameStart(s[0]) then
      var n := 1 + NameLength(s[1..]);
      One(Token(Name, s[..n]), s[n..])
    else if '0' <= s[0] <= '9' then
      var n := 1 + NumberLength(s[1..]);
      One(Token(Number, s[..n]), s[n..])
    else if s[0] == '"' || s[0] == '\'' then
      (match ReadString(s[1..], s[0])
       case None => Bad
       case Some((text, rest)) => One(Token(Tokens.Kind.Text, text), rest))
    else if IsPunct(s[0]) then One(Token(Punct, s[..1]), s[1..])
    else Bad
  }

  /** lexProto */
  function Lex(s: string, n: Nesting): Option<seq<Token>>
    decreases |s|
  {
    if s == "" then Some([])
    else
      match Next(s)
      case Bad => None
      case Blank(rest) => Lex(rest, n)
      case One(t, rest) =>
        match Push(t, n)
        case None => None
        case Some(next) => Extend([t], Lex(rest, next))
  }

  // ---------------------------------------------------------------- the loop

  method ScanNumber(input: string, start: nat) returns (i: nat)
    requires start <= |input|
    ensures i == start + NumberLength(input[start..])
  {
    i := start;
    while i < |input| && NumberContinue(input[i])
      invariant start <= i <= |input| && i + NumberLength(input[i..]) == start + NumberLength(input[start..])
    {
      assert input[i..][1..] == input[i + 1..];
      i := i + 1;
    }
  }

  method FindCommentEnd(input: string, start: nat) returns (ok: bool, i: nat)
    requires start <= |input|
    ensures ok <==> AfterComment(input[start..]).Some?
    ensures ok ==> i <= |input| && AfterComment(input[start..]).value == input[i..]
  {
    i := start;
    while i + 1 < |input|
      invariant start <= i <= |input| && AfterComment(input[start..]) == AfterComment(input[i..])
    {
      assert input[i..][1..] == input[i + 1..] && input[i..][2..] == input[i + 2..];
      if input[i] == '*' && input[i + 1] == '/' {
        return true, i + 2;
      }
      i := i + 1;
    }
    return false, i;
  }

  /** One piece of the input, by the tests of the loop in order. */
  method Scan(input: string, start: nat) returns (p: Piece, i: nat)
    requires start < |input|
    ensures p == Next(input[start..])
    ensures !p.Bad? ==> start < i <= |input| && p.rest == input[i..]
  {
    hide AfterLine, AfterComment, ReadString, NameLength, NumberLength, IsPunct, NameStart, IsSpace;
    var s := input[start..];
    assert s[0] == input[start] && s[1..] == input[start + 1..];
    if IsSpace(input[start]) {
      return Blank(input[start + 1..]), start + 1;
    }
    if "//" <= s {
      assert s[2..] == input[start + 2..];
      i := SkipLine(input, start + 2);
      return Blank(input[i..]), i;
    }
    if "/*" <= s {
      assert s[2..] == input[start + 2..];
      var ok, end := FindCommentEnd(input, start + 2);
      if !ok {
        return Bad, start;
      }
      return Blank(input[end..]), end;
    }
    if NameStart(input[start]) {
      i := ScanName(input, start + 1);
      assert s[..i - start] == input[start..i] && s[i - start..] == input[i..];
      return One(Token(Name, input[start..i]), input[i..]), i;
    }
    if '0' <= input[start] <= '9' {
      i := ScanNumber(input, start + 1);
      assert s[..i - start] == input[start..i] && s[i - start..] == input[i..];
      return One(Token(Number, input[start..i]), input[i..]), i;
    }
    if input[start] == '"' || input[start] == '\'' {
      var ok, text, end := ScanString(input, start + 1, input[start]);
      if !ok {
        return Bad, start;
      }
      return One(Token(Tokens.Kind.Text, text), input[end..]), end;
    }
    if IsPunct(input[start]) {
      assert s[..1] == input[start..start + 1];
      return One(Token(Punct, input[start..start + 1]), input[start + 1..]), start + 1;
    }
    return Bad, start;
  }

  /** lexProto, with its token slice and depth counter. */
  method LexProto(input: string) returns (r: Option<seq<Token>>)
    ensures r == Lex(input, Start)
  {
    hide Next, Push;
    var tokens: seq<Token> := [];
    var n := Start;
    var i := 0;
    assert input[0..] == input;
    ExtendTwice([], [], Lex(input, n));
    while i < |input|
      invariant 0 <= i <= |input|
      invariant Lex(input, Start) == Extend(tokens, Lex(input[i..], n))
      decreases |input| - i
    {
      var p, end := Scan(input, i);
      if p.Bad? {
        return None;
      }
      if p.One? {
        var next := Push(p.token, n);
        if next.None? {
          return None;
        }
        ExtendTwice(tokens, [p.token], Lex(input[end..], next.value));
        tokens := tokens + [p.token];
        n := next.value;
      }
      i := end;
    }
    assert tokens + [] == tokens;
    return Some(tokens);
  }

  // ---------------------------------------------------------------- the inverse

  predicate IsNumber(s: string) {
    s != "" && '0' <= s[0] <= '9' && forall i :: 0 <= i < |s| ==> NumberContinue(s[i])
  }

  /** A token that the lexer can produce. */
  predicate Printable(t: Token) {
    match t.kind
    case Name => IsName(t.value)
    case Number => IsNumber(t.value)
    case Punct => |t.value| == 1 && IsPunct(t.value[0])
    case Text => true
  }

  predicate AllPrintable(ts: seq<Token>) {
    forall i :: 0 <= i < |ts| ==> Printable(ts[i])
  }

  function RenderToken(t: Token): string {
    if t.kind == Tokens.Kind.Text then "\"" + Quote(t.value) + "\"" else t.value
  }

  /** The tokens as text, each followed by a space. */
  function Render(ts: seq<Token>): string {
    if ts == [] then "" else RenderToken(ts[0]) + (" " + Render(ts[1..]))
  }

  lemma {:induction false} NumberEnds(s: string, tail: string)
    requires (forall i :: 0 <= i < |s| ==> NumberContinue(s[i])) && (tail != "" ==> !NumberContinue(tail[0]))
    ensures NumberLength(s + tail) == |s|
  {
    if s == "" {
      assert s + tail == tail;
    } else {
      assert (s + tail)[1..] == s[1..] + tail;
      NumberEnds(s[1..], tail);
    }
  }

  lemma NameRead(name: string, tail: string)
    requires IsName(name) && (tail != "" ==> tail[0] == ' ')
    ensures name != "" && Next(name + tail) == One(Token(Name, name), tail)
  {
    hide NameLength, NumberLength, ReadString, AfterLine, AfterComment;
    var s := name + tail;
    NameEnds(name[1..], tail);
    assert NameContinue(name[0]);
    assert s[1..] == name[1..] + tail;
    assert s[..|name|] == name && s[|name|..] == tail;
  }

  lemma NumberRead(number: string, tail: string)
    requires IsNumber(number) && (tail != "" ==> tail[0] == ' ')
    ensures number != "" && Next(number + tail) == One(Token(Number, number), tail)
  {
    hide NameLength, NumberLength, ReadString, AfterLine, AfterComment;
    var s := number + tail;
    NumberEnds(number[1..], tail);
    assert s[1..] == number[1..] + tail;
    assert s[..|number|] == number && s[|number|..] == tail;
  }

  lemma PunctRead(t: Token, tail: string)
    requires Printable(t) && t.kind.Punct? && (tail != "" ==> tail[0] == ' ')
    ensures t.value != "" && Next(t.value + tail) == One(t, tail)
  {
    hide NameLength, NumberLength, ReadString, AfterLine, AfterComment;
    var s := t.value + tail;
    assert s[..1] == t.value && s[1..] == tail;
    assert s[0] == t.value[0];
  }

  lemma TextRead(text: string, tail: string)
    requires tail != "" ==> tail[0] == ' '
    ensures Next("\"" + Quote(text) + "\"" + tail) == One(Token(Tokens.Kind.Text, text), tail)
  {
    hide NameLength, NumberLength, ReadString, AfterLine, AfterComment, Quote;
    var s := "\"" + Quote(text) + "\"" + tail;
    QuoteRead(text, tail);
    assert s == "\"" + (Quote(text) + ("\"" + tail));
    assert s[1..] == Quote(text) + ("\"" + tail);
  }

  /** A rendered token is read back, up to the space after it. */
  lemma TokenRead(t: Token, tail: string)
    requires Printable(t) && (tail != "" ==> tail[0] == ' ')
    ensures RenderToken(t) != "" && Next(RenderToken(t) + tail) == One(t, tail)
  {
    hide Next, Quote, IsName, IsNumber;
    match t.kind {
      case Name => NameRead(t.value, tail);
      case Number => NumberRead(t.value, tail);
      case Punct => PunctRead(t, tail);
      case Text => TextRead(t.value, tail);
    }
  }

  /** Lexing the rendering of printable tokens gives them back, exactly when they stay
      within the limits. */
  lemma {:induction false} LexRendered(ts: seq<Token>, n: Nesting)
    requires AllPrintable(ts)
    ensures Lex(Render(ts), n) == if Admitted(ts, n) then Some(ts) else None
    decreases |ts|
  {
    hide Next, Push, RenderToken, Printable;
    if ts != [] {
      var tail := " " + Render(ts[1..]);
      TokenRead(ts[0], tail);
      SpaceRead(Render(ts[1..]));
      if Push(ts[0], n).Some? {
        LexRendered(ts[1..], Push(ts[0], n).value);
        assert [ts[0]] + ts[1..] == ts;
      }
    }
  }

  lemma SpaceRead(rest: string)
    ensures Next(" " + rest) == Blank(rest)
  {
    assert (" " + rest)[1..] == rest;
  }

  lemma RenderMore(t: Token, ts: seq<Token>, n: Nesting)
    ensures Render([t] + ts) == RenderToken(t) + (" " + Render(ts))
    ensures Admitted([t] + ts, n) <==> Push(t, n).Some? && Admitted(ts, Push(t, n).value)
  {
    hide RenderToken, Push;
    assert ([t] + ts)[1..] == ts;
  }

  lemma RenderWord(t: Token, ts: seq<Token>, n: Nesting)
    requires t.kind != Tokens.Kind.Text
    ensures Render([t] + ts) == t.value + (" " + Render(ts))
    ensures Admitted([t] + ts, n) <==> Push(t, n).Some? && Admitted(ts, Push(t, n).value)
  {
    hide Render, Admitted, Push;
    RenderMore(t, ts, n);
  }

  lemma NothingLeft(n: Nesting)
    ensures Render([]) == "" && Admitted([], n)
  {
  }
}
