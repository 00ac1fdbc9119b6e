/** What the lexers of grpcproto/parse.go and graphql/parse.go share: names, quoted strings,
    comments to the end of the line, and the limits on tokens and nesting. */
module Lexing {
  import opened Tokens
  import opened Wrappers

  const MAX_WORK_ITEMS: nat := 100_000
  const MAX_NESTING_DEPTH: nat := 100

  /** How many tokens there were and how many brackets are open. */
  datatype Nesting = Nesting(count: nat, depth: nat)

  const Start := Nesting(0, 0)

  predicate NameStart(c: char) {
    c == '_' || 'A' <= c <= 'Z' || 'a' <= c <= 'z'
  }

  predicate NameContinue(c: char) {
    NameStart(c) || '0' <= c <= '9'
  }

  predicate IsName(s: string) {
    s != "" && NameStart(s[0]) && forall i :: 0 <= i < |s| ==> NameContinue(s[i])
  }

  function NameLength(s: string): (n: nat)
    ensures n <= |s|
  {
    if s == "" || !NameContinue(s[0]) then 0 else 1 + NameLength(s[1..])
  }

  /** The input from the end of the line on. */
  function AfterLine(s: string): (r: string)
    ensures |r| <= |s|
  {
    if s == "" || s[0] == '\n' || s[0] == '\r' then s else AfterLine(s[1..])
  }

  /** readProtoString, and readGraphQLString outside block strings, after its opening quote: the
      text and the rest of the input. */
  function ReadString(s: string, quote: char): (r: Option<(string, string)>)
    ensures r.Some? ==> |r.value.1| < |s|
  {
    if s == "" then None
    else if s[0] == '\\' then
      if |s| < 2 then None
      else WithText([s[1]], ReadString(s[2..], quote))
    else if s[0] == quote then Some(("", s[1..]))
    else WithText([s[0]], ReadString(s[1..], quote))
  }

  function WithText(text: string, r: Option<(string, string)>): (w: Option<(string, string)>)
    ensures w.Some? <==> r.Some?
    ensures w.Some? ==> w.value.1 == r.value.1
  {
    match r
    case None => None
    case Some((more, rest)) => Some((text + more, rest))
  }

  lemma WithTextTwice(a: string, b: string, r: Option<(string, string)>)
    ensures WithText(a, WithText(b, r)) == WithText(a + b, r)
    ensures WithText("", r) == r
  {
    if r.Some? {
      assert (a + b) + r.value.0 == a + (b + r.value.0);
      assert "" + r.value.0 == r.value.0;
    }
  }

  lemma JustText(text: string, rest: string)
    ensures WithText(text, Some(("", rest))) == Some((text, rest))
  {
    assert text + "" == text;
  }

  function Extend(ts: seq<Token>, r: Option<seq<Token>>): Option<seq<Token>> {
    match r
    case None => None
    case Some(more) => Some(ts + more)
  }

  lemma ExtendTwice(a: seq<Token>, b: seq<Token>, r: Option<seq<Token>>)
    ensures Extend(a, Extend(b, r)) == Extend(a + b, r)
    ensures Extend([], r) == r
  {
    if r.Some? {
      assert [] + r.value == r.value;
      assert (a + b) + r.value == a + (b + r.value);
    }
  }

  /** What the input starts with: nothing but space or a comment, a token, or neither. */
  datatype Piece = Blank(rest: string) | One(token: Token, rest: string) | Bad

  // ---------------------------------------------------------------- the loops

  method SkipLine(input: string, start: nat) returns (i: nat)
    requires start <= |input|
    ensures start <= i <= |input| && input[i..] == AfterLine(input[start..])
  {
    i := start;
    while i < |input| && input[i] != '\n' && input[i] != '\r'
      invariant start <= i <= |input| && AfterLine(input[start..]) == AfterLine(input[i..])
    {
      assert input[i..][1..] == input[i + 1..];
      i := i + 1;
    }
  }

  method ScanName(input: string, start: nat) returns (i: nat)
    requires start <= |input|
    ensures i == start + NameLength(input[start..])
  {
    i := start;
    while i < |input| && NameContinue(input[i])
      invariant start <= i <= |input| && i + NameLength(input[i..]) == start + NameLength(input[start..])
    {
      assert input[i..][1..] == input[i + 1..];
      i := i + 1;
    }
  }

  method ScanString(input: string, start: nat, quote: char) returns (ok: bool, text: string, i: nat)
    requires start <= |input|
    ensures ok <==> ReadString(input[start..], quote).Some?
    ensures ok ==> i <= |input| && ReadString(input[start..], quote).value == (text, input[i..])
  {
    hide WithText;
    text, i, ok := "", start, false;
    WithTextTwice("", "", ReadString(input[start..], quote));
    while i < |input|
      invariant start <= i <= |input|
      invariant ReadString(input[start..], quote) == WithText(text, ReadString(input[i..], quote))
    {
      assert input[i..][1..] == input[i + 1..];
      if input[i] == '\\' {
        if i + 1 >= |input| {
          return;
        }
        assert input[i..][2..] == input[i + 2..] && input[i..][1] == input[i + 1];
        WithTextTwice(text, [input[i + 1]], ReadString(input[i + 2..], quote));
        text := text + [input[i + 1]];
        i := i + 2;
        continue;
      }
      if input[i] == quote {
        JustText(text, input[i + 1..]);
        return true, text, i + 1;
      }
      WithTextTwice(text, [input[i]], ReadString(input[i + 1..], quote));
      text := text + [input[i]];
      i := i + 1;
    }
  }

  // ---------------------------------------------------------------- the inverse

  function Quote(s: string): string {
    if s == "" then "" else (if s[0] == '"' || s[0] == '\\' then ['\\', s[0]] else [s[0]]) + Quote(s[1..])
  }

  lemma {:induction false} NameEnds(s: string, tail: string)
    requires (forall i :: 0 <= i < |s| ==> NameContinue(s[i])) && (tail != "" ==> !NameContinue(tail[0]))
    ensures NameLength(s + tail) == |s|
  {
    if s == "" {
      assert s + tail == tail;
    } else {
      assert (s + tail)[1..] == s[1..] + tail;
      NameEnds(s[1..], tail);
    }
  }

  lemma {:induction false} QuoteRead(s: string, tail: string)
    ensures ReadString(Quote(s) + ("\"" + tail), '"') == Some((s, tail))
  {
    if s == "" {
      assert Quote(s) + ("\"" + tail) == "\"" + tail;
      assert ("\"" + tail)[1..] == tail;
    } else {
      QuoteRead(s[1..], tail);
      var rest := Quote(s[1..]) + ("\"" + tail);
      assert s == [s[0]] + s[1..];
      if s[0] == '"' || s[0] == '\\' {
        assert Quote(s) + ("\"" + tail) == ['\\', s[0]] + rest;
        assert (['\\', s[0]] + rest)[2..] == rest;
      } else {
        assert Quote(s) + ("\"" + tail) == [s[0]] + rest;
        assert ([s[0]] + rest)[1..] == rest;
      }
    }
  }
}
