/** White space, commas and comments between the tokens of a GraphQL document make no difference,
    and block strings are read as they are written. */
module GraphQLLayout {
  import opened GraphQLLexer
  import opened Lexing
  import opened Text
  import opened Tokens
  import opened Wrappers

  datatype Gap = Space(c: char) | Comma | Comment(text: string)

  predicate OneLine(text: string) {
    '\n' !in text && '\r' !in text
  }

  predicate GoodGap(g: Gap) {
    (g.Space? ==> IsSpace(g.c)) && (g.Comment? ==> OneLine(g.text))
  }

  function GapText(g: Gap): string {
    match g
    case Space(c) => [c]
    case Comma => ","
    case Comment(text) => "#" + (text + "\n")
  }

  function GapsText(gs: seq<Gap>): string {
    if gs == [] then "" else GapText(gs[0]) + GapsText(gs[1..])
  }

  predicate GoodGaps(gs: seq<Gap>) {
    forall i :: 0 <= i < |gs| ==> GoodGap(gs[i])
  }

  /** Tokens as text, each followed by a space and what else stands before the next one. */
  function Laid(ts: seq<Token>, gaps: seq<seq<Gap>>): string
    requires |gaps| == |ts|
  {
    if ts == [] then "" else RenderToken(ts[0]) + (" " + (GapsText(gaps[0]) + Laid(ts[1..], gaps[1..])))
  }

  lemma {:induction false} LineSkipped(text: string, rest: string)
    requires OneLine(text)
    ensures AfterLine(text + ("\n" + rest)) == "\n" + rest
  {
    var s := text + ("\n" + rest);
    if text != "" {
      assert s[0] == text[0] && s[1..] == text[1..] + ("\n" + rest) && text[0] in text;
      LineSkipped(text[1..], rest);
    }
  }

  lemma BlankSkipped(c: char, rest: string, n: Nesting)
    requires IsSpace(c) || c == ','
    ensures Lex([c] + rest, n) == Lex(rest, n)
  {
    assert ([c] + rest)[1..] == rest && ([c] + rest)[0] == c;
    assert Next([c] + rest) == Blank(rest);
  }

  lemma CommentSkipped(text: string, rest: string, n: Nesting)
    requires OneLine(text)
    ensures Lex("#" + (text + "\n") + rest, n) == Lex(rest, n)
  {
    var s := "#" + (text + "\n") + rest;
    assert s[0] == '#' && s[1..] == text + ("\n" + rest);
    LineSkipped(text, rest);
    assert Next(s) == Blank("\n" + rest);
    BlankSkipped('\n', rest, n);
    assert ['\n'] + rest == "\n" + rest;
  }

  lemma {:induction false} GapsSkipped(gs: seq<Gap>, rest: string, n: Nesting)
    requires GoodGaps(gs)
    ensures Lex(GapsText(gs) + rest, n) == Lex(rest, n)
    decreases |gs|
  {
    hide Lex, GapText, GoodGap;
    if gs == [] {
      assert "" + rest == rest;
    } else {
      assert GapsText(gs) + rest == GapText(gs[0]) + (GapsText(gs[1..]) + rest);
      GapSkipped(gs[0], GapsText(gs[1..]) + rest, n);
      GapsSkipped(gs[1..], rest, n);
    }
  }

  lemma GapSkipped(g: Gap, rest: string, n: Nesting)
    requires GoodGap(g)
    ensures Lex(GapText(g) + rest, n) == Lex(rest, n)
  {
    hide Lex, OneLine;
    match g {
      case Space(c) => BlankSkipped(c, rest, n);
      case Comma =>
        BlankSkipped(',', rest, n);
        assert "," == [','];
      case Comment(text) => CommentSkipped(text, rest, n);
    }
  }

  /** Lexing a document gives its tokens whatever its layout, exactly when they stay within the
      limits. */
  lemma {:induction false} LayoutIgnored(ts: seq<Token>, gaps: seq<seq<Gap>>, n: Nesting)
    requires AllPrintable(ts) && |gaps| == |ts| && forall i :: 0 <= i < |gaps| ==> GoodGaps(gaps[i])
    ensures Lex(Laid(ts, gaps), n) == if Admitted(ts, n) then Some(ts) else None
    decreases |ts|
  {
    hide Next, Push, RenderToken, Printable, GapsText, GoodGaps;
    if ts != [] {
      var rest := Laid(ts[1..], gaps[1..]);
      var tail := " " + (GapsText(gaps[0]) + rest);
      TokenRead(ts[0], tail);
      var next := Push(ts[0], n);
      if next.Some? {
        SpaceSkipped(GapsText(gaps[0]) + rest, next.value);
        GapsSkipped(gaps[0], rest, next.value);
        LayoutIgnored(ts[1..], gaps[1..], next.value);
        assert [ts[0]] + ts[1..] == ts;
      }
    }
  }

  lemma SpaceSkipped(rest: string, n: Nesting)
    ensures Lex(" " + rest, n) == Lex(rest, n)
  {
    BlankSkipped(' ', rest, n);
    assert " " == [' '];
  }

  // ---------------------------------------------------------------- block strings

  /** The quotes that end a block string do not stand in it, nor start in it. */
  predicate GoodBlockText(text: string) {
    forall i :: 0 <= i < |text| ==> !(QUOTES <= text[i..] + QUOTES)
  }

  lemma {:induction false} BlockRead(text: string, rest: string)
    requires GoodBlockText(text)
    ensures ReadBlock(text + QUOTES + rest) == Some((text, rest))
    decreases |text|
  {
    var quotes := QUOTES;
    var s := text + quotes + rest;
    if text == "" {
      assert s == quotes + rest && s[..3] == quotes && s[3..] == rest;
    } else {
      assert text[0..] == text;
      assert s[..3] == (text + quotes)[..3];
      assert !(quotes <= s);
      assert s[1..] == text[1..] + quotes + rest && s[0] == text[0];
      forall i | 0 <= i < |text[1..]| ensures !(quotes <= text[1..][i..] + quotes) {
        assert text[1..][i..] == text[i + 1..];
      }
      BlockRead(text[1..], rest);
      assert [text[0]] + text[1..] == text;
    }
  }

  /** A block string is one token: its text without the white space around it. */
  lemma BlockStringRead(text: string, rest: string)
    requires GoodBlockText(text)
    ensures (var s := QUOTES + text + QUOTES + rest;
             Next(s) == One(Token(Kind.Text, TrimSpace(text)), rest))
  {
    hide TrimSpace, ReadBlock, ReadString, AfterLine;
    var quotes := QUOTES;
    var s := quotes + text + quotes + rest;
    BlockRead(text, rest);
    assert s[..3] == quotes && s[3..] == text + quotes + rest && s[0] == '"';
  }
}
