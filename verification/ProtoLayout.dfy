/** White space and comments between the tokens of .proto text make no difference. */
module ProtoLayout {
  import opened Lexing
  import opened ProtoLexer
  import opened Text
  import opened Tokens
  import opened Wrappers

  /** White space, a comment up to the end of its line, or a block comment. */
  datatype Gap = Space(c: char) | Line(text: string) | Comment(text: string)

  predicate OneLine(text: string) {
    '\n' !in text && '\r' !in text
  }

  /** The end of a comment does not stand in it. */
  predicate Inside(text: string) {
    forall i :: 0 <= i < |text| - 1 ==> !(text[i] == '*' && text[i + 1] == '/')
  }

  predicate GoodGap(g: Gap) {
    match g
    case Space(c) => IsSpace(c)
    case Line(text) => OneLine(text)
    case Comment(text) => Inside(text)
  }

  function GapText(g: Gap): string {
    match g
    case Space(c) => [c]
    case Line(text) => "//" + (text + "\n")
    case Comment(text) => "/*" + (text + "*/")
  }

  function GapsText(gs: seq<Gap>): string {
    if gs == [] then "" else GapText(gs[0]) + GapsText(gs[1..])
  }

  predicate GoodGaps(gs: seq<Gap>) {
    forall i :: 0 <= i < |gs| ==> GoodGap(gs[i])
  }

  /** Tokens as text, each followed by a space and what else stands before the next one. */
  function Laid(ts: seq<Token>, gaps: seq<seq<Gap>>): string
    requires |gaps| == |ts|
  {
    if ts == [] then "" else RenderToken(ts[0]) + (" " + (GapsText(gaps[0]) + Laid(ts[1..], gaps[1..])))
  }

  lemma {:induction false} LineSkipped(text: string, rest: string)
    requires OneLine(text)
    ensures AfterLine(text + ("\n" + rest)) == "\n" + rest
  {
    var s := text + ("\n" + rest);
    if text != "" {
      assert s[0] == text[0] && s[1..] == text[1..] + ("\n" + rest) && text[0] in text;
      LineSkipped(text[1..], rest);
    }
  }

  lemma {:induction false} CommentEnds(text: string, rest: string)
    requires Inside(text)
    ensures AfterComment(text + ("*/" + rest)) == Some(rest)
  {
    var s := text + ("*/" + rest);
    if text == "" {
      assert s == "*/" + rest && s[2..] == rest && s[0] == '*' && s[1] == '/';
    } else {
      assert s[0] == text[0] && s[1] == (if |text| > 1 then text[1] else '*');
      assert s[1..] == text[1..] + ("*/" + rest);
      CommentEnds(text[1..], rest);
    }
  }

  lemma BlankSkipped(c: char, rest: string, n: Nesting)
    requires IsSpace(c)
    ensures Lex([c] + rest, n) == Lex(rest, n)
  {
    assert ([c] + rest)[1..] == rest && ([c] + rest)[0] == c;
    assert Next([c] + rest) == Blank(rest);
  }

  lemma LineCommentSkipped(text: string, rest: string, n: Nesting)
    requires OneLine(text)
    ensures Lex("//" + (text + "\n") + rest, n) == Lex(rest, n)
  {
    var s := "//" + (text + "\n") + rest;
    assert s[0] == '/' && s[..2] == "//" && s[2..] == text + ("\n" + rest);
    LineSkipped(text, rest);
    assert Next(s) == Blank("\n" + rest);
    BlankSkipped('\n', rest, n);
    assert ['\n'] + rest == "\n" + rest;
  }

  lemma CommentSkipped(text: string, rest: string, n: Nesting)
    requires Inside(text)
    ensures Lex("/*" + (text + "*/") + rest, n) == Lex(rest, n)
  {
    var s := "/*" + (text + "*/") + rest;
    assert s[0] == '/' && s[1] == '*' && s[..2] == "/*" && s[2..] == text + ("*/" + rest);
    CommentEnds(text, rest);
    assert Next(s) == Blank(rest);
  }

  lemma {:induction false} GapsSkipped(gs: seq<Gap>, rest: string, n: Nesting)
    requires GoodGaps(gs)
    ensures Lex(GapsText(gs) + rest, n) == Lex(rest, n)
    decreases |gs|
  {
    hide Lex, GapText, GoodGap;
    if gs == [] {
      assert "" + rest == rest;
    } else {
      assert GapsText(gs) + rest == GapText(gs[0]) + (GapsText(gs[1..]) + rest);
      GapSkipped(gs[0], GapsText(gs[1..]) + rest, n);
      GapsSkipped(gs[1..], rest, n);
    }
  }

  lemma GapSkipped(g: Gap, rest: string, n: Nesting)
    requires GoodGap(g)
    ensures Lex(GapText(g) + rest, n) == Lex(rest, n)
  {
    hide Lex, OneLine, Inside;
    match g {
      case Space(c) => BlankSkipped(c, rest, n);
      case Line(text) => LineCommentSkipped(text, rest, n);
      case Comment(text) => CommentSkipped(text, rest, n);
    }
  }

  /** Lexing a file gives its tokens whatever its layout, exactly when they stay within the
      limits. */
  lemma {:induction false} LayoutIgnored(ts: seq<Token>, gaps: seq<seq<Gap>>, n: Nesting)
    requires AllPrintable(ts) && |gaps| == |ts| && forall i :: 0 <= i < |gaps| ==> GoodGaps(gaps[i])
    ensures Lex(Laid(ts, gaps), n) == if Admitted(ts, n) then Some(ts) else None
    decreases |ts|
  {
    hide Next, Push, RenderToken, Printable, GapsText, GoodGaps;
    if ts != [] {
      var rest := Laid(ts[1..], gaps[1..]);
      TokenRead(ts[0], " " + (GapsText(gaps[0]) + rest));
      var next := Push(ts[0], n);
      if next.Some? {
        SpaceSkipped(GapsText(gaps[0]) + rest, next.value);
        GapsSkipped(gaps[0], rest, next.value);
        LayoutIgnored(ts[1..], gaps[1..], next.value);
        assert [ts[0]] + ts[1..] == ts;
      }
    }
  }

  lemma SpaceSkipped(rest: string, n: Nesting)
    ensures Lex(" " + rest, n) == Lex(rest, n)
  {
    BlankSkipped(' ', rest, n);
    assert " " == [' '];
  }
}
