/** String helpers shared by the parsers.  A Go string is a sequence of characters;
    white space is the ASCII white space that `strings.TrimSpace` strips. */
module Text {

  predicate IsSpace(c: char) {
    c == ' ' || '\t' <= c <= '\r'
  }

  function TrimLeft(s: string): (r: string)
    ensures |r| <= |s|
    ensures r != [] ==> !IsSpace(r[0])
  {
    if s != [] && IsSpace(s[0]) then TrimLeft(s[1..]) else s
  }

  /** Stated apart from the function, whose every use would otherwise slice its argument. */
  lemma {:induction false} TrimLeftSuffix(s: string)
    ensures TrimLeft(s) == s[|s| - |TrimLeft(s)|..]
  {
    if s != [] && IsSpace(s[0]) {
      TrimLeftSuffix(s[1..]);
    }
  }

  function TrimRight(s: string): (r: string)
    ensures r <= s
    ensures r != [] ==> !IsSpace(r[|r| - 1])
  {
    if s != [] && IsSpace(s[|s| - 1]) then TrimRight(s[..|s| - 1]) else s
  }

  /** strings.TrimSpace */
  function TrimSpace(s: string): (r: string)
    ensures r != [] ==> !IsSpace(r[0]) && !IsSpace(r[|r| - 1])
  {
    TrimRight(TrimLeft(s))
  }

  lemma TrimmedOf(s: string)
    ensures forall c <- TrimSpace(s) :: c in s
  {
    hide TrimLeft, TrimRight;
    var left := TrimLeft(s);
    TrimLeftSuffix(s);
    assert TrimRight(left) <= left;
  }

  /** A string that `TrimSpace` returns unchanged. */
  predicate Trimmed(s: string) {
    s != [] ==> !IsSpace(s[0]) && !IsSpace(s[|s| - 1])
  }

  lemma TrimSpaceFixes(s: string)
    requires Trimmed(s)
    ensures TrimSpace(s) == s
  {
  }

  lemma TrimSpaceIdempotent(s: string)
    ensures TrimSpace(TrimSpace(s)) == TrimSpace(s)
  {
    TrimSpaceFixes(TrimSpace(s));
  }

  /** strings.ToLower */
  function ToLower(s: string): string {
    seq(|s|, i requires 0 <= i < |s| => if 'A' <= s[i] <= 'Z' then (s[i] as int + 32) as char else s[i])
  }

  function TrimDotsLeft(s: string): string {
    if s != [] && s[0] == '.' then TrimDotsLeft(s[1..]) else s
  }

  function TrimDotsRight(s: string): string {
    if s != [] && s[|s| - 1] == '.' then TrimDotsRight(s[..|s| - 1]) else s
  }

  /** One part of joinName: white space stripped, then the dots at both ends. */
  function NamePart(s: string): string {
    TrimDotsRight(TrimDotsLeft(TrimSpace(s)))
  }

  /** joinName on two parts: empty parts drop out, the rest is joined by a dot. */
  function JoinName(a: string, b: string): string {
    var x, y := NamePart(a), NamePart(b);
    if x == "" then y else if y == "" then x else x + "." + y
  }

  /** normalizeTypeName: white space stripped, then one leading dot. */
  function NormalizeTypeName(s: string): string {
    var t := TrimSpace(s);
    if t != [] && t[0] == '.' then t[1..] else t
  }

  /** strings.Fields: the words between runs of white space. */
  function Fields(s: string): seq<string>
    decreases |s|
  {
    if s == "" then []
    else if IsSpace(s[0]) then Fields(s[1..])
    else
      var n := WordLength(s);
      [s[..n]] + Fields(s[n..])
  }

  function WordLength(s: string): (n: nat)
    ensures n <= |s| && (s != "" && !IsSpace(s[0]) ==> n > 0)
    ensures forall k :: 0 <= k < n ==> !IsSpace(s[k])
    ensures n < |s| ==> IsSpace(s[n])
  {
    if s == "" || IsSpace(s[0]) then 0 else 1 + WordLength(s[1..])
  }

  /** strings.Join */
  function Join(words: seq<string>, separator: string): string {
    if words == [] then ""
    else if |words| == 1 then words[0]
    else words[0] + separator + Join(words[1..], separator)
  }

  /** firstNonEmpty on two values. */
  function FirstNonEmpty(a: string, b: string): string {
    if TrimSpace(a) != "" then TrimSpace(a) else TrimSpace(b)
  }

  /** Decimal notation (fmt's %d on a count). */
  function Decimal(n: nat): (r: string)
    ensures r != "" && forall c <- r :: '0' <= c <= '9'
  {
    var digit := [('0' as int + n % 10) as char];
    if n < 10 then digit else Decimal(n / 10) + digit
  }

  lemma {:induction false} DecimalInjective(m: nat, n: nat)
    requires Decimal(m) == Decimal(n)
    ensures m == n
  {
    var a, b := Decimal(m), Decimal(n);
    assert a[|a| - 1] == ('0' as int + m % 10) as char;
    assert b[|b| - 1] == ('0' as int + n % 10) as char;
    if m >= 10 && n >= 10 {
      assert a[..|a| - 1] == Decimal(m / 10) && b[..|b| - 1] == Decimal(n / 10);
      DecimalInjective(m / 10, n / 10);
    }
  }

  /** A separator that occurs on neither side determines both sides. */
  lemma SplitUnique(a: string, b: string, c: string, d: string, separator: char)
    requires a + [separator] + b == c + [separator] + d
    requires separator !in a && separator !in b
    ensures a == c && b == d
  {
    var whole := a + [separator] + b;
    assert forall k :: 0 <= k < |whole| && k != |a| ==> whole[k] != separator by {
      assert forall k :: 0 <= k < |a| ==> whole[k] == a[k];
      assert forall k :: |a| < k < |whole| ==> whole[k] == b[k - |a| - 1];
    }
    assert whole[|c|] == separator;
    assert a == whole[..|a|] && c == whole[..|c|];
    assert b == whole[|a| + 1..] && d == whole[|c| + 1..];
  }

  /** The same for a separator that occurs in neither right side. */
  lemma SplitUniqueRight(a: string, b: string, c: string, d: string, separator: char)
    requires a + [separator] + b == c + [separator] + d
    requires separator !in b && separator !in d
    ensures a == c && b == d
  {
    var whole := a + [separator] + b;
    assert forall k :: |a| < k < |whole| ==> whole[k] == b[k - |a| - 1];
    assert forall k :: |c| < k < |whole| ==> whole[k] == d[k - |c| - 1];
    assert whole[|a|] == separator && whole[|c|] == separator;
    assert |a| == |c|;
    assert a == whole[..|a|] && c == whole[..|c|];
    assert b == whole[|a| + 1..] && d == whole[|c| + 1..];
  }
}
