/** Local references name every position of a document: the reader of JSON pointers (section 6 of
    RFC 6901) undoes their writing. */
module JsonPointers {
  import opened Json
  import opened Text
  import opened Wrappers
  import FinalNames
  import ProtoModel

  /** What stands at a list of keys, one object below the other. */
  function Reach(j: Json, keys: seq<string>): Option<Json>
    decreases |keys|
  {
    if keys == [] then Some(j)
    else if j.Obj? && keys[0] in j.fields then Reach(j.fields[keys[0]], keys[1..])
    else None
  }

  /** Percent signs escaped as in a URI fragment. */
  function PercentEncode(s: string): string {
    if s == "" then "" else (if s[0] == '%' then "%25" else [s[0]]) + PercentEncode(s[1..])
  }

  function EncodeKey(key: string): string {
    PercentEncode(ProtoModel.Escape(key))
  }

  function EncodeKeys(keys: seq<string>): seq<string> {
    if keys == [] then [] else [EncodeKey(keys[0])] + EncodeKeys(keys[1..])
  }

  /** The local reference to the position at `keys`. */
  function Pointer(keys: seq<string>): string {
    "#/" + Join(EncodeKeys(keys), "/")
  }

  // ---------------------------------------------------------------- one key

  lemma {:induction false} PercentDecoded(s: string)
    ensures PathUnescape(PercentEncode(s)) == Some(s)
  {
    if s != "" {
      PercentDecoded(s[1..]);
      var rest := PercentEncode(s[1..]);
      if s[0] == '%' {
        var e := PercentEncode(s);
        assert e == "%25" + rest && e[0] == '%' && e[1] == '2' && e[2] == '5' && e[3..] == rest;
        assert HexDigit('2') == 2 && HexDigit('5') == 5 && 37 as char == '%';
        assert ['%'] + s[1..] == s;
        assert PathUnescape(e) == Some(['%'] + s[1..]);
      } else {
        assert PercentEncode(s) == [s[0]] + rest && ([s[0]] + rest)[1..] == rest;
        assert [s[0]] + s[1..] == s;
        assert PathUnescape([s[0]] + rest) == Some([s[0]] + s[1..]);
      }
    }
  }

  /** Slashes are back, tildes are still escaped. */
  function HalfEscaped(s: string): string {
    if s == "" then "" else (if s[0] == '~' then "~0" else [s[0]]) + HalfEscaped(s[1..])
  }

  lemma PlainSkipped(c: char, s: string, digit: char, plain: char)
    requires c != '~'
    ensures ReplaceTilde([c] + s, digit, plain) == [c] + ReplaceTilde(s, digit, plain)
  {
    assert ([c] + s)[1..] == s;
  }

  lemma OtherSkipped(d: char, s: string, digit: char, plain: char)
    requires d != digit && d != '~'
    ensures ReplaceTilde(['~', d] + s, digit, plain) == ['~', d] + ReplaceTilde(s, digit, plain)
  {
    assert (['~', d] + s)[1..] == [d] + s;
    PlainSkipped(d, s, digit, plain);
  }

  lemma Replaced(s: string, digit: char, plain: char)
    ensures ReplaceTilde(['~', digit] + s, digit, plain) == [plain] + ReplaceTilde(s, digit, plain)
  {
    assert (['~', digit] + s)[2..] == s;
  }

  lemma {:induction false} SlashesBack(key: string)
    ensures ReplaceTilde(ProtoModel.Escape(key), '1', '/') == HalfEscaped(key)
  {
    if key != "" {
      SlashesBack(key[1..]);
      var rest := ProtoModel.Escape(key[1..]);
      if key[0] == '~' {
        assert "~0" == ['~', '0'];
        OtherSkipped('0', rest, '1', '/');
      } else if key[0] == '/' {
        assert "~1" == ['~', '1'];
        Replaced(rest, '1', '/');
      } else {
        PlainSkipped(key[0], rest, '1', '/');
      }
    }
  }

  lemma {:induction false} TildesBack(key: string)
    ensures ReplaceTilde(HalfEscaped(key), '0', '~') == key
  {
    if key != "" {
      TildesBack(key[1..]);
      var rest := HalfEscaped(key[1..]);
      if key[0] == '~' {
        assert "~0" == ['~', '0'];
        Replaced(rest, '0', '~');
      } else {
        PlainSkipped(key[0], rest, '0', '~');
      }
    }
  }

  // ---------------------------------------------------------------- the path

  lemma {:induction false} NoSlash(s: string)
    requires '/' !in s
    ensures '/' !in PercentEncode(s)
  {
    if s != "" {
      NoSlash(s[1..]);
    }
  }

  lemma {:induction false} SplitPlain(s: string, c: char)
    requires c !in s
    ensures Split(s, c) == [s]
  {
    if s != "" {
      SplitPlain(s[1..], c);
      assert s == [s[0]] + s[1..];
    }
  }

  lemma {:induction false} SplitOff(s: string, rest: string, c: char)
    requires c !in s
    ensures Split(s + [c] + rest, c) == [s] + Split(rest, c)
  {
    var all := s + [c] + rest;
    if s == "" {
      assert all[1..] == rest && all[0] == c;
    } else {
      assert all[1..] == s[1..] + [c] + rest && all[0] == s[0];
      SplitOff(s[1..], rest, c);
      assert s == [s[0]] + s[1..];
    }
  }

  lemma {:induction false} SplitEncoded(keys: seq<string>)
    requires keys != []
    ensures Split(Join(EncodeKeys(keys), "/"), '/') == EncodeKeys(keys)
  {
    hide ProtoModel.Escape, PercentEncode;
    var parts := EncodeKeys(keys);
    FinalNames.EscapedPlain(keys[0]);
    NoSlash(ProtoModel.Escape(keys[0]));
    if |keys| == 1 {
      assert keys[1..] == [];
      SplitPlain(parts[0], '/');
    } else {
      SplitEncoded(keys[1..]);
      var rest := Join(EncodeKeys(keys[1..]), "/");
      assert parts[1..] == EncodeKeys(keys[1..]) && |parts| > 1;
      assert Join(parts, "/") == parts[0] + ['/'] + rest;
      SplitOff(parts[0], rest, '/');
    }
  }

  lemma {:induction false} WalkReaches(j: Json, keys: seq<string>)
    ensures Walk(j, EncodeKeys(keys)) == (match Reach(j, keys) case None => map[] case Some(v) => MapValue(v))
    decreases |keys|
  {
    hide ProtoModel.Escape, PercentEncode, PathUnescape, ReplaceTilde, HalfEscaped;
    if keys != [] {
      var parts := EncodeKeys(keys);
      assert parts[0] == EncodeKey(keys[0]) && parts[1..] == EncodeKeys(keys[1..]);
      PercentDecoded(ProtoModel.Escape(keys[0]));
      SlashesBack(keys[0]);
      TildesBack(keys[0]);
      if j.Obj? && keys[0] in j.fields {
        WalkReaches(j.fields[keys[0]], keys[1..]);
      }
    }
  }

  /** The reference to any position finds the object there, and nothing when there is none. */
  lemma PointerFinds(root: Schema, keys: seq<string>)
    requires keys != []
    ensures IsLocal(Pointer(keys))
    ensures LocalObjectRef(root, Pointer(keys))
         == (match Reach(Obj(root), keys) case None => map[] case Some(v) => MapValue(v))
  {
    hide Walk, Split, Join, EncodeKeys, Reach;
    var ref := Pointer(keys);
    assert ref[..2] == "#/" && ref[2..] == Join(EncodeKeys(keys), "/");
    SplitEncoded(keys);
    WalkReaches(Obj(root), keys);
  }
}
