/** The names that providers of a catalog are found by. */
module CatalogNames {
  import opened Catalog
  import opened CatalogIndex
  import opened Ordering
  import opened Text
  import opened Wrappers

  lemma {:induction false} MatchFound(providers: seq<Provider>, key: string, p: Provider)
    requires p in providers && Matches(p, key)
    requires forall q <- providers :: Matches(q, key) ==> q == p
    ensures FirstMatch(providers, key) == Some(p)
    decreases |providers|
  {
    hide Matches;
    assert providers[0] in providers;
    if !Matches(providers[0], key) {
      assert p in providers[1..];
      MatchFound(providers[1..], key, p);
    }
  }

  /** Every provider of a valid catalog is found by its ID, its display name and each of its
      aliases. */
  lemma NamesFind(providers: seq<Provider>, p: Provider, name: string)
    requires ValidProviders(providers) && p in providers
    requires (name == p.id || name == p.displayName || name in p.aliases) && NormalizeKey(name) != ""
    ensures LinearFind(providers, name) == Some(p)
  {
    hide LookupKeys, NormalizeKey, ValidProvider, SortBy;
    var key, sorted := NormalizeKey(name), SortProviders(providers);
    NameMatches(p, name);
    SortBySorts(ProviderKey, providers);
    assert forall q :: q in sorted <==> q in multiset(sorted);
    assert forall q :: q in providers <==> q in multiset(providers);
    forall q <- sorted | Matches(q, key) ensures q == p {
      var i :| 0 <= i < |providers| && providers[i] == q;
      var j :| 0 <= j < |providers| && providers[j] == p;
      MatchUnique(providers, i, j, key);
    }
    MatchFound(sorted, key, p);
  }

  lemma NameMatches(p: Provider, name: string)
    requires (name == p.id || name == p.displayName || name in p.aliases) && NormalizeKey(name) != ""
    ensures Matches(p, NormalizeKey(name))
  {
    hide NormalizeKey;
    assert name in [p.id, p.displayName] + p.aliases;
  }

  // ---------------------------------------------------------------- spelling

  lemma {:induction false} LowerTrimLeft(s: string)
    ensures TrimLeft(ToLower(s)) == ToLower(TrimLeft(s))
  {
    if s != "" && IsSpace(s[0]) {
      assert ToLower(s)[1..] == ToLower(s[1..]);
      LowerTrimLeft(s[1..]);
    } else if s != "" {
      assert !IsSpace(ToLower(s)[0]);
    }
  }

  lemma {:induction false} LowerTrimRight(s: string)
    ensures TrimRight(ToLower(s)) == ToLower(TrimRight(s))
  {
    if s != "" && IsSpace(s[|s| - 1]) {
      assert ToLower(s)[..|s| - 1] == ToLower(s[..|s| - 1]);
      LowerTrimRight(s[..|s| - 1]);
    } else if s != "" {
      assert !IsSpace(ToLower(s)[|s| - 1]);
    }
  }

  lemma LowerTrim(s: string)
    ensures TrimSpace(ToLower(s)) == ToLower(TrimSpace(s))
  {
    hide TrimLeft, TrimRight, ToLower;
    LowerTrimLeft(s);
    LowerTrimRight(TrimLeft(s));
  }

  lemma {:induction false} TrimLeftFields(s: string)
    ensures Fields(TrimLeft(s)) == Fields(s)
  {
    if s != "" && IsSpace(s[0]) {
      TrimLeftFields(s[1..]);
    }
  }

  lemma {:induction false} SpaceAfterWord(s: string, c: char)
    requires IsSpace(c)
    ensures WordLength(s + [c]) == WordLength(s)
  {
    if s != "" && !IsSpace(s[0]) {
      assert (s + [c])[1..] == s[1..] + [c];
      SpaceAfterWord(s[1..], c);
    }
  }

  lemma {:induction false} SpaceAtEnd(s: string, c: char)
    requires IsSpace(c)
    ensures Fields(s + [c]) == Fields(s)
    decreases |s|
  {
    if s == "" {
      assert ([] + [c])[1..] == "";
      assert Fields([c]) == Fields("");
    } else if IsSpace(s[0]) {
      assert (s + [c])[1..] == s[1..] + [c];
      SpaceAtEnd(s[1..], c);
    } else {
      SpaceAfterWord(s, c);
      var n := WordLength(s);
      assert (s + [c])[..n] == s[..n] && (s + [c])[n..] == s[n..] + [c];
      SpaceAtEnd(s[n..], c);
    }
  }

  lemma {:induction false} TrimRightFields(s: string)
    ensures Fields(TrimRight(s)) == Fields(s)
  {
    if s != "" && IsSpace(s[|s| - 1]) {
      assert s == s[..|s| - 1] + [s[|s| - 1]];
      SpaceAtEnd(s[..|s| - 1], s[|s| - 1]);
      TrimRightFields(s[..|s| - 1]);
    }
  }

  lemma KeyOfWords(key: string)
    ensures NormalizeKey(key) == Join(Fields(ToLower(key)), "-")
  {
    hide TrimLeft, TrimRight, ToLower, Fields, Join;
    LowerTrim(key);
    TrimLeftFields(ToLower(key));
    TrimRightFields(TrimLeft(ToLower(key)));
  }

  /** Two keys find the same provider when they have the same words, whatever the white space
      between and around them and however their letters are written. */
  lemma SpellingIgnored(providers: seq<Provider>, a: string, b: string)
    requires Fields(ToLower(a)) == Fields(ToLower(b))
    ensures LinearFind(providers, a) == LinearFind(providers, b)
  {
    hide TrimSpace, ToLower, Fields, Join, NormalizeKey, FirstMatch, SortProviders;
    KeyOfWords(a);
    KeyOfWords(b);
  }
}
