/** Parsing the tokens of a document returns its definitions and its operations. */
module OperationProofs {
  import opened GraphQLLexer
  import opened GraphQLModel
  import opened GraphQLProofs
  import opened GraphQLSource
  import opened GraphQLSpec
  import opened Lexing
  import opened OperationIDs
  import opened OperationSource
  import opened Text
  import opened Tokens
  import opened Wrappers

  // ---------------------------------------------------------------- blocks and directives

  /** A block with nested brackets is skipped exactly; where there is none, nothing is. */
  lemma BlockSkipped(open: string, tokens: Option<seq<Token>>, close: string, c: Cursor)
    requires GoodBlock(open, tokens, close) && open != close && (tokens.None? ==> !c.At(open))
    ensures SkipBalanced(Before(Enclosed(open, tokens, close), c), open, close) == c
  {
    hide Closed, Close;
    if tokens.None? {
      BeforeNone(c);
    } else {
      BeforeCons(P(open), tokens.value + [P(close)], c);
      ClosesAfter(tokens.value, open, P(close), 0, c);
    }
  }

  /** Nothing that would continue a selection. */
  predicate Calm(c: Cursor) {
    !c.At("(") && !c.At("@") && !c.At("{") && !c.At(":")
  }

  lemma {:induction false} DirectivesSkipped(ds: seq<DirectiveSrc>, c: Cursor)
    requires GoodDirectives(ds) && !c.At("@") && !c.At("(")
    ensures SkipDirectives(Before(DirectivesTokens(ds), c)) == c
    ensures !Before(DirectivesTokens(ds), c).At("(")
    ensures ds != [] ==> Before(DirectivesTokens(ds), c).At("@")
    decreases |ds|
  {
    hide IsName, SkipBalanced, GoodBlock, Enclosed, Before, SkipDirectives;
    if ds == [] {
      BeforeNone(c);
      NoneSkipped(c);
    } else {
      var rest := DirectivesTokens(ds[1..]);
      var after := Before(rest, c);
      DirectivesSkipped(ds[1..], c);
      BeforeJoin(DirectiveTokens(ds[0]), rest, c);
      DirectiveSkipped(ds[0], after);
    }
  }

  lemma NoneSkipped(c: Cursor)
    requires !c.At("@")
    ensures SkipDirectives(c) == c
  {
  }

  lemma DirectiveSkipped(d: DirectiveSrc, c: Cursor)
    requires IsName(d.name) && GoodBlock("(", d.args, ")") && !c.At("(")
    ensures (var b := Before(DirectiveTokens(d), c); b.At("@") && SkipDirectives(b) == SkipDirectives(c))
  {
    hide IsName, SkipBalanced, GoodBlock, Enclosed;
    var block := Enclosed("(", d.args, ")");
    BeforeCons(P("@"), [N(d.name)] + block, c);
    NameEndsType(d.name, block, c);
    BlockSkipped("(", d.args, ")", c);
  }

  // ---------------------------------------------------------------- variables

  predicate EndsValue(c: Cursor) {
    c.At(")") || c.At("@")
  }

  lemma DefaultEnds(c: Cursor)
    requires EndsValue(c)
    ensures DefaultValue(c, 0) == ("", c)
  {
  }

  /** The dollar sign of the next variable is taken into the value. */
  lemma DollarTaken(name: string, tail: seq<Token>, c: Cursor)
    requires IsName(name)
    ensures (var rest := [N(name)] + ([P(":")] + tail);
             DefaultValue(Before([P("$")] + rest, c), 0) == ("$", Before(rest, c)))
  {
    hide IsName;
    var rest := [N(name)] + ([P(":")] + tail);
    BeforeCons(P("$"), rest, c);
    BeforeCons(N(name), [P(":")] + tail, c);
    BeforeCons(P(":"), tail, c);
    var b := Before(rest, c);
    assert EndsDefault(b);
    assert DefaultValue(b, 0) == ("", b);
    assert "$" + "" == "$";
  }

  lemma {:induction false} DefaultRead(tokens: seq<Token>, depth: nat, c: Cursor)
    requires IsValue(tokens, depth) && !c.At(":")
    ensures (var (more, end) := DefaultValue(c, 0);
             DefaultValue(Before(tokens, c), depth) == (Values(tokens) + more, end))
    decreases |tokens|
  {
    var (more, end) := DefaultValue(c, 0);
    if tokens == [] {
      BeforeNone(c);
      assert "" + more == more;
    } else {
      var t := tokens[0];
      assert tokens == [t] + tokens[1..];
      BeforeCons(t, tokens[1..], c);
      var next := if t.value in {"[", "{", "("} then depth + 1
                  else if t.value in {"]", "}", ")"} then depth - 1 else depth;
      DefaultRead(tokens[1..], next, c);
      SecondToken(tokens, c);
      ValueStep(Before(tokens, c), depth, next);
      assert t.value + (Values(tokens[1..]) + more) == Values(tokens) + more;
    }
  }

  lemma SecondToken(tokens: seq<Token>, c: Cursor)
    requires tokens != [] && !c.At(":")
    ensures Before(tokens, c).Next().At(":") <==> |tokens| > 1 && tokens[1].value == ":"
  {
    assert (tokens + c.rest)[1..] == tokens[1..] + c.rest;
  }

  lemma ValueStep(c: Cursor, depth: nat, next: nat)
    requires c.rest != [] && !(depth == 0 && EndsDefault(c))
    requires c.rest[0].value in {"]", "}", ")"} ==> depth > 0
    requires next == (if c.rest[0].value in {"[", "{", "("} then depth + 1
                      else if c.rest[0].value in {"]", "}", ")"} then depth - 1 else depth)
    ensures DefaultValue(c, depth)
         == (c.rest[0].value + DefaultValue(c.Next(), next).0, DefaultValue(c.Next(), next).1)
  {
  }

  /** Where the list of variables goes on after one of them: at its end, or at the next one. */
  function Following(vs: seq<VarSrc>, c: Cursor): Cursor {
    Before(VarsTokens(vs) + [P(")")], c)
  }

  lemma FollowingStarts(vs: seq<VarSrc>, c: Cursor)
    requires GoodVars(vs)
    ensures (var b := Following(vs, c);
             && !b.At("!") && !b.At("=") && !b.At("@") && !b.At("(") && !b.At(":")
             && if vs == [] then b.At(")") && b.Next() == c
                else b.At("$") && b.Next() == Before(VarTokens(vs[0]) + (VarsTokens(vs[1..]) + [P(")")]), c))
  {
    hide VarTokens, GoodVar;
    if vs == [] {
      BeforeOne(P(")"), c);
      assert VarsTokens(vs) + [P(")")] == [P(")")];
    } else {
      var rest := VarTokens(vs[0]) + (VarsTokens(vs[1..]) + [P(")")]);
      assert VarsTokens(vs) + [P(")")] == [P("$")] + rest;
      BeforeCons(P("$"), rest, c);
    }
  }

  /** The text of a default value, and where the parser is after it. */
  lemma DefaultParsed(v: VarSrc, vs: seq<VarSrc>, c: Cursor)
    requires GoodVar(v) && GoodVars(vs) && v.default.Some?
    ensures (var at := Before(DirectivesTokens(v.directives), Following(vs, c));
             var (text, end) := DefaultValue(Before(v.default.value, at), 0);
             && text == DefaultText(v, vs == [])
             && SkipDirectives(end) == if v.directives == [] && vs != [] then Following(vs, c).Next()
                                       else Following(vs, c))
  {
    hide IsValue, DefaultValue, DirectivesTokens, SkipDirectives, Following, Values, GoodVars, ReadableType,
         AllPrintable;
    var next := Following(vs, c);
    var at := Before(DirectivesTokens(v.directives), next);
    FollowingStarts(vs, c);
    DirectivesSkipped(v.directives, next);
    if v.directives == [] {
      BeforeNone(next);
      assert DirectivesTokens(v.directives) == [] by { NoDirectiveTokens(); }
      if vs == [] {
        DefaultEnds(next);
      } else {
        NextVariable(vs, c);
      }
    } else {
      DefaultEnds(at);
    }
    NotColon(at);
    DefaultRead(v.default.value, 0, at);
    assert Values(v.default.value) + "" == Values(v.default.value);
  }

  lemma NotColon(c: Cursor)
    requires c.At("@") || !c.At(":")
    ensures !c.At(":")
  {
  }

  lemma NoDirectiveTokens()
    ensures DirectivesTokens([]) == []
  {
  }

  lemma NextVariable(vs: seq<VarSrc>, c: Cursor)
    requires GoodVars(vs) && vs != []
    ensures DefaultValue(Following(vs, c), 0) == ("$", Following(vs, c).Next())
    ensures SkipDirectives(Following(vs, c).Next()) == Following(vs, c).Next()
  {
    hide DefaultValue, TypeTokens, DefaultTokens, DirectivesTokens, IsName, ReadableType, GoodDirectives, IsValue,
         AllPrintable;
    var v := vs[0];
    var typed := TypeTokens(v.typ) + (DefaultTokens(v.default) + DirectivesTokens(v.directives));
    var others := VarsTokens(vs[1..]) + [P(")")];
    var rest := [N(v.name)] + ([P(":")] + (typed + others));
    assert VarTokens(v) + others == rest;
    assert VarsTokens(vs) + [P(")")] == [P("$")] + rest;
    DollarTaken(v.name, typed + others, c);
    BeforeCons(P("$"), rest, c);
    NameEndsType(v.name, [P(":")] + (typed + others), c);
  }

  /** The type of a variable, up to what follows it. */
  lemma TypeBefore(t: TypeExpr, tail: seq<Token>, c: Cursor)
    requires ReadableType(t) && !Before(tail, c).At("!")
    ensures (var b := Before([P(":")] + (TypeTokens(t) + tail), c);
             b.At(":") && ParseTypeRef(b.Next(), 0) == (RefOf(t), Before(tail, c)) && RefOf(t).required == t.NonNull?)
  {
    hide ParseTypeRef, TypeTokens, RefOf, ReadableType, GoodType, Before;
    ReadableGood(t);
    BeforeCons(P(":"), TypeTokens(t) + tail, c);
    BeforeJoin(TypeTokens(t), tail, c);
    TypeParsed(t, 0, Before(tail, c));
  }

  /** A variable after its name. */
  lemma VariableParsed(v: VarSrc, vs: seq<VarSrc>, c: Cursor)
    requires GoodVar(v) && GoodVars(vs)
    ensures (var next := Following(vs, c);
             ArgumentRest(Before([P(":")] + (TypeTokens(v.typ)
                                             + (DefaultTokens(v.default) + DirectivesTokens(v.directives))), next),
                          v.name, "")
             == (VarMeaning(v, vs == []),
                 if v.default.Some? && v.directives == [] && vs != [] then next.Next() else next))
  {
    hide ParseTypeRef, TypeTokens, RefOf, DefaultValue, SkipDirectives, ReadableType, GoodType, Following, IsValue,
         DirectivesTokens, GoodDirectives, GoodVars, Values, AllPrintable, Before;
    var next := Following(vs, c);
    var tail := DefaultTokens(v.default) + DirectivesTokens(v.directives);
    var at := Before(DirectivesTokens(v.directives), next);
    FollowingStarts(vs, c);
    DirectivesSkipped(v.directives, next);
    BeforeJoin(DefaultTokens(v.default), DirectivesTokens(v.directives), next);
    if v.directives == [] {
      BeforeNone(next);
      NoDirectiveTokens();
    }
    if v.default.Some? {
      BeforeCons(P("="), v.default.value, at);
      DefaultParsed(v, vs, c);
    } else {
      BeforeNone(at);
    }
    TypeBefore(v.typ, tail, next);
  }

  lemma {:induction false} VariablesParsed(vs: seq<VarSrc>, found: seq<Argument>, c: Cursor)
    requires GoodVars(vs)
    ensures Arguments(Following(vs, c), found, true) == (found + VarsMeaning(vs), c)
    decreases |vs|, 1
  {
    hide GoodVar, VarTokens, VarMeaning, Following, Arguments, Before;
    FollowingStarts(vs, c);
    if vs == [] {
      ListEnds(Following(vs, c), found);
      assert found + VarsMeaning(vs) == found;
    } else {
      DollarSkipped(vs, found, c);
      VariableStep(vs, found, c);
    }
  }

  lemma ListEnds(c: Cursor, found: seq<Argument>)
    requires c.At(")")
    ensures Arguments(c, found, true) == (found, c.Next())
  {
  }

  lemma DollarSkipped(vs: seq<VarSrc>, found: seq<Argument>, c: Cursor)
    requires GoodVars(vs) && vs != []
    ensures Arguments(Following(vs, c), found, true) == Arguments(Following(vs, c).Next(), found, true)
  {
    hide GoodVar, VarTokens, ArgumentRest, Following;
    FollowingStarts(vs, c);
    NameFirst(vs, c);
  }

  lemma NameFirst(vs: seq<VarSrc>, c: Cursor)
    requires GoodVars(vs) && vs != []
    ensures (var v := vs[0];
             var b := Following(vs, c).Next();
             && b.NameHere() == v.name != "" && !b.At("$") && !b.At(")") && !b.Done()
             && b.AfterName() == Before([P(":")] + (TypeTokens(v.typ) + (DefaultTokens(v.default)
                                                    + DirectivesTokens(v.directives))), Following(vs[1..], c)))
  {
    hide IsName, TypeTokens, DefaultTokens, DirectivesTokens, ReadableType, GoodDirectives, IsValue, Before,
         AllPrintable;
    var v := vs[0];
    var tail := [P(":")] + (TypeTokens(v.typ) + (DefaultTokens(v.default) + DirectivesTokens(v.directives)));
    var others := VarsTokens(vs[1..]) + [P(")")];
    FollowingStarts(vs, c);
    BeforeJoin(VarTokens(v), others, c);
    NameEndsType(v.name, tail, Following(vs[1..], c));
    NotDollar(v.name);
  }

  lemma NotDollar(name: string)
    requires IsName(name)
    ensures name != "$"
  {
  }

  /** From the name of a variable on. */
  lemma {:induction false} VariableStep(vs: seq<VarSrc>, found: seq<Argument>, c: Cursor)
    requires GoodVars(vs) && vs != []
    ensures Arguments(Following(vs, c).Next(), found, true) == (found + VarsMeaning(vs), c)
    decreases |vs|, 0
  {
    hide GoodVar, ArgumentRest, VarMeaning, Following, TypeTokens, DefaultTokens, DirectivesTokens, Before;
    var v, others := vs[0], vs[1..];
    NameFirst(vs, c);
    VariableParsed(v, others, c);
    var next := found + [VarMeaning(v, others == [])];
    assert next + VarsMeaning(others) == found + VarsMeaning(vs);
    VariablesParsed(others, next, c);
    if others != [] {
      VariableStep(others, next, c);
    }
  }

  // ---------------------------------------------------------------- selections

  lemma SelectionStarts(s: SelectionSrc, c: Cursor)
    requires GoodSelection(s)
    ensures (var b := Before(SelectionTokens(s), c); Calm(b) && !b.At("}") && !b.Done())
  {
    hide IsName, DirectivesTokens, Enclosed, Block, GoodBlock, GoodDirectives;
    match s {
      case FieldSel(alias, name, args, directives, body) =>
        var rest := Enclosed("(", args, ")") + (DirectivesTokens(directives) + Enclosed("{", body, "}"));
        if alias.None? {
          assert SelectionTokens(s) == [N(name)] + rest;
          BeforeCons(N(name), rest, c);
          NotPunct(name);
        } else {
          assert SelectionTokens(s) == [N(alias.value)] + ([P(":")] + ([N(name)] + rest));
          BeforeCons(N(alias.value), [P(":")] + ([N(name)] + rest), c);
          NotPunct(alias.value);
        }
      case Spread(fragment, directives) => BeforeCons(P("..."), [N(fragment)] + DirectivesTokens(directives), c);
      case Inline(condition, directives, inner) =>
        BeforeCons(P("..."), [N("on")] + ([N(condition)] + (DirectivesTokens(directives) + Block(inner))), c);
    }
  }

  /** What stands after the name of a field is skipped. */
  lemma TailSkipped(args: Option<seq<Token>>, directives: seq<DirectiveSrc>, body: Option<seq<Token>>, c: Cursor)
    requires GoodBlock("(", args, ")") && GoodDirectives(directives) && GoodBlock("{", body, "}") && Calm(c)
    ensures (var b := Before(Enclosed("(", args, ")")
                             + (DirectivesTokens(directives) + Enclosed("{", body, "}")), c);
             !b.At(":") && SkipBalanced(SkipDirectives(SkipBalanced(b, "(", ")")), "{", "}") == c)
  {
    hide SkipBalanced, SkipDirectives, GoodBlock, GoodDirectives, DirectivesTokens, Before;
    var block := Before(Enclosed("{", body, "}"), c);
    BeforeJoin(Enclosed("(", args, ")"), DirectivesTokens(directives) + Enclosed("{", body, "}"), c);
    BeforeJoin(DirectivesTokens(directives), Enclosed("{", body, "}"), c);
    BlockFirst("{", body, "}", c);
    BlockFirst("(", args, ")", Before(DirectivesTokens(directives), block));
    DirectivesSkipped(directives, block);
    if directives == [] {
      NoDirectiveTokens();
      BeforeNone(block);
    }
    BlockSkipped("(", args, ")", Before(DirectivesTokens(directives), block));
    BlockSkipped("{", body, "}", c);
  }

  lemma BlockFirst(open: string, tokens: Option<seq<Token>>, close: string, c: Cursor)
    ensures (var b := Before(Enclosed(open, tokens, close), c);
             if tokens.None? then b == c else b.At(open))
  {
    if tokens.None? {
      BeforeNone(c);
    } else {
      BeforeCons(P(open), tokens.value + [P(close)], c);
    }
  }

  lemma FieldSelected(s: SelectionSrc, names: seq<string>, c: Cursor)
    requires s.FieldSel? && GoodSelection(s) && Calm(c)
    ensures Selections(Before(SelectionTokens(s), c), names) == Selections(c, Add(names, s.name))
  {
    hide IsName, DirectivesTokens, Enclosed, GoodBlock, GoodDirectives, SkipBalanced, SkipDirectives;
    var tail := Enclosed("(", s.args, ")") + (DirectivesTokens(s.directives) + Enclosed("{", s.body, "}"));
    TailSkipped(s.args, s.directives, s.body, c);
    NameEndsType(s.name, tail, c);
    NotPunct(s.name);
    NotDots(s.name);
    if s.alias.None? {
      assert SelectionTokens(s) == [N(s.name)] + tail;
    } else {
      assert SelectionTokens(s) == [N(s.alias.value)] + ([P(":")] + ([N(s.name)] + tail));
      NameEndsType(s.alias.value, [P(":")] + ([N(s.name)] + tail), c);
      NotDots(s.alias.value);
      BeforeCons(P(":"), [N(s.name)] + tail, c);
    }
  }

  lemma NotDots(name: string)
    requires IsName(name)
    ensures name != "..."
  {
  }

  lemma SpreadSkipped(s: SelectionSrc, names: seq<string>, c: Cursor)
    requires s.Spread? && GoodSelection(s) && Calm(c)
    ensures Selections(Before(SelectionTokens(s), c), names) == Selections(c, names)
  {
    hide IsName, DirectivesTokens, GoodDirectives, SkipBalanced, SkipDirectives;
    BeforeCons(P("..."), [N(s.fragment)] + DirectivesTokens(s.directives), c);
    NameEndsType(s.fragment, DirectivesTokens(s.directives), c);
    DirectivesSkipped(s.directives, c);
  }

  lemma InlineSelected(s: SelectionSrc, names: seq<string>, c: Cursor)
    requires s.Inline? && GoodSelection(s) && Calm(c)
    ensures Selections(Before(SelectionTokens(s), c), names) == Selections(c, Add(names, s.condition))
  {
    hide IsName, DirectivesTokens, GoodDirectives, GoodBlock, SkipBalanced, SkipDirectives, Selections;
    var field := FieldSel(None, s.condition, None, s.directives, Some(s.inner));
    var tokens := SelectionTokens(field);
    assert SelectionTokens(s) == [P("...")] + ([N("on")] + tokens);
    OnSkipped(tokens, names, c);
    NoBlock("(", ")");
    SelectionStarts(field, c);
    NoneSkipped(Before(tokens, c));
    FieldSelected(field, names, c);
  }

  lemma NoBlock(open: string, close: string)
    ensures GoodBlock(open, None, close)
  {
  }

  lemma OnSkipped(tokens: seq<Token>, names: seq<string>, c: Cursor)
    ensures Selections(Before([P("...")] + ([N("on")] + tokens), c), names)
         == Selections(SkipDirectives(Before(tokens, c)), names)
  {
    hide SkipBalanced, SkipDirectives;
    BeforeCons(P("..."), [N("on")] + tokens, c);
    BeforeCons(N("on"), tokens, c);
  }

  lemma {:induction false} SelectionsParsed(ss: seq<SelectionSrc>, names: seq<string>, c: Cursor)
    requires GoodSelections(ss)
    ensures (var b := Before(SelectionsTokens(ss) + [P("}")], c);
             Calm(b) && Selections(b, names) == (AllSelected(names, ss), c))
    decreases |ss|
  {
    hide GoodSelection, SelectionTokens, Selections, Before;
    if ss == [] {
      SelectionsEnd(names, c);
      assert SelectionsTokens(ss) + [P("}")] == [P("}")];
    } else {
      var rest := SelectionsTokens(ss[1..]) + [P("}")];
      assert SelectionsTokens(ss) + [P("}")] == SelectionTokens(ss[0]) + rest;
      BeforeJoin(SelectionTokens(ss[0]), rest, c);
      var next := Before(rest, c);
      SelectionsParsed(ss[1..], Selected(names, ss[0]), c);
      SelectionStarts(ss[0], next);
      match ss[0] {
        case FieldSel(_, _, _, _, _) => FieldSelected(ss[0], names, next);
        case Spread(_, _) => SpreadSkipped(ss[0], names, next);
        case Inline(_, _, _) => InlineSelected(ss[0], names, next);
      }
    }
  }

  lemma SelectionsEnd(names: seq<string>, c: Cursor)
    ensures (var b := Before([P("}")], c); Calm(b) && Selections(b, names) == (names, c))
  {
    BeforeOne(P("}"), c);
  }

  // ---------------------------------------------------------------- operations

  lemma BracesParsed(ss: seq<SelectionSrc>, c: Cursor)
    requires GoodSelections(ss)
    ensures (var b := Before(Block(SelectionsTokens(ss)), c);
             b.At("{") && !b.At("(") && !b.At("@") && !b.AtKind(Name)
             && Selections(b.Next(), []) == (AllSelected([], ss), c))
  {
    hide SelectionsTokens, Selections, AllSelected, GoodSelections;
    BeforeCons(P("{"), SelectionsTokens(ss) + [P("}")], c);
    SelectionsParsed(ss, [], c);
  }

  /** An operation without its kind and name. */
  lemma HeadParsed(variables: seq<VarSrc>, directives: seq<DirectiveSrc>, c: Cursor)
    requires GoodVars(variables) && GoodDirectives(directives) && c.At("{")
    ensures (var block := if variables == [] then [] else [P("(")] + (VarsTokens(variables) + [P(")")]);
             var b := Before(block + DirectivesTokens(directives), c);
             && (b.At("(") <==> variables != [])
             && (variables == [] ==> SkipDirectives(b) == c)
             && (variables != [] ==>
                   var (args, end) := Arguments(b.Next(), [], true);
                   args == VarsMeaning(variables) && SkipDirectives(end) == c))
  {
    hide GoodVars, GoodDirectives, VarsTokens, VarsMeaning, DirectivesTokens, SkipDirectives, Arguments;
    var block := if variables == [] then [] else [P("(")] + (VarsTokens(variables) + [P(")")]);
    var at := Before(DirectivesTokens(directives), c);
    DirectivesSkipped(directives, c);
    BeforeJoin(block, DirectivesTokens(directives), c);
    if variables == [] {
      BeforeNone(at);
    } else {
      BeforeCons(P("("), VarsTokens(variables) + [P(")")], at);
      VariablesParsed(variables, [], at);
      assert [] + VarsMeaning(variables) == VarsMeaning(variables);
    }
  }

  lemma NotName(variables: seq<VarSrc>, directives: seq<DirectiveSrc>, c: Cursor)
    requires c.rest != [] && !c.AtKind(Name)
    ensures (var block := if variables == [] then [] else [P("(")] + (VarsTokens(variables) + [P(")")]);
             !Before(block + DirectivesTokens(directives), c).AtKind(Name))
  {
    hide VarsTokens;
    var block := if variables == [] then [] else [P("(")] + (VarsTokens(variables) + [P(")")]);
    if variables != [] {
      var rest := (VarsTokens(variables) + [P(")")]) + DirectivesTokens(directives);
      assert block + DirectivesTokens(directives) == [P("(")] + rest;
      BeforeCons(P("("), rest, c);
    } else if directives != [] {
      var rest := [N(directives[0].name)] + Enclosed("(", directives[0].args, ")") + DirectivesTokens(directives[1..]);
      assert block + DirectivesTokens(directives) == [P("@")] + rest;
      BeforeCons(P("@"), rest, c);
    } else {
      assert block + DirectivesTokens(directives) == [];
      BeforeNone(c);
    }
  }

  lemma NamedOperationParsed(op: OperationSrc, c: Cursor)
    requires op.OperationSrc? && GoodOperation(op)
    ensures (var b := Before(OperationTokens(op), c);
             && b.rest != [] && b.rest[0] == N(op.kind)
             && ParseOperation(b) == (Some(OperationMeaning(op)), c))
  {
    hide GoodVars, GoodDirectives, GoodSelections, VarsTokens, VarsMeaning, DirectivesTokens, SelectionsTokens,
         Selections, SkipDirectives, Arguments, NewOperation, AllSelected, Block, IsName;
    var braces := Block(SelectionsTokens(op.selections));
    var at := Before(braces, c);
    var block := if op.variables == [] then [] else [P("(")] + (VarsTokens(op.variables) + [P(")")]);
    var head := block + DirectivesTokens(op.directives);
    BracesParsed(op.selections, c);
    HeadParsed(op.variables, op.directives, at);
    NotName(op.variables, op.directives, at);
    var named := if op.name.None? then [] else [N(op.name.value)];
    assert OperationTokens(op) == [N(op.kind)] + (named + (head + braces));
    BeforeCons(N(op.kind), named + (head + braces), c);
    BeforeJoin(named, head + braces, c);
    BeforeJoin(head, braces, c);
    NameRead(op.name, head + braces, c);
    var b := Before(OperationTokens(op), c);
    var after := Before(head, at);
    assert b.Next().AfterName() == after;
    var (variables, asked) := if after.At("(") then Arguments(after.Next(), [], true) else ([], after);
    assert variables == VarsMeaning(op.variables) by { NoVariables(); }
    assert SkipDirectives(asked) == at;
    assert !b.At("{");
  }

  lemma NoVariables()
    ensures VarsMeaning([]) == []
  {
  }

  lemma NameRead(name: Option<string>, tail: seq<Token>, c: Cursor)
    requires (name.Some? ==> IsName(name.value)) && (name.None? ==> !Before(tail, c).AtKind(Name))
    ensures (var b := Before((if name.None? then [] else [N(name.value)]), Before(tail, c));
             && b.NameHere() == (if name.None? then "" else name.value)
             && b.AfterName() == Before(tail, c))
  {
    hide IsName;
    if name.None? {
      BeforeNone(Before(tail, c));
    } else {
      BeforeOne(N(name.value), Before(tail, c));
    }
  }

  lemma OperationParsed(op: OperationSrc, c: Cursor)
    requires GoodOperation(op)
    ensures (var b := Before(OperationTokens(op), c);
             && b.rest != []
             && (b.At("query") || b.At("mutation") || b.At("subscription") || b.At("{"))
             && !b.At("extend") && !b.AtKind(Kind.Text) && (b.AtKind(Name) || b.At("{"))
             && ParseOperation(b) == (Some(OperationMeaning(op)), c))
  {
    hide GoodVars, GoodDirectives, GoodSelections, VarsTokens, VarsMeaning, DirectivesTokens, SelectionsTokens,
         Selections, SkipDirectives, Arguments, AllSelected, Block, BaseID, OperationSelector;
    match op {
      case OperationSrc(_, _, _, _, _) => NamedOperationParsed(op, c);
      case Shorthand(selections) =>
        BracesParsed(selections, c);
        BlockKind(SelectionsTokens(selections), c);
    }
  }

  lemma BlockKind(body: seq<Token>, c: Cursor)
    ensures Before(Block(body), c).AtKind(Punct)
  {
    BeforeCons(P("{"), body + [P("}")], c);
  }

  // ---------------------------------------------------------------- documents

  lemma OperationStep(op: OperationSrc, m: Model, c: Cursor)
    requires GoodOperation(op)
    ensures ParseDocument(Before(OperationTokens(op), c), m, "")
         == ParseDocument(c, m.(operations := m.operations + [OperationMeaning(op)]), "")
  {
    hide OperationTokens, OperationMeaning, ParseOperation, ParseDefinition, GoodOperation, TrimSpace;
    OperationParsed(op, c);
    OperationDefined(Before(OperationTokens(op), c), m);
  }

  lemma OperationDefined(c: Cursor, m: Model)
    requires c.At("query") || c.At("mutation") || c.At("subscription") || c.At("{")
    ensures (var (op, end) := ParseOperation(c);
             ParseDefinition(c, m, "") == (if op.Some? then m.(operations := m.operations + [op.value]) else m, end))
  {
    hide ParseOperation, ParseSchema, ParseBlockType, UnionMembers, SkipDefinition;
  }

  lemma {:induction false} HeaderSkipped(header: seq<Token>, c: Cursor)
    requires GoodHeader(header)
    ensures SkipToDefinition(Before(header, c)) == SkipToDefinition(c)
    decreases |header|
  {
    hide AllPrintable;
    if header == [] {
      BeforeNone(c);
    } else {
      assert header == [header[0]] + header[1..];
      BeforeCons(header[0], header[1..], c);
      RestGood(header);
      HeaderSkipped(header[1..], c);
    }
  }

  lemma RestGood(header: seq<Token>)
    requires GoodHeader(header) && header != []
    ensures GoodHeader(header[1..])
  {
    hide Printable;
  }

  lemma FragmentStep(header: seq<Token>, body: seq<Token>, m: Model, c: Cursor)
    requires GoodHeader(header) && GoodBlock("{", Some(body), "}")
    ensures ParseDocument(Before([N("fragment")] + (header + Block(body)), c), m, "") == ParseDocument(c, m, "")
  {
    hide GoodHeader, GoodBlock, SkipBalanced, ParseSchema, ParseBlockType, UnionMembers, ParseOperation, TrimSpace;
    var b := Before([N("fragment")] + (header + Block(body)), c);
    BeforeCons(N("fragment"), header + Block(body), c);
    BeforeJoin(header, Block(body), c);
    HeaderSkipped(header, Before(Block(body), c));
    BlockKind(body, c);
    BeforeCons(P("{"), body + [P("}")], c);
    BlockSkipped("{", Some(body), "}", c);
    assert SkipDefinition(b) == c;
    assert ParseDefinition(b, m, "") == (m, c);
  }

  lemma ExtendStep(d: Described, m: Model, c: Cursor)
    requires GoodDef(d.def)
    ensures ParseDocument(Before(DescriptionTokens(d.description) + ([N("extend")] + DefTokens(d.def)), c), m, "")
         == ParseDocument(c, DefMeaning(d.def, DescriptionText(d.description), m), "")
  {
    hide GoodDef, ParseDefinition, DefMeaning, DefTokens, TrimSpace;
    var pending := DescriptionText(d.description);
    var extended := [N("extend")] + DefTokens(d.def);
    BeforeCons(N("extend"), DefTokens(d.def), c);
    DefParsed(d.def, pending, m, c);
    if d.description.None? {
      assert DescriptionTokens(d.description) + extended == extended;
    } else {
      BeforeCons(S(d.description.value), extended, c);
    }
  }

  lemma ItemStep(i: ItemSrc, m: Model, c: Cursor)
    requires GoodItem(i)
    ensures ParseDocument(Before(ItemTokens(i), c), m, "") == ParseDocument(c, ItemMeaning(i, m), "")
  {
    hide ParseDocument, GoodDef, DefMeaning, DefTokens, OperationTokens, OperationMeaning, GoodOperation, GoodHeader,
         GoodBlock, DescriptionTokens, DescriptionText, Before;
    match i {
      case DefItem(d) => DescribedStep(d, m, c);
      case ExtendItem(d) => ExtendStep(d, m, c);
      case OperationItem(op) => OperationStep(op, m, c);
      case FragmentItem(header, body) => FragmentStep(header, body, m, c);
    }
  }

  lemma NothingLeft(m: Model)
    ensures ParseDocument(Cursor([], false), m, "") == (m, Cursor([], false))
  {
  }

  lemma {:induction false} ItemsParsed(items: seq<ItemSrc>, m: Model)
    requires GoodItems(items)
    ensures ParseDocument(Cursor(ItemsTokens(items), false), m, "") == (ItemsMeaning(items, m), Cursor([], false))
    decreases |items|
  {
    hide GoodItem, ItemMeaning, ItemTokens, ParseDocument;
    if items == [] {
      NothingLeft(m);
    } else {
      var rest := Cursor(ItemsTokens(items[1..]), false);
      assert Before(ItemTokens(items[0]), rest) == Cursor(ItemsTokens(items), false);
      ItemStep(items[0], m, rest);
      ItemsParsed(items[1..], ItemMeaning(items[0], m));
      ItemsStart(items, m);
    }
  }

  lemma ItemsStart(items: seq<ItemSrc>, m: Model)
    requires items != []
    ensures ItemsMeaning(items, m) == ItemsMeaning(items[1..], ItemMeaning(items[0], m))
  {
    hide ItemMeaning;
  }

  // ---------------------------------------------------------------- the lexer knows the tokens

  lemma PunctPrintable(p: string)
    requires p in {"@", "$", "(", ")", ":", "=", "{", "}", "..."}
    ensures AllPrintable([P(p)])
  {
  }

  lemma WordPrintable(name: string)
    requires IsName(name)
    ensures AllPrintable([N(name)])
  {
  }

  lemma KeywordPrintable()
    ensures AllPrintable([N("on")]) && AllPrintable([N("extend")]) && AllPrintable([N("fragment")])
    ensures AllPrintable([N("query")]) && AllPrintable([N("mutation")]) && AllPrintable([N("subscription")])
    ensures AllPrintable([])
  {
  }

  lemma EnclosedPrintable(open: string, tokens: Option<seq<Token>>, close: string)
    requires GoodBlock(open, tokens, close) && ((open == "(" && close == ")") || (open == "{" && close == "}"))
    ensures AllPrintable(Enclosed(open, tokens, close))
  {
    hide Closed, AllPrintable;
    KeywordPrintable();
    PunctPrintable(open);
    PunctPrintable(close);
    if tokens.Some? {
      PrintableJoin(tokens.value, [P(close)]);
      PrintableJoin([P(open)], tokens.value + [P(close)]);
    }
  }

  lemma {:induction false} DirectivesPrintable(ds: seq<DirectiveSrc>)
    requires GoodDirectives(ds)
    ensures AllPrintable(DirectivesTokens(ds))
  {
    hide AllPrintable, IsName, GoodBlock, Enclosed;
    KeywordPrintable();
    if ds != [] {
      PunctPrintable("@");
      WordPrintable(ds[0].name);
      EnclosedPrintable("(", ds[0].args, ")");
      DirectivesPrintable(ds[1..]);
      PrintableJoin([N(ds[0].name)], Enclosed("(", ds[0].args, ")"));
      PrintableJoin([P("@")], [N(ds[0].name)] + Enclosed("(", ds[0].args, ")"));
      PrintableJoin(DirectiveTokens(ds[0]), DirectivesTokens(ds[1..]));
    }
  }

  lemma VarPrintable(v: VarSrc)
    requires GoodVar(v)
    ensures AllPrintable(VarTokens(v))
  {
    hide AllPrintable, IsName, GoodType, IsValue, GoodDirectives, DirectivesTokens, TypeTokens;
    KeywordPrintable();
    WordPrintable(v.name);
    PunctPrintable(":");
    PunctPrintable("=");
    TypePrintable(v.typ);
    DirectivesPrintable(v.directives);
    if v.default.Some? {
      PrintableJoin([P("=")], v.default.value);
    }
    PrintableJoin(DefaultTokens(v.default), DirectivesTokens(v.directives));
    var tail := DefaultTokens(v.default) + DirectivesTokens(v.directives);
    PrintableJoin(TypeTokens(v.typ), tail);
    PrintableJoin([P(":")], TypeTokens(v.typ) + tail);
    PrintableJoin([N(v.name)], [P(":")] + (TypeTokens(v.typ) + tail));
  }

  lemma {:induction false} VarsPrintable(vs: seq<VarSrc>)
    requires GoodVars(vs)
    ensures AllPrintable(VarsTokens(vs))
  {
    hide AllPrintable, GoodVar, VarTokens;
    KeywordPrintable();
    if vs != [] {
      PunctPrintable("$");
      VarPrintable(vs[0]);
      VarsPrintable(vs[1..]);
      PrintableJoin(VarTokens(vs[0]), VarsTokens(vs[1..]));
      PrintableJoin([P("$")], VarTokens(vs[0]) + VarsTokens(vs[1..]));
    }
  }

  lemma FieldTailPrintable(name: string, args: Option<seq<Token>>, directives: seq<DirectiveSrc>,
                           body: Option<seq<Token>>)
    requires IsName(name) && GoodBlock("(", args, ")") && GoodDirectives(directives) && GoodBlock("{", body, "}")
    ensures AllPrintable([N(name)] + (Enclosed("(", args, ")") + (DirectivesTokens(directives)
                                                                  + Enclosed("{", body, "}"))))
  {
    hide AllPrintable, IsName, GoodBlock, GoodDirectives, Enclosed, DirectivesTokens;
    WordPrintable(name);
    EnclosedPrintable("(", args, ")");
    DirectivesPrintable(directives);
    EnclosedPrintable("{", body, "}");
    var tail := DirectivesTokens(directives) + Enclosed("{", body, "}");
    PrintableJoin(DirectivesTokens(directives), Enclosed("{", body, "}"));
    PrintableJoin(Enclosed("(", args, ")"), tail);
    PrintableJoin([N(name)], Enclosed("(", args, ")") + tail);
  }

  lemma SelectionPrintable(s: SelectionSrc)
    requires GoodSelection(s)
    ensures AllPrintable(SelectionTokens(s))
  {
    hide AllPrintable, IsName, GoodBlock, GoodDirectives, DirectivesTokens;
    KeywordPrintable();
    PunctPrintable("...");
    PunctPrintable(":");
    match s {
      case FieldSel(alias, name, args, directives, body) =>
        FieldTailPrintable(name, args, directives, body);
        var tail := [N(name)] + (Enclosed("(", args, ")") + (DirectivesTokens(directives) + Enclosed("{", body, "}")));
        if alias.Some? {
          WordPrintable(alias.value);
          PrintableJoin([N(alias.value)], [P(":")]);
          PrintableJoin([N(alias.value)] + [P(":")], tail);
        } else {
          PrintableJoin([], tail);
        }
      case Spread(fragment, directives) =>
        WordPrintable(fragment);
        DirectivesPrintable(directives);
        PrintableJoin([N(fragment)], DirectivesTokens(directives));
        PrintableJoin([P("...")], [N(fragment)] + DirectivesTokens(directives));
      case Inline(condition, directives, inner) =>
        NoBlock("(", ")");
        FieldTailPrintable(condition, None, directives, Some(inner));
        var tail := [N(condition)] + (DirectivesTokens(directives) + Block(inner));
        assert [N(condition)] + (Enclosed("(", None, ")") + (DirectivesTokens(directives)
                                                             + Enclosed("{", Some(inner), "}"))) == tail;
        PrintableJoin([N("on")], tail);
        PrintableJoin([P("...")], [N("on")] + tail);
    }
  }

  lemma {:induction false} SelectionsPrintable(ss: seq<SelectionSrc>)
    requires GoodSelections(ss)
    ensures AllPrintable(SelectionsTokens(ss))
  {
    hide AllPrintable, GoodSelection, SelectionTokens;
    KeywordPrintable();
    if ss != [] {
      SelectionPrintable(ss[0]);
      SelectionsPrintable(ss[1..]);
      PrintableJoin(SelectionTokens(ss[0]), SelectionsTokens(ss[1..]));
    }
  }

  lemma OperationPrintable(op: OperationSrc)
    requires GoodOperation(op)
    ensures AllPrintable(OperationTokens(op))
  {
    hide AllPrintable, IsName, GoodVars, GoodDirectives, GoodSelections, VarsTokens, DirectivesTokens,
         SelectionsTokens, Block;
    KeywordPrintable();
    PunctPrintable("(");
    PunctPrintable(")");
    SelectionsPrintable(op.selections);
    BlockPrintable(SelectionsTokens(op.selections));
    if op.OperationSrc? {
      var braces := Block(SelectionsTokens(op.selections));
      var block := if op.variables == [] then [] else [P("(")] + (VarsTokens(op.variables) + [P(")")]);
      var named := if op.name.None? then [] else [N(op.name.value)];
      VarsPrintable(op.variables);
      DirectivesPrintable(op.directives);
      PrintableJoin(VarsTokens(op.variables), [P(")")]);
      PrintableJoin([P("(")], VarsTokens(op.variables) + [P(")")]);
      if op.name.Some? {
        WordPrintable(op.name.value);
      }
      PrintableJoin(DirectivesTokens(op.directives), braces);
      PrintableJoin(block, DirectivesTokens(op.directives) + braces);
      PrintableJoin(named, block + (DirectivesTokens(op.directives) + braces));
      PrintableJoin([N(op.kind)], named + (block + (DirectivesTokens(op.directives) + braces)));
    }
  }

  lemma ItemPrintable(i: ItemSrc)
    requires GoodItem(i)
    ensures AllPrintable(ItemTokens(i))
  {
    hide AllPrintable, GoodDef, GoodOperation, DefTokens, OperationTokens, DescriptionTokens, Block, Closed;
    KeywordPrintable();
    match i {
      case DefItem(d) =>
        DescriptionPrintable(d.description);
        DefPrintable(d.def);
        PrintableJoin(DescriptionTokens(d.description), DefTokens(d.def));
      case ExtendItem(d) =>
        DescriptionPrintable(d.description);
        DefPrintable(d.def);
        PrintableJoin([N("extend")], DefTokens(d.def));
        PrintableJoin(DescriptionTokens(d.description), [N("extend")] + DefTokens(d.def));
      case OperationItem(op) => OperationPrintable(op);
      case FragmentItem(header, body) =>
        BlockPrintable(body);
        PrintableJoin(header, Block(body));
        PrintableJoin([N("fragment")], header + Block(body));
    }
  }

  lemma {:induction false} ItemsPrintable(items: seq<ItemSrc>)
    requires GoodItems(items)
    ensures AllPrintable(ItemsTokens(items))
    decreases |items|
  {
    hide AllPrintable, GoodItem, ItemTokens;
    KeywordPrintable();
    if items != [] {
      ItemPrintable(items[0]);
      ItemsPrintable(items[1..]);
      PrintableJoin(ItemTokens(items[0]), ItemsTokens(items[1..]));
    }
  }

  // ---------------------------------------------------------------- the round trip

  /** Printing any document, lexing and parsing it gives the model it stands for, exactly when
      its tokens stay within the limits of the lexer and it defines a type or an operation. */
  lemma DocumentRoundTrip(items: seq<ItemSrc>)
    requires GoodItems(items)
    ensures (var m := ItemsMeaning(items, NewModel);
             ParseGraphQLText(Render(ItemsTokens(items)))
             == if Admitted(ItemsTokens(items), Start) && (CompactTypes(m.types) != [] || Compact(m.operations) != [])
                then Parsed(Finish(m)) else Refused)
  {
    hide Lex, Render, ItemsTokens, ItemsMeaning, GoodItems, ParseDocument, Admitted, AllPrintable, CompactTypes,
         Compact, Finish;
    ItemsPrintable(items);
    LexRendered(ItemsTokens(items), Start);
    ItemsParsed(items, NewModel);
    if ItemsTokens(items) == [] {
      EmptyItems(items);
    }
  }

  lemma EmptyItems(items: seq<ItemSrc>)
    requires ItemsTokens(items) == []
    ensures CompactTypes(ItemsMeaning(items, NewModel).types) == []
    ensures Compact(ItemsMeaning(items, NewModel).operations) == []
  {
    hide DefTokens, OperationTokens, DefMeaning, OperationMeaning;
    if items != [] {
      SomeTokens(items[0]);
    }
  }

  lemma SomeTokens(i: ItemSrc)
    ensures ItemTokens(i) != []
  {
    hide FieldsTokens, InputsTokens, ValuesTokens, EntriesTokens, SelectionsTokens, VarsTokens, DirectivesTokens;
  }
}
