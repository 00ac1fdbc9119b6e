/** The recursive-descent parser of graphql/parse.go: methods that move the token reader and
    append to what they build.  Each is proved to return what GraphQLSpec says and to leave the
    reader where it says. */
module GraphQLParser {
  import opened GraphQLLexer
  import opened GraphQLModel
  import opened GraphQLProofs
  import opened GraphQLSpec
  import opened Lexing
  import opened OperationIDs
  import opened Text
  import opened TokenReader
  import opened Tokens
  import opened Wrappers
  import Ordering

  method ParseTypeRefDepth(p: Reader, depth: nat) returns (ref: TypeRef)
    requires p.Valid()
    modifies p
    ensures p.Valid() && (ref, p.Here()) == ParseTypeRef(old(p.Here()), depth)
    decreases |p.Here().rest|
  {
    if depth >= MAX_NESTING_DEPTH {
      p.Fail();
      return NoType;
    }
    var list := p.Consume("[");
    if list {
      var inner := ParseTypeRefDepth(p, depth + 1);
      var _ := p.Consume("]");
      ref := TypeRef("", "", "[" + inner.display + "]", false, true, Some(inner));
    } else {
      var name := p.ConsumeName();
      ref := TypeRef(name, "", name, false, false, None);
    }
    assert ref.display + "" == ref.display;
    var required := p.Consume("!");
    if required {
      ref := ref.(display := ref.display + "!", required := true);
    }
  }

  predicate IsBoundary(p: Reader)
    requires p.Valid()
    reads p
    ensures IsBoundary(p) <==> AtBoundary(p.Here())
  {
    p.PeekKind(Name) && p.Peek().value in {"schema", "type", "interface", "input", "enum", "scalar", "union", "query",
                                           "mutation", "subscription", "fragment", "extend"}
  }

  method SkipUntilValue(p: Reader, value: string)
    requires p.Valid()
    modifies p
    ensures p.Valid() && p.Here() == SkipUntil(old(p.Here()), value)
  {
    hide AtBoundary;
    while !p.Done() && !p.PeekValue(value) && !IsBoundary(p)
      invariant p.Valid() && SkipUntil(p.Here(), value) == SkipUntil(old(p.Here()), value)
      decreases |p.Here().rest|
    {
      var _ := p.Advance();
    }
  }

  method SkipAllDirectives(p: Reader)
    requires p.Valid()
    modifies p
    ensures p.Valid() && p.Here() == SkipDirectives(old(p.Here()))
  {
    hide SkipBalanced;
    var more := true;
    while more
      invariant p.Valid()
      invariant SkipDirectives(old(p.Here())) == if more then SkipDirectives(p.Here()) else p.Here()
      decreases more, |p.Here().rest|
    {
      more := p.Consume("@");
      if more {
        var _ := p.ConsumeName();
        p.SkipBalanced("(", ")");
      }
    }
  }

  method SkipDefinitionBody(p: Reader)
    requires p.Valid() && !p.Done()
    modifies p
    ensures p.Valid() && p.Here() == SkipDefinition(old(p.Here()))
  {
    hide SkipBalanced, AtBoundary;
    if p.PeekValue("{") {
      p.SkipBalanced("{", "}");
      return;
    }
    var _ := p.Advance();
    while !p.Done() && !IsBoundary(p)
      invariant p.Valid() && SkipToDefinition(p.Here()) == SkipDefinition(old(p.Here()))
      decreases |p.Here().rest|
    {
      if p.PeekValue("{") {
        p.SkipBalanced("{", "}");
        return;
      }
      var _ := p.Advance();
    }
  }

  /** peekNextValue */
  predicate PeekNextValue(p: Reader, value: string)
    requires p.Valid() && !p.Done()
    reads p
    ensures PeekNextValue(p, value) <==> p.Here().Next().At(value)
  {
    assert p.tokens[p.pos..][1..] == p.tokens[p.pos + 1..];
    p.pos + 1 < |p.tokens| && p.tokens[p.pos + 1].value == value
  }

  method CollectDefaultValue(p: Reader) returns (text: string)
    requires p.Valid()
    modifies p
    ensures p.Valid() && (text, p.Here()) == DefaultValue(old(p.Here()), 0)
  {
    text := "";
    var depth: nat := 0;
    var more := true;
    WithPrefix("", DefaultValue(p.Here(), 0), "");
    while more && !p.Done()
      invariant p.Valid()
      invariant DefaultValue(old(p.Here()), 0) == if more then Prefixed(text, DefaultValue(p.Here(), depth))
                else (text, p.Here())
      decreases more, |p.Here().rest|
    {
      hide Prefixed;
      var tok := p.Peek();
      if depth == 0 && (tok.value == ")" || tok.value == "}" || tok.value == "@"
                        || (tok.kind == Name && PeekNextValue(p, ":"))) {
        PrefixNothing(text, p.Here());
        more := false;
      } else if (tok.value == "]" || tok.value == "}" || tok.value == ")") && depth == 0 {
        PrefixNothing(text, p.Here());
        more := false;
      } else {
        var next := if tok.value == "[" || tok.value == "{" || tok.value == "(" then depth + 1
                    else if tok.value == "]" || tok.value == "}" || tok.value == ")" then depth - 1 else depth;
        WithPrefix(text, DefaultValue(p.Here().Next(), next), tok.value);
        var _ := p.Advance();
        depth := next;
        text := text + tok.value;
      }
    }
    PrefixNothing(text, p.Here());
  }

  ghost function Prefixed(text: string, r: (string, Cursor)): (string, Cursor) {
    (text + r.0, r.1)
  }

  lemma WithPrefix(text: string, r: (string, Cursor), value: string)
    ensures Prefixed(text, (value + r.0, r.1)) == Prefixed(text + value, r)
    ensures Prefixed("", r) == r
  {
    assert text + (value + r.0) == (text + value) + r.0;
    assert "" + r.0 == r.0;
  }

  lemma PrefixNothing(text: string, c: Cursor)
    ensures Prefixed(text, ("", c)) == (text, c)
  {
    assert text + "" == text;
  }

  method ParseArgumentRest(p: Reader, name: string, description: string) returns (arg: Argument)
    requires p.Valid()
    modifies p
    ensures p.Valid() && (arg, p.Here()) == ArgumentRest(old(p.Here()), name, description)
  {
    hide ParseTypeRef, DefaultValue, SkipDirectives;
    arg := Argument(name, description, NoType, "", false);
    var typed := p.Consume(":");
    if typed {
      var t := ParseTypeRefDepth(p, 0);
      arg := arg.(typ := t, required := t.required);
    }
    var defaulted := p.Consume("=");
    if defaulted {
      var text := CollectDefaultValue(p);
      arg := arg.(defaultValue := text);
    }
    SkipAllDirectives(p);
  }

  /** parseArgumentsDefinition and parseVariablesDefinition after the opening parenthesis. */
  method ParseArguments(p: Reader, dollar: bool) returns (args: seq<Argument>)
    requires p.Valid()
    modifies p
    ensures p.Valid() && (args, p.Here()) == Arguments(old(p.Here()), [], dollar)
  {
    hide ArgumentRest;
    args := [];
    var more := true;
    while more && !p.Done()
      invariant p.Valid()
      invariant Arguments(old(p.Here()), [], dollar) == if more then Arguments(p.Here(), args, dollar)
                else (args, p.Here())
      decreases more, |p.Here().rest|
    {
      var ended := p.Consume(")");
      if ended {
        more := false;
      } else {
        if dollar {
          var _ := p.Consume("$");
        }
        var name := p.ConsumeName();
        if name == "" {
          var _ := p.Advance();
        } else {
          var arg := ParseArgumentRest(p, name, "");
          args := args + [arg];
        }
      }
    }
  }

  method ParseFields(p: Reader) returns (fields: seq<Field>)
    requires p.Valid()
    modifies p
    ensures p.Valid() && (fields, p.Here()) == ObjectFields(old(p.Here()), [], "")
  {
    hide Arguments, ParseTypeRef, SkipDirectives, TrimSpace;
    fields := [];
    var pending := "";
    var more := true;
    while more && !p.Done()
      invariant p.Valid()
      invariant ObjectFields(old(p.Here()), [], "") == if more then ObjectFields(p.Here(), fields, pending)
                else (fields, p.Here())
      decreases more, |p.Here().rest|
    {
      var ended := p.Consume("}");
      if ended {
        more := false;
      } else if p.PeekKind(Kind.Text) {
        var t := p.Advance();
        pending := TrimSpace(t.value);
      } else {
        var name := p.ConsumeName();
        if name == "" {
          var _ := p.Advance();
          pending := "";
        } else {
          var field := Field(name, pending, NoType, []);
          pending := "";
          var asked := p.Consume("(");
          if asked {
            var args := ParseArguments(p, false);
            field := field.(args := args);
          }
          var typed := p.Consume(":");
          if typed {
            var t := ParseTypeRefDepth(p, 0);
            field := field.(typ := t);
          }
          SkipAllDirectives(p);
          fields := fields + [field];
        }
      }
    }
  }

  method ParseInputFields(p: Reader) returns (fields: seq<Argument>)
    requires p.Valid()
    modifies p
    ensures p.Valid() && (fields, p.Here()) == InputFields(old(p.Here()), [], "")
  {
    hide ArgumentRest, TrimSpace;
    fields := [];
    var pending := "";
    var more := true;
    while more && !p.Done()
      invariant p.Valid()
      invariant InputFields(old(p.Here()), [], "") == if more then InputFields(p.Here(), fields, pending)
                else (fields, p.Here())
      decreases more, |p.Here().rest|
    {
      var ended := p.Consume("}");
      if ended {
        more := false;
      } else if p.PeekKind(Kind.Text) {
        var t := p.Advance();
        pending := TrimSpace(t.value);
      } else {
        var name := p.ConsumeName();
        if name == "" {
          var _ := p.Advance();
        } else {
          var arg := ParseArgumentRest(p, name, pending);
          fields := fields + [arg];
        }
        pending := "";
      }
    }
  }

  method ParseEnumValues(p: Reader) returns (values: seq<EnumValue>)
    requires p.Valid()
    modifies p
    ensures p.Valid() && (values, p.Here()) == EnumValues(old(p.Here()), [], "")
  {
    hide SkipDirectives, TrimSpace;
    values := [];
    var pending := "";
    var more := true;
    while more && !p.Done()
      invariant p.Valid()
      invariant EnumValues(old(p.Here()), [], "") == if more then EnumValues(p.Here(), values, pending)
                else (values, p.Here())
      decreases more, |p.Here().rest|
    {
      var ended := p.Consume("}");
      if ended {
        more := false;
      } else if p.PeekKind(Kind.Text) {
        var t := p.Advance();
        pending := TrimSpace(t.value);
      } else {
        var name := p.ConsumeName();
        if name == "" {
          var _ := p.Advance();
        } else {
          values := values + [EnumValue(name, pending)];
          SkipAllDirectives(p);
        }
        pending := "";
      }
    }
  }

  /** parseObjectType, parseInputType and parseEnumType. */
  method ParseBlock(p: Reader, kind: string, description: string) returns (t: Type)
    requires p.Valid()
    modifies p
    ensures p.Valid() && (t, p.Here()) == ParseBlockType(old(p.Here()), kind, description)
  {
    hide SkipUntil, ObjectFields, InputFields, EnumValues;
    var name := p.ConsumeName();
    t := NewType(name, kind, description);
    SkipUntilValue(p, "{");
    var isBlock := p.Consume("{");
    if !isBlock {
      return;
    }
    if kind == "INPUT_OBJECT" {
      var fields := ParseInputFields(p);
      t := t.(inputFields := fields);
    } else if kind == "ENUM" {
      var values := ParseEnumValues(p);
      t := t.(enumValues := values);
    } else {
      var fields := ParseFields(p);
      t := t.(fields := fields);
    }
  }

  method ParseUnionMembers(p: Reader) returns (members: seq<string>)
    requires p.Valid()
    modifies p
    ensures p.Valid() && (members, p.Here()) == UnionMembers(old(p.Here()), [])
  {
    hide AtBoundary;
    members := [];
    var more := true;
    while more && !p.Done() && !p.PeekValue("{")
      invariant p.Valid()
      invariant UnionMembers(old(p.Here()), []) == if more then UnionMembers(p.Here(), members) else (members, p.Here())
      decreases more, |p.Here().rest|
    {
      if p.PeekValue("=") || p.PeekValue("|") {
        var _ := p.Advance();
      } else {
        var member := p.ConsumeName();
        if member != "" {
          members := members + [member];
        } else if IsBoundary(p) {
          more := false;
        } else {
          var _ := p.Advance();
        }
      }
    }
  }

  method ParseSchemaBlock(p: Reader, s: RootTypes, description: string) returns (roots: RootTypes)
    requires p.Valid()
    modifies p
    ensures p.Valid() && (roots, p.Here()) == ParseSchema(old(p.Here()), s, description)
  {
    hide SkipUntil, WithRoot;
    roots := s.(description := description);
    SkipUntilValue(p, "{");
    var isBlock := p.Consume("{");
    if !isBlock {
      return;
    }
    var more := true;
    ghost var whole := SchemaEntries(p.Here(), roots);
    while more && !p.Done()
      invariant p.Valid()
      invariant whole == if more then SchemaEntries(p.Here(), roots) else (roots, p.Here())
      decreases more, |p.Here().rest|
    {
      var ended := p.Consume("}");
      if ended {
        more := false;
      } else {
        var key := p.ConsumeName();
        if key == "" {
          var _ := p.Advance();
        } else {
          var hasValue := p.Consume(":");
          if hasValue {
            var value := p.ConsumeName();
            roots := WithRoot(roots, key, value);
          }
        }
      }
    }
  }

  /** parseSelectionSet after its opening brace. */
  method ParseSelections(p: Reader) returns (names: seq<string>)
    requires p.Valid()
    modifies p
    ensures p.Valid() && (names, p.Here()) == Selections(old(p.Here()), [])
  {
    hide SkipBalanced, SkipDirectives;
    names := [];
    var more := true;
    while more && !p.Done()
      invariant p.Valid()
      invariant Selections(old(p.Here()), []) == if more then Selections(p.Here(), names) else (names, p.Here())
      decreases more, |p.Here().rest|
    {
      ghost var start := p.Here();
      var ended := p.Consume("}");
      if ended {
        more := false;
      } else {
        var spread := p.Consume("...");
        if spread {
          var _ := p.ConsumeName();
          SkipAllDirectives(p);
        } else {
          var name := p.ConsumeName();
          if name == "" {
            var _ := p.Advance();
          } else {
            var selected := name;
            var aliased := p.Consume(":");
            if aliased {
              var target := p.ConsumeName();
              if target != "" {
                selected := target;
              }
            }
            if selected !in names {
              names := names + [selected];
            }
            p.SkipBalanced("(", ")");
            SkipAllDirectives(p);
            p.SkipBalanced("{", "}");
          }
        }
      }
    }
  }

  method ParseOperationText(p: Reader) returns (r: Option<Operation>)
    requires p.Valid() && !p.Done()
    modifies p
    ensures p.Valid() && (r, p.Here()) == ParseOperation(old(p.Here()))
  {
    hide Selections, Arguments, SkipDirectives, NewOperation;
    var t := p.Advance();
    if t.value == "{" {
      var names := ParseSelections(p);
      return Some(NewOperation("query", "anonymous", [], names));
    }
    var name := p.ConsumeName();
    var variables: seq<Argument> := [];
    var asked := p.Consume("(");
    if asked {
      variables := ParseArguments(p, true);
    }
    SkipAllDirectives(p);
    var hasSelection := p.Consume("{");
    if !hasSelection {
      return None;
    }
    var names := ParseSelections(p);
    return Some(NewOperation(t.value, name, variables, names));
  }

  /** One definition of parseDocument. */
  method ParseOne(p: Reader, m: Model, pending: string) returns (n: Model)
    requires p.Valid() && !p.Done()
    modifies p
    ensures p.Valid() && (n, p.Here()) == ParseDefinition(old(p.Here()), m, pending)
  {
    hide ParseBlockType, ParseSchema, UnionMembers, ParseOperation, SkipDefinition;
    n := m;
    var value := p.Peek().value;
    if value == "schema" {
      var _ := p.Advance();
      var s := ParseSchemaBlock(p, n.schema, pending);
      n := n.(schema := s);
    } else if value == "type" || value == "interface" {
      var _ := p.Advance();
      var t := ParseBlock(p, if value == "type" then "TYPE" else "INTERFACE", pending);
      n := n.(types := n.types + [t]);
    } else if value == "input" {
      var _ := p.Advance();
      var t := ParseBlock(p, "INPUT_OBJECT", pending);
      n := n.(types := n.types + [t]);
    } else if value == "enum" {
      var _ := p.Advance();
      var t := ParseBlock(p, "ENUM", pending);
      n := n.(types := n.types + [t]);
    } else if value == "scalar" {
      var _ := p.Advance();
      var name := p.ConsumeName();
      n := n.(types := n.types + [NewType(name, "SCALAR", pending)]);
    } else if value == "union" {
      var _ := p.Advance();
      var name := p.ConsumeName();
      var members := ParseUnionMembers(p);
      n := n.(types := n.types + [NewType(name, "UNION", pending).(unionMembers := members)]);
    } else if value == "query" || value == "mutation" || value == "subscription" || value == "{" {
      var op := ParseOperationText(p);
      if op.Some? {
        n := n.(operations := n.operations + [op.value]);
      }
    } else {
      SkipDefinitionBody(p);
    }
  }

  method ParseDocumentTokens(p: Reader) returns (m: Model)
    requires p.Valid()
    modifies p
    ensures p.Valid() && (m, p.Here()) == ParseDocument(old(p.Here()), NewModel, "")
  {
    hide ParseDefinition, TrimSpace;
    m := NewModel;
    var pending := "";
    while !p.Done()
      invariant p.Valid() && ParseDocument(old(p.Here()), NewModel, "") == ParseDocument(p.Here(), m, pending)
      decreases |p.Here().rest|
    {
      if p.PeekKind(Kind.Text) {
        var t := p.Advance();
        pending := TrimSpace(t.value);
      } else {
        var _ := p.Consume("extend");
        if !p.PeekKind(Name) && !p.PeekValue("{") {
          var _ := p.Advance();
        } else {
          m := ParseOne(p, m, pending);
        }
        pending := "";
      }
    }
  }

  /** compactTypes, with its map from names to positions in the output. */
  method CompactAll(types: seq<Type>) returns (out: seq<Type>)
    ensures out == CompactTypes(types)
  {
    hide TrimSpace, Merged, MergeInto;
    out := [];
    var byName: map<string, nat> := map[];
    NothingCompacted();
    assert types[..0] == [];
    for i := 0 to |types|
      invariant out == CompactTypes(types[..i])
      invariant forall name <- byName :: byName[name] < |out| && out[byName[name]].name == name
      invariant forall j :: 0 <= j < |out| ==> out[j].name in byName && byName[out[j].name] == j
    {
      var t := types[i];
      assert types[..i + 1][..i] == types[..i];
      if TrimSpace(t.name) != "" {
        if t.name in byName {
          var k := byName[t.name];
          MergeAt(out, k, t);
          MergedName(out[k], t);
          out := out[k := Merged(out[k], t)];
        } else {
          forall u <- out ensures u.name != t.name {
            var j :| 0 <= j < |out| && out[j] == u;
          }
          MergeNew(out, t);
          byName := byName[t.name := |out|];
          out := out + [t];
        }
      }
    }
    assert types[..|types|] == types;
  }

  lemma NothingCompacted()
    ensures CompactTypes([]) == []
  {
  }

  lemma MergedName(t: Type, other: Type)
    ensures Merged(t, other).name == t.name
  {
  }

  lemma {:induction false} MergeAt(types: seq<Type>, k: nat, t: Type)
    requires k < |types| && types[k].name == t.name && forall j :: 0 <= j < k ==> types[j].name != t.name
    ensures MergeInto(types, t) == types[k := Merged(types[k], t)]
  {
    hide Merged;
    if k > 0 {
      MergeAt(types[1..], k - 1, t);
    }
  }

  lemma SameRoots(m: Model, operations: seq<Operation>)
    ensures NamedRoots(m.(operations := operations)) == NamedRoots(m)
  {
    hide HasFields;
  }

  /** parseGraphQLText */
  method ParseText(input: string) returns (r: Outcome)
    ensures r == ParseGraphQLText(input)
  {
    hide Lex, ParseDocument, CompactTypes, CompactTo, AddRoots, NamedRoots, Ordering.SortBy;
    var lexed := LexGraphQL(input);
    if lexed.None? || |lexed.value| == 0 {
      return Refused;
    }
    var p := new Reader(lexed.value);
    var m := ParseDocumentTokens(p);
    if p.failed {
      return Refused;
    }
    var types := CompactAll(m.types);
    var operations := CompactOperations(m.operations);
    if |types| == 0 && |operations| == 0 {
      return Refused;
    }
    SameRoots(m.(types := types), operations);
    var full := AddSchemaRootOperations(m.(types := types, operations := operations));
    return Parsed(Model(full.schema, Ordering.SortBy(TypeKey, types), Ordering.SortBy(OperationKey, full.operations)));
  }
}
