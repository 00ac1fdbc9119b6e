/** The names that finalizing a model derives: selectors, operation IDs and JSON names
    (finalizeModel in grpcproto/parse.go, selectors.go of both packages). */
module FinalNames {
  import GraphQLModel
  import Json
  import Ordering
  import opened ProtoModel
  import opened Text
  import opened Wrappers
  import WireModel

  // ---------------------------------------------------------------- selectors

  lemma {:induction false} EscapedPlain(s: string)
    ensures '/' !in Escape(s)
  {
    if s != "" {
      EscapedPlain(s[1..]);
    }
  }

  /** The escape of one character. */
  function EscapedChar(c: char): string {
    if c == '~' then "~0" else if c == '/' then "~1" else [c]
  }

  lemma EscapeStarts(s: string)
    requires s != ""
    ensures Escape(s) == EscapedChar(s[0]) + Escape(s[1..]) && Escape(s) != ""
    ensures Escape(s)[|EscapedChar(s[0])|..] == Escape(s[1..])
  {
  }

  lemma SameStart(a: string, b: string)
    requires a != "" && b != "" && Escape(a) == Escape(b)
    ensures a[0] == b[0]
  {
    hide Escape;
    EscapeStarts(a);
    EscapeStarts(b);
    assert Escape(a)[0] == EscapedChar(a[0])[0] && Escape(b)[0] == EscapedChar(b[0])[0];
    assert a[0] in {'~', '/'} ==> Escape(a)[1] == EscapedChar(a[0])[1];
    assert b[0] in {'~', '/'} ==> Escape(b)[1] == EscapedChar(b[0])[1];
  }

  /** Escaping loses nothing. */
  lemma {:induction false} EscapeTells(a: string, b: string)
    ensures Escape(a) == Escape(b) <==> a == b
  {
    if Escape(a) == Escape(b) {
      if a == "" || b == "" {
        assert a != "" ==> Escape(a) != "" by { if a != "" { EscapeStarts(a); } }
        assert b != "" ==> Escape(b) != "" by { if b != "" { EscapeStarts(b); } }
      } else {
        SameStart(a, b);
        EscapeStarts(a);
        EscapeStarts(b);
        EscapeTells(a[1..], b[1..]);
        assert a == [a[0]] + a[1..] && b == [b[0]] + b[1..];
      }
    }
  }

  lemma NoStart(b: string, y: string)
    requires '/' !in b
    ensures b != "" ==> (b + ("/" + y))[0] != '/'
  {
    if b != "" {
      assert b[0] in b;
    }
  }

  /** What stands before the first slash. */
  lemma {:induction false} FirstSlash(a: string, x: string, b: string, y: string)
    requires '/' !in a && '/' !in b && a + ("/" + x) == b + ("/" + y)
    ensures a == b && x == y
  {
    if a == "" {
      assert a + ("/" + x) == "/" + x;
      NoStart(b, y);
      assert b + ("/" + y) == "/" + y;
      assert ("/" + x)[1..] == x && ("/" + y)[1..] == y;
    } else {
      assert (a + ("/" + x))[0] == a[0];
      assert b != "";
      assert (a + ("/" + x))[1..] == a[1..] + ("/" + x) && (b + ("/" + y))[1..] == b[1..] + ("/" + y);
      FirstSlash(a[1..], x, b[1..], y);
      assert a == [a[0]] + a[1..] && b == [b[0]] + b[1..];
    }
  }

  lemma PathTells(head: string, a: string, middle: string, x: string, b: string, y: string)
    ensures head + Escape(a) + ("/" + middle) + Escape(x) == head + Escape(b) + ("/" + middle) + Escape(y)
       <==> a == b && x == y
  {
    hide Escape;
    var l := head + Escape(a) + ("/" + middle) + Escape(x);
    var r := head + Escape(b) + ("/" + middle) + Escape(y);
    if l == r {
      assert l == head + (Escape(a) + ("/" + (middle + Escape(x))));
      assert r == head + (Escape(b) + ("/" + (middle + Escape(y))));
      assert l[|head|..] == Escape(a) + ("/" + (middle + Escape(x)));
      assert r[|head|..] == Escape(b) + ("/" + (middle + Escape(y)));
      EscapedPlain(a);
      EscapedPlain(b);
      FirstSlash(Escape(a), middle + Escape(x), Escape(b), middle + Escape(y));
      assert (middle + Escape(x))[|middle|..] == Escape(x) && (middle + Escape(y))[|middle|..] == Escape(y);
      EscapeTells(a, b);
      EscapeTells(x, y);
    }
  }

  /** Two calls have the same selector exactly when they have the same name in the same
      service, whatever characters the names hold. */
  lemma MethodSelectorsTell(s: string, m: string, t: string, n: string)
    ensures MethodSelector(s, m) == MethodSelector(t, n) <==>
              TrimSpace(s) == TrimSpace(t) && TrimSpace(m) == TrimSpace(n)
  {
    hide Escape, TrimSpace;
    PathTells("#/services/", TrimSpace(s), "methods/", TrimSpace(m), TrimSpace(t), TrimSpace(n));
    assert "/" + "methods/" == "/methods/";
  }

  /** The same for the fields of a GraphQL schema and for operations, and neither is the
      selector of the other. */
  lemma FieldSelectorsTell(s: string, f: string, t: string, g: string)
    ensures GraphQLModel.FieldSelector(s, f) == GraphQLModel.FieldSelector(t, g) <==>
              TrimSpace(s) == TrimSpace(t) && TrimSpace(f) == TrimSpace(g)
    ensures GraphQLModel.OperationSelector(f) == GraphQLModel.OperationSelector(g) <==> TrimSpace(f) == TrimSpace(g)
    ensures GraphQLModel.OperationSelector(f) != GraphQLModel.FieldSelector(t, g)
  {
    hide Escape, TrimSpace;
    PathTells("#/schema/", TrimSpace(s), "fields/", TrimSpace(f), TrimSpace(t), TrimSpace(g));
    assert "/" + "fields/" == "/fields/";
    var l, r := GraphQLModel.OperationSelector(f), GraphQLModel.OperationSelector(g);
    var head := "#/operations/";
    assert l[|head|..] == Escape(TrimSpace(f)) && r[|head|..] == Escape(TrimSpace(g));
    EscapeTells(TrimSpace(f), TrimSpace(g));
    assert l[2] == 'o' && GraphQLModel.FieldSelector(t, g)[2] == 's';
  }

  // ---------------------------------------------------------------- JSON names

  function Capital(word: string): string {
    if word == "" then "" else [Upper(word[0])] + word[1..]
  }

  function Capitals(words: seq<string>): string {
    if words == [] then "" else Capital(words[0]) + Capitals(words[1..])
  }

  /** The JSON name of a field is the words between its underscores, all but the first with a
      capital letter in front. */
  lemma {:induction false} JsonNameWords(s: string)
    ensures (var words := Json.Split(s, '_'); LowerCamel(s) == words[0] + Capitals(words[1..]))
    decreases |s|
  {
    if s != "" {
      var rest := Json.Split(s[1..], '_');
      if s[0] != '_' {
        JsonNameWords(s[1..]);
        var words := [[s[0]] + rest[0]] + rest[1..];
        assert words[1..] == rest[1..];
        assert [s[0]] + (rest[0] + Capitals(rest[1..])) == ([s[0]] + rest[0]) + Capitals(rest[1..]);
      } else {
        assert ([""] + rest)[1..] == rest;
        WordFollows(s, rest);
      }
    }
  }

  lemma {:induction false} WordFollows(s: string, rest: seq<string>)
    requires s != "" && s[0] == '_' && rest == Json.Split(s[1..], '_')
    ensures LowerCamel(s) == "" + Capitals(rest)
    decreases |s|, 0
  {
    JsonNameWords(s[1..]);
    if |s| > 1 && s[1] != '_' {
      JsonNameWords(s[2..]);
      var r := Json.Split(s[2..], '_');
      assert s[1..][1..] == s[2..] && s[1..][0] == s[1];
      assert rest == [[s[1]] + r[0]] + r[1..] && rest[1..] == r[1..];
      assert Capital([s[1]] + r[0]) == [Upper(s[1])] + r[0];
      assert [Upper(s[1])] + (r[0] + Capitals(r[1..])) == ([Upper(s[1])] + r[0]) + Capitals(r[1..]);
    } else {
      assert rest[0] == "";
    }
  }

  // ---------------------------------------------------------------- calls and services

  /** The call `n` of the finished service `s`, from the call `m` that was parsed. */
  predicate FinishedMethod(m: Method, s: Service, n: Method) {
    && n.name == m.name && n.requestType == m.requestType && n.responseType == m.responseType
    && n.clientStreaming == m.clientStreaming && n.serverStreaming == m.serverStreaming
    && n.pkg == (if TrimSpace(m.pkg) != "" then TrimSpace(m.pkg) else TrimSpace(s.pkg))
    && n.serviceName == s.fullName && n.fullName == JoinName(s.fullName, m.name)
    && n.operationId == s.fullName + "/" + m.name
    && n.selector == "#/services/" + Escape(TrimSpace(s.fullName)) + "/methods/" + Escape(TrimSpace(m.name))
  }

  predicate FinishedService(s: Service, pkg: string, t: Service) {
    && t.name == s.name
    && t.pkg == (if s.pkg == "" then pkg else s.pkg)
    && t.fullName == (if s.fullName == "" then JoinName(t.pkg, s.name) else s.fullName)
    && |t.methods| == |s.methods|
    && forall i :: 0 <= i < |s.methods| ==> FinishedMethod(s.methods[i], t, t.methods[i])
  }

  ghost predicate FinishedFile(f: File, g: File) {
    && g.name == f.name && g.pkg == f.pkg && g.syntax == f.syntax && g.imports == f.imports && g.enums == f.enums
    && (exists services: seq<Service> ::
          && |services| == |f.services| && multiset(services) == multiset(g.services)
          && forall i :: 0 <= i < |services| ==> FinishedService(f.services[i], f.pkg, services[i]))
    && Ordering.Sorted(ServiceKey, g.services) && Ordering.Sorted(MessageKey, g.messages)
    && (exists messages: seq<Message> ::
          multiset(messages) == multiset(g.messages) && FinishedMessages(f.messages, messages))
  }

  /** A field keeps its JSON name, or gets the one of its words. */
  predicate FinishedField(f: Field, g: Field) {
    && g == f.(jsonName := g.jsonName)
    && var words := Json.Split(f.name, '_');
    g.jsonName == if f.jsonName == "" then words[0] + Capitals(words[1..]) else f.jsonName
  }

  predicate FinishedMessage(m: Message, n: Message)
    decreases m, 0
  {
    && n.name == m.name && n.fullName == m.fullName && n.enums == m.enums
    && |n.fields| == |m.fields| && (forall i :: 0 <= i < |m.fields| ==> FinishedField(m.fields[i], n.fields[i]))
    && FinishedMessages(m.messages, n.messages)
  }

  predicate FinishedMessages(ms: seq<Message>, ns: seq<Message>)
    decreases ms, 1
  {
    |ns| == |ms| && forall i :: 0 <= i < |ms| ==> FinishedMessage(ms[i], ns[i])
  }

  /** Finalizing keeps every file, sorted by name, and every service of a file, sorted by full
      name, and names its calls after it. */
  lemma FinalizedSays(files: seq<File>)
    ensures Ordering.Sorted(FileKey, Finalize(files))
    ensures exists done: seq<File> ::
              && |done| == |files| && multiset(done) == multiset(Finalize(files))
              && forall i :: 0 <= i < |files| ==> FinishedFile(files[i], done[i])
  {
    hide FinalizeFile, FinishedFile, Ordering.SortBy, Ordering.Sorted;
    var done := seq(|files|, i requires 0 <= i < |files| => FinalizeFile(files[i]));
    Ordering.SortBySorts(FileKey, done);
    forall i | 0 <= i < |files| ensures FinishedFile(files[i], done[i]) {
      FileFinished(files[i]);
    }
  }

  lemma {:induction false} FieldsFinished(fs: seq<Field>, i: nat)
    requires i < |fs|
    ensures |NamedInJson(fs)| == |fs| && FinishedField(fs[i], NamedInJson(fs)[i])
  {
    hide Capitals, LowerCamel;
    JsonNameWords(fs[0].name);
    if |fs| > 1 {
      FieldsFinished(fs[1..], if i > 0 then i - 1 else 0);
    }
  }

  lemma {:induction false} MessageFinished(m: Message)
    ensures FinishedMessage(m, FinalizeMessage(m))
    decreases m, 0
  {
    hide FinishedField, NamedInJson;
    forall i | 0 <= i < |m.fields|
      ensures |NamedInJson(m.fields)| == |m.fields| && FinishedField(m.fields[i], NamedInJson(m.fields)[i])
    {
      FieldsFinished(m.fields, i);
    }
    if m.fields == [] {
      NoFields();
    } else {
      FieldsFinished(m.fields, 0);
    }
    MessagesFinished(m.messages);
    assert FinalizeMessage(m).fields == NamedInJson(m.fields);
  }

  lemma NoFields()
    ensures NamedInJson([]) == []
  {
  }

  lemma {:induction false} MessagesFinished(ms: seq<Message>)
    ensures FinishedMessages(ms, FinalizeMessages(ms))
    decreases ms, 1
  {
    hide FinishedMessage, FinalizeMessage;
    if ms != [] {
      MessageFinished(ms[0]);
      MessagesFinished(ms[1..]);
      var rest := FinalizeMessages(ms[1..]);
      forall i | 0 <= i < |ms| ensures FinishedMessage(ms[i], ([FinalizeMessage(ms[0])] + rest)[i]) {
        if i > 0 {
          assert ms[1..][i - 1] == ms[i];
        }
      }
    }
  }

  lemma FileFinished(f: File)
    ensures FinishedFile(f, FinalizeFile(f))
  {
    hide FinalizeService, FinishedService, FinalizeMessages, FinishedMessages, Ordering.SortBy, Ordering.Sorted;
    MessagesFinished(f.messages);
    var services := seq(|f.services|, i requires 0 <= i < |f.services| => FinalizeService(f.services[i], f.pkg));
    Ordering.SortBySorts(ServiceKey, services);
    Ordering.SortBySorts(MessageKey, FinalizeMessages(f.messages));
    forall i | 0 <= i < |services| ensures FinishedService(f.services[i], f.pkg, services[i]) {
      ServiceFinished(f.services[i], f.pkg);
    }
  }

  lemma ServiceFinished(s: Service, pkg: string)
    ensures FinishedService(s, pkg, FinalizeService(s, pkg))
  {
    hide TrimSpace, Escape, JoinName, FinishedMethod;
    var t := FinalizeService(s, pkg);
    var u := t.(methods := s.methods);
    forall i | 0 <= i < |s.methods| ensures FinishedMethod(s.methods[i], t, t.methods[i]) {
      MethodFinished(s.methods[i], u, t);
      assert t.methods[i] == FinalizeMethod(s.methods[i], u);
    }
  }

  lemma MethodFinished(m: Method, s: Service, t: Service)
    requires t.pkg == s.pkg && t.fullName == s.fullName
    ensures FinishedMethod(m, t, FinalizeMethod(m, s))
  {
    hide TrimSpace, Escape, JoinName;
  }

  /** A file without services, messages and enums. */
  predicate Bare(f: File) {
    f.services == [] && f.messages == [] && f.enums == []
  }

  /** Descriptor files are accepted exactly when one of them has a service, message or enum. */
  lemma ConcludeExactly(files: seq<File>)
    ensures WireModel.Conclude(files)
         == if files == [] then WireModel.Rejected(WireModel.NoFiles)
            else if forall f <- files :: Bare(f) then WireModel.Rejected(WireModel.NoMetadata)
            else WireModel.Model(Finalize(files))
  {
    hide FinalizeFile, Ordering.SortBy;
    var done := seq(|files|, i requires 0 <= i < |files| => FinalizeFile(files[i]));
    Ordering.SortBySorts(FileKey, done);
    forall i | 0 <= i < |files| ensures Bare(done[i]) <==> Bare(files[i]) {
      BareStays(files[i]);
    }
    forall g ensures g in Finalize(files) <==> g in done {
      assert g in multiset(Finalize(files)) <==> g in multiset(done);
    }
    if f :| f in files && !Bare(f) {
      var i :| 0 <= i < |files| && files[i] == f;
      assert done[i] in done;
    }
    if HasMetadata(Finalize(files)) {
      var g :| g in Finalize(files) && !Bare(g);
      var i :| 0 <= i < |done| && done[i] == g;
      assert files[i] in files;
    }
  }

  lemma BareStays(f: File)
    ensures Bare(FinalizeFile(f)) <==> Bare(f)
  {
    hide FinalizeService, FinalizeMessages, Ordering.SortBy;
    FileFinished(f);
    var services := seq(|f.services|, i requires 0 <= i < |f.services| => FinalizeService(f.services[i], f.pkg));
    Ordering.SortBySorts(ServiceKey, services);
    Ordering.SortBySorts(MessageKey, FinalizeMessages(f.messages));
    MessagesFinished(f.messages);
    assert |multiset(Ordering.SortBy(ServiceKey, services))| == |services|;
    assert |multiset(Ordering.SortBy(MessageKey, FinalizeMessages(f.messages)))| == |f.messages|;
  }

  // ---------------------------------------------------------------- finding an operation

  /** The operation goes by this text: its ID, alone or after `operation:`, its name or one of
      its selectors. */
  predicate Answers(op: GraphQLModel.Operation, text: string) {
    text != "" && (|| text == TrimSpace(op.id) || text == TrimSpace(op.name) || text == TrimSpace("operation:" + op.id)
                   || text == TrimSpace(op.selector) || text == TrimSpace(op.sourceRef))
  }

  lemma AliasesExactly(op: GraphQLModel.Operation, text: string)
    ensures text in GraphQLModel.Aliases(op) <==> Answers(op, text)
  {
    hide TrimSpace;
    var list := [op.id, op.name, "operation:" + op.id, op.selector, op.sourceRef];
    assert list[0] in list && list[1] in list && list[2] in list && list[3] in list && list[4] in list;
  }

  /** Resolving a text gives the first operation that goes by it, white space aside. */
  lemma {:induction false} ResolvesExactly(ops: seq<GraphQLModel.Operation>, selector: string)
    ensures match GraphQLModel.ResolveSelector(ops, selector)
            case None => forall op <- ops :: !Answers(op, TrimSpace(selector))
            case Some(op) => exists i :: 0 <= i < |ops| && ops[i] == op && Answers(op, TrimSpace(selector))
                                         && forall j :: 0 <= j < i ==> !Answers(ops[j], TrimSpace(selector))
    decreases |ops|
  {
    hide TrimSpace, Answers, GraphQLModel.Aliases;
    if ops != [] {
      AliasesExactly(ops[0], TrimSpace(selector));
      if !Answers(ops[0], TrimSpace(selector)) {
        ResolvesExactly(ops[1..], selector);
        var r := GraphQLModel.ResolveSelector(ops[1..], selector);
        if r.Some? {
          var i :| 0 <= i < |ops[1..]| && ops[1..][i] == r.value && Answers(r.value, TrimSpace(selector))
                   && forall j :: 0 <= j < i ==> !Answers(ops[1..][j], TrimSpace(selector));
          assert ops[i + 1] == r.value;
          forall j | 0 <= j < i + 1 ensures !Answers(ops[j], TrimSpace(selector)) {
            assert j > 0 ==> ops[j] == ops[1..][j - 1];
          }
        }
      }
    }
  }
}
