/** What both front ends of grpcproto say about messages and enums: names, nesting, fields and
    enum values.  (Of a type that is not scalar, text knows no kind and a descriptor no spelling,
    so that only its full name is compared.) */
module ProtoOutlines {
  import opened Lexing
  import opened Ordering
  import opened ProtoAgreement
  import opened ProtoLexer
  import opened ProtoModel
  import opened ProtoSource
  import opened ProtoTextProofs
  import opened ProtoTextSpec
  import opened Text
  import opened Tokens
  import opened Wrappers
  import Compiled = Descriptors
  import DescriptorProofs
  import WireFormat
  import WireModel

  predicate IsScalar(t: string) {
    t in {"double", "float", "int64", "uint64", "int32", "fixed64", "fixed32", "bool", "string", "bytes", "uint32",
          "sfixed32", "sfixed64", "sint32", "sint64"}
  }

  /** The kinds of types that a file declares itself. */
  predicate IsDeclared(t: string) {
    t in {"message", "enum", "group"}
  }

  /** A field with the JSON name that finalizing leaves. */
  datatype FieldOutline = FieldOutline(name: string, number: int, scalar: string, typeName: string, jsonName: string,
                                       repeated: bool, required: bool)

  datatype Outline = Outline(name: string, fullName: string, fields: seq<FieldOutline>, nested: seq<Outline>,
                             enums: seq<Enum>)

  function FieldOutlineOf(f: Field): FieldOutline {
    FieldOutline(f.name, f.number, if IsScalar(f.typ) then f.typ else "", f.typeName,
                 if f.jsonName == "" then LowerCamel(f.name) else f.jsonName, f.repeated, f.required)
  }

  function FieldOutlines(fs: seq<Field>): seq<FieldOutline> {
    if fs == [] then [] else [FieldOutlineOf(fs[0])] + FieldOutlines(fs[1..])
  }

  function OutlineOf(m: Message): Outline
    decreases m, 0
  {
    Outline(m.name, m.fullName, FieldOutlines(m.fields), OutlinesOf(m.messages), m.enums)
  }

  function OutlinesOf(ms: seq<Message>): seq<Outline>
    decreases ms
  {
    if ms == [] then [] else [OutlineOf(ms[0])] + OutlinesOf(ms[1..])
  }

  // ---------------------------------------------------------------- one source, two forms

  /** The JSON name that the options of a field give it, or "". */
  function JsonOption(tokens: seq<Token>): string {
    if |tokens| < 3 then ""
    else if tokens[0] == N("json_name") && tokens[1] == P("=") && tokens[2].kind.Text? then tokens[2].value
    else JsonOption(tokens[1..])
  }

  function JsonNameOf(f: FieldSrc): string {
    var given := if f.options.None? then "" else JsonOption(f.options.value);
    if given == "" then LowerCamel(f.name) else given
  }

  /** A type that a file declares: a name of a scalar type is one after a dot. */
  predicate Declares(t: TypeSrc) {
    t.absolute || !IsScalar(TypeText(t))
  }

  /** A field in a descriptor: without a label it is optional, and a map is a list of entries. */
  predicate SameField(f: FieldSrc, d: Compiled.FieldDesc) {
    && d.name == f.name && d.number == f.number
    && (d.jsonName == JsonNameOf(f) || (d.jsonName == "" && JsonNameOf(f) == LowerCamel(f.name)))
    && match f
       case MapSrc(_, _, _, _) => LabelName(d.cardinality) == "repeated" && TypeName(d.typ) == "message"
       case FieldSrc(cardinality, typ, _, _, _) =>
         && LabelName(d.cardinality) == (if cardinality == "" then "optional" else cardinality)
         && (if Declares(typ) then IsDeclared(TypeName(d.typ)) && Names(d.typeName, typ)
             else TypeName(d.typ) == TypeText(typ) && d.typeName == "")
  }

  predicate SameFields(fs: seq<FieldSrc>, ds: seq<Compiled.FieldDesc>) {
    if fs == [] then ds == [] else ds != [] && SameField(fs[0], ds[0]) && SameFields(fs[1..], ds[1..])
  }

  predicate SameEnum(e: EnumSrc, d: Compiled.EnumDesc) {
    d.name == e.name && SameValues(e.items, d.values)
  }

  predicate SameEnumItems(items: seq<BodySrc>, ds: seq<Compiled.EnumDesc>) {
    if items == [] then ds == []
    else if !items[0].EnumItem? then SameEnumItems(items[1..], ds)
    else ds != [] && SameEnum(items[0].enumeration, ds[0]) && SameEnumItems(items[1..], ds[1..])
  }

  /** The fields of the items in order, those of oneofs among them. */
  function FieldsOf(items: seq<BodySrc>): seq<FieldSrc> {
    if items == [] then []
    else
      (match items[0]
       case FieldItem(f) => [f]
       case OneofItem(_, fields) => fields
       case _ => []) + FieldsOf(items[1..])
  }

  /** The nested descriptors are those of the nested messages and one for the entries of each
      map field. */
  predicate SameNested(items: seq<BodySrc>, ds: seq<Compiled.MessageDesc>)
    decreases items
  {
    if items == [] then ds == []
    else
      match items[0]
      case NestedItem(_) => ds != [] && SameNestedItem(items[0], ds[0]) && SameNested(items[1..], ds[1..])
      case FieldItem(MapSrc(_, _, _, _)) => ds != [] && SameNested(items[1..], ds[1..])
      case _ => SameNested(items[1..], ds)
  }

  predicate SameNestedItem(i: BodySrc, d: Compiled.MessageDesc)
    decreases i
  {
    i.NestedItem? && SameMessage(i.message, d)
  }

  predicate SameMessage(m: MessageSrc, d: Compiled.MessageDesc)
    decreases m
  {
    && d.name == m.name && SameFields(FieldsOf(m.items), d.fields) && SameNested(m.items, d.nested)
    && SameEnumItems(m.items, d.enums)
  }

  predicate SameMessages(ss: seq<StatementSrc>, ds: seq<Compiled.MessageDesc>) {
    if ss == [] then ds == []
    else if !ss[0].MessageStmt? then SameMessages(ss[1..], ds)
    else ds != [] && SameMessage(ss[0].message, ds[0]) && SameMessages(ss[1..], ds[1..])
  }

  predicate SameEnums(ss: seq<StatementSrc>, ds: seq<Compiled.EnumDesc>) {
    if ss == [] then ds == []
    else if !ss[0].EnumStmt? then SameEnums(ss[1..], ds)
    else ds != [] && SameEnum(ss[0].enumeration, ds[0]) && SameEnums(ss[1..], ds[1..])
  }

  // ---------------------------------------------------------------- what is read alike

  /** No map and no JSON name of its own; and a type that the file declares is written in full,
      with a dot inside or a capital letter first, by which the text parser knows it. */
  predicate ReadAlike(f: FieldSrc, d: Compiled.FieldDesc) {
    && f.FieldSrc? && JsonNameOf(f) == LowerCamel(f.name)
    && (Declares(f.typ) ==> d.typeName == "." + TypeText(f.typ) && NamesType(TypeText(f.typ)))
  }

  predicate AlikeFields(fs: seq<FieldSrc>, ds: seq<Compiled.FieldDesc>)
    requires SameFields(fs, ds)
  {
    fs == [] || (ReadAlike(fs[0], ds[0]) && AlikeFields(fs[1..], ds[1..]))
  }

  predicate AlikeEnums(items: seq<BodySrc>) {
    items == [] || ((items[0].EnumItem? ==> NonNegative(items[0].enumeration.items)) && AlikeEnums(items[1..]))
  }

  predicate AlikeNested(items: seq<BodySrc>, ds: seq<Compiled.MessageDesc>)
    requires SameNested(items, ds)
    decreases items
  {
    if items == [] then true
    else
      match items[0]
      case NestedItem(_) => AlikeNestedItem(items[0], ds[0]) && AlikeNested(items[1..], ds[1..])
      case FieldItem(MapSrc(_, _, _, _)) => false
      case _ => AlikeNested(items[1..], ds)
  }

  predicate AlikeNestedItem(i: BodySrc, d: Compiled.MessageDesc)
    requires SameNestedItem(i, d)
    decreases i
  {
    AlikeMessage(i.message, d)
  }

  /** All fields can be read alike and no enum number is negative, at any depth. */
  predicate AlikeMessage(m: MessageSrc, d: Compiled.MessageDesc)
    requires SameMessage(m, d)
    decreases m
  {
    AlikeFields(FieldsOf(m.items), d.fields) && AlikeNested(m.items, d.nested) && AlikeEnums(m.items)
  }

  predicate AlikeMessages(ss: seq<StatementSrc>, ds: seq<Compiled.MessageDesc>)
    requires SameMessages(ss, ds)
  {
    if ss == [] then true
    else if !ss[0].MessageStmt? then AlikeMessages(ss[1..], ds)
    else AlikeMessage(ss[0].message, ds[0]) && AlikeMessages(ss[1..], ds[1..])
  }

  predicate AlikeEnumStatements(ss: seq<StatementSrc>) {
    ss == [] || ((ss[0].EnumStmt? ==> NonNegative(ss[0].enumeration.items)) && AlikeEnumStatements(ss[1..]))
  }

  /** Every message, or every enum, stands where the package is already that of the file. */
  predicate MessagesScoped(ss: seq<StatementSrc>, here: string, pkg: string)
    decreases |ss|
  {
    if ss == [] then true
    else
      && (ss[0].MessageStmt? ==> here == pkg)
      && MessagesScoped(ss[1..], if ss[0].PackageStmt? then PackageText(ss[0].pkg) else here, pkg)
  }

  predicate EnumsScoped(ss: seq<StatementSrc>, here: string, pkg: string)
    decreases |ss|
  {
    if ss == [] then true
    else
      && (ss[0].EnumStmt? ==> here == pkg)
      && EnumsScoped(ss[1..], if ss[0].PackageStmt? then PackageText(ss[0].pkg) else here, pkg)
  }

  // ---------------------------------------------------------------- lists

  lemma OutlinesStep(ms: seq<Message>)
    requires ms != []
    ensures OutlinesOf(ms) == [OutlineOf(ms[0])] + OutlinesOf(ms[1..])
  {
  }

  lemma OutlinesCons(m: Message, ms: seq<Message>)
    ensures OutlinesOf([m] + ms) == [OutlineOf(m)] + OutlinesOf(ms)
  {
    hide OutlinesOf, OutlineOf;
    OutlinesStep([m] + ms);
    assert ([m] + ms)[1..] == ms;
  }

  lemma NoOutlines()
    ensures OutlinesOf([]) == []
  {
  }

  lemma ConsEqual<T>(x: T, a: seq<T>, y: T, b: seq<T>)
    ensures [x] + a == [y] + b <==> x == y && a == b
  {
    if [x] + a == [y] + b {
      assert ([x] + a)[0] == ([y] + b)[0];
      assert ([x] + a)[1..] == a && ([y] + b)[1..] == b;
    }
  }

  // ---------------------------------------------------------------- fields

  lemma DeclaredNotScalar(t: string)
    ensures IsDeclared(t) ==> !IsScalar(t)
    ensures IsScalar(t) ==> t != "" && !NamesType(t)
  {
  }

  /** The type of a field is read alike exactly when it is scalar or written in full. */
  lemma TypesRead(t: TypeSrc, d: Compiled.FieldDesc)
    requires GoodType(t)
    requires if Declares(t) then IsDeclared(TypeName(d.typ)) && Names(d.typeName, t)
             else TypeName(d.typ) == TypeText(t) && d.typeName == ""
    ensures (var text, kind := TypeText(t), TypeName(d.typ);
             (if IsScalar(text) then text else "") == (if IsScalar(kind) then kind else "")
             && (if NamesType(text) then text else "") == NormalizeTypeName(d.typeName)
             <==> (Declares(t) ==> d.typeName == "." + text && NamesType(text)))
  {
    hide TypeText, TypeName, IsScalar, IsDeclared, NamesType, GoodType, NormalizeTypeName, Names;
    DeclaredNotScalar(TypeName(d.typ));
    DeclaredNotScalar(TypeText(t));
    if Declares(t) {
      CompiledType(t, d.typeName);
    } else {
      NothingNormalized();
    }
  }

  lemma NothingNormalized()
    ensures NormalizeTypeName("") == ""
  {
  }

  /** The two readings of a field agree exactly when it is one that can be read alike. */
  lemma FieldAgreesExactly(f: FieldSrc, d: Compiled.FieldDesc)
    requires GoodField(f) && SameField(f, d)
    ensures |Compiled.FieldMeaning(d)| == 1
    ensures FieldOutlineOf(FieldMeaning(f)) == FieldOutlineOf(Compiled.FieldMeaning(d)[0]) <==> ReadAlike(f, d)
  {
    hide GoodOptions, GoodType, JsonOption, LowerCamel, NormalizeTypeName, TypeText, TypeName, IsScalar, IsDeclared,
         NamesType, Names, Declares;
    GoodNameNotEmpty(f.name);
    if f.FieldSrc? {
      TypesRead(f.typ, d);
    }
  }

  lemma {:induction false} FieldsAgree(fs: seq<FieldSrc>, ds: seq<Compiled.FieldDesc>)
    requires GoodFields(fs) && SameFields(fs, ds)
    ensures FieldOutlines(FieldsMeaning(fs)) == FieldOutlines(Compiled.FieldsMeaning(ds)) <==> AlikeFields(fs, ds)
    decreases |fs|
  {
    hide GoodField, SameField, ReadAlike, FieldMeaning, Compiled.FieldMeaning, FieldOutlineOf;
    if fs != [] {
      FieldAgreesExactly(fs[0], ds[0]);
      FieldsAgree(fs[1..], ds[1..]);
      var one, rest := Compiled.FieldMeaning(ds[0]), Compiled.FieldsMeaning(ds[1..]);
      assert one == [one[0]] && (one + rest)[1..] == rest;
      ConsEqual(FieldOutlineOf(FieldMeaning(fs[0])), FieldOutlines(FieldsMeaning(fs[1..])),
                FieldOutlineOf(one[0]), FieldOutlines(rest));
    }
  }

  lemma {:induction false} FieldsOfItems(items: seq<BodySrc>, depth: nat)
    requires GoodItems(items, depth)
    ensures ItemsFields(items) == FieldsMeaning(FieldsOf(items)) && GoodFields(FieldsOf(items))
    decreases |items|
  {
    hide GoodField, FieldMeaning, GoodMessage, GoodEnum;
    if items != [] {
      FieldsOfItems(items[1..], depth);
      match items[0] {
        case FieldItem(f) =>
          FieldsMeaningJoin([f], FieldsOf(items[1..]));
          assert FieldsMeaning([f]) == [FieldMeaning(f)];
        case OneofItem(_, fields) => FieldsMeaningJoin(fields, FieldsOf(items[1..]));
        case _ =>
          assert [] + FieldsOf(items[1..]) == FieldsOf(items[1..]);
          assert [] + ItemsFields(items[1..]) == ItemsFields(items[1..]);
      }
    }
  }

  lemma {:induction false} FieldsMeaningJoin(a: seq<FieldSrc>, b: seq<FieldSrc>)
    ensures FieldsMeaning(a + b) == FieldsMeaning(a) + FieldsMeaning(b)
    decreases |a|
  {
    hide FieldMeaning;
    if a == [] {
      assert a + b == b;
    } else {
      assert (a + b)[1..] == a[1..] + b;
      FieldsMeaningJoin(a[1..], b);
    }
  }

  lemma {:induction false} AlikeJoin(a: seq<FieldSrc>, b: seq<FieldSrc>, ds: seq<Compiled.FieldDesc>)
    requires SameFields(a + b, ds) && AlikeFields(a + b, ds)
    ensures |a| <= |ds| && SameFields(b, ds[|a|..]) && AlikeFields(b, ds[|a|..])
    decreases |a|
  {
    hide SameField, ReadAlike;
    if a == [] {
      assert a + b == b && ds[0..] == ds;
    } else {
      assert (a + b)[1..] == a[1..] + b;
      AlikeJoin(a[1..], b, ds[1..]);
      assert ds[1..][|a| - 1..] == ds[|a|..];
    }
  }

  /** Where all fields can be read alike there is no map. */
  lemma {:induction false} NoMaps(items: seq<BodySrc>, ds: seq<Compiled.FieldDesc>)
    requires SameFields(FieldsOf(items), ds) && AlikeFields(FieldsOf(items), ds)
    ensures MapFree(items)
    decreases |items|
  {
    hide SameField;
    if items != [] {
      var rest := FieldsOf(items[1..]);
      match items[0] {
        case FieldItem(f) =>
          assert FieldsOf(items) == [f] + rest && FieldsOf(items)[0] == f;
          AlikeJoin([f], rest, ds);
          NoMaps(items[1..], ds[1..]);
        case OneofItem(_, fields) =>
          AlikeJoin(fields, rest, ds);
          NoMaps(items[1..], ds[|fields|..]);
        case _ =>
          assert [] + rest == rest;
          NoMaps(items[1..], ds);
      }
    }
  }

  predicate MapFree(items: seq<BodySrc>) {
    items == [] || (!(items[0].FieldItem? && items[0].field.MapSrc?) && MapFree(items[1..]))
  }

  // ---------------------------------------------------------------- messages

  lemma EnumAgrees(e: EnumSrc, d: Compiled.EnumDesc, pkg: string, parent: string)
    requires GoodEnum(e) && SameEnum(e, d)
    ensures |Compiled.EnumMeaning(d, pkg, parent)| == 1
    ensures EnumMeaning(e, pkg, parent) == Compiled.EnumMeaning(d, pkg, parent)[0] <==> NonNegative(e.items)
  {
    hide NonNegative, GoodValues, JoinName, IsName, ValuesMeaning, Compiled.ValuesMeaning, SameValues;
    GoodNameNotEmpty(e.name);
    EnumsAgreeExactly(e, d, pkg, parent);
    var x, y := EnumMeaning(e, pkg, parent), Compiled.EnumMeaning(d, pkg, parent);
    assert y == [y[0]];
  }

  lemma {:induction false} EnumItemsAgree(items: seq<BodySrc>, ds: seq<Compiled.EnumDesc>, pkg: string,
                                          parent: string, depth: nat)
    requires GoodItems(items, depth) && SameEnumItems(items, ds)
    ensures ItemsEnums(items, pkg, parent) == Compiled.EnumsMeaning(ds, pkg, parent) <==> AlikeEnums(items)
    decreases |items|
  {
    hide EnumMeaning, Compiled.EnumMeaning, SameEnum, GoodEnum, NonNegative, GoodMessage, GoodField;
    if items != [] {
      if items[0].EnumItem? {
        var e := items[0].enumeration;
        EnumAgrees(e, ds[0], pkg, parent);
        EnumItemsAgree(items[1..], ds[1..], pkg, parent, depth);
        var one := Compiled.EnumMeaning(ds[0], pkg, parent);
        assert one == [one[0]];
        ConsEqual(EnumMeaning(e, pkg, parent), ItemsEnums(items[1..], pkg, parent), one[0],
                  Compiled.EnumsMeaning(ds[1..], pkg, parent));
      } else {
        EnumItemsAgree(items[1..], ds, pkg, parent, depth);
        assert [] + ItemsEnums(items[1..], pkg, parent) == ItemsEnums(items[1..], pkg, parent);
      }
    }
  }

  /** The two readings of a message agree, under the same parent, exactly when its fields and
      enums, at any depth, can be read alike. */
  lemma {:induction false} MessageAgreesExactly(m: MessageSrc, d: Compiled.MessageDesc, pkg: string, parent: string,
                                                depth: nat)
    requires GoodMessage(m, depth) && SameMessage(m, d)
    ensures |Compiled.MessageMeaning(d, pkg, parent)| == 1
    ensures OutlineOf(MessageMeaning(m, pkg, parent)) == OutlineOf(Compiled.MessageMeaning(d, pkg, parent)[0])
       <==> AlikeMessage(m, d)
    decreases m, 1
  {
    hide JoinName, ItemsMessages, Compiled.MessagesMeaning, ItemsEnums, Compiled.EnumsMeaning, OutlinesOf, SameNested,
         SameEnumItems, GoodItems, AlikeNested, AlikeFields, AlikeEnums, ItemsFields, FieldsMeaning,
         Compiled.FieldsMeaning, IsName, SameFields, FieldsOf, FieldOutlines, GoodFields, MapFree;
    GoodNameNotEmpty(m.name);
    var path := JoinName(parent, m.name);
    FieldsOfItems(m.items, depth + 1);
    FieldsAgree(FieldsOf(m.items), d.fields);
    EnumItemsAgree(m.items, d.enums, pkg, path, depth + 1);
    if AlikeFields(FieldsOf(m.items), d.fields) {
      NoMaps(m.items, d.fields);
      NestedAgree(m.items, d.nested, pkg, path, depth + 1);
    }
  }

  lemma {:induction false} NestedAgree(items: seq<BodySrc>, ds: seq<Compiled.MessageDesc>, pkg: string, path: string,
                                       depth: nat)
    requires GoodItems(items, depth) && SameNested(items, ds) && MapFree(items)
    ensures OutlinesOf(ItemsMessages(items, pkg, path)) == OutlinesOf(Compiled.MessagesMeaning(ds, pkg, path))
       <==> AlikeNested(items, ds)
    decreases items, 0
  {
    hide OutlineOf, OutlinesOf, MessageMeaning, Compiled.MessageMeaning, GoodMessage, GoodField, GoodEnum,
         SameNestedItem, AlikeNestedItem;
    if items != [] {
      match items[0] {
        case NestedItem(m) =>
          ItemAgrees(items[0], ds[0], pkg, path, depth);
          NestedAgree(items[1..], ds[1..], pkg, path, depth);
          var one, rest := Compiled.MessageMeaning(ds[0], pkg, path), Compiled.MessagesMeaning(ds[1..], pkg, path);
          OutlinesCons(one[0], rest);
          OutlinesCons(MessageMeaning(m, pkg, path), ItemsMessages(items[1..], pkg, path));
          assert one == [one[0]];
          ConsEqual(OutlineOf(MessageMeaning(m, pkg, path)), OutlinesOf(ItemsMessages(items[1..], pkg, path)),
                    OutlineOf(one[0]), OutlinesOf(rest));
        case _ =>
          NestedAgree(items[1..], ds, pkg, path, depth);
          assert [] + ItemsMessages(items[1..], pkg, path) == ItemsMessages(items[1..], pkg, path);
      }
    }
  }

  lemma {:induction false} ItemAgrees(i: BodySrc, d: Compiled.MessageDesc, pkg: string, path: string, depth: nat)
    requires GoodItem(i, depth) && SameNestedItem(i, d)
    ensures |Compiled.MessageMeaning(d, pkg, path)| == 1
    ensures OutlineOf(MessageMeaning(i.message, pkg, path)) == OutlineOf(Compiled.MessageMeaning(d, pkg, path)[0])
       <==> AlikeNestedItem(i, d)
    decreases i, 1
  {
    hide OutlineOf, MessageMeaning, Compiled.MessageMeaning, GoodMessage, SameMessage, AlikeMessage;
    MessageAgreesExactly(i.message, d, pkg, path, depth);
  }

  // ---------------------------------------------------------------- files

  /** The messages and enums that the statements add in the packages they name. */
  function TextMessages(ss: seq<StatementSrc>, here: string): seq<Message>
    decreases |ss|
  {
    if ss == [] then []
    else
      (if ss[0].MessageStmt? then [MessageMeaning(ss[0].message, here, "")] else [])
      + TextMessages(ss[1..], if ss[0].PackageStmt? then PackageText(ss[0].pkg) else here)
  }

  function TextEnums(ss: seq<StatementSrc>, here: string): seq<Enum>
    decreases |ss|
  {
    if ss == [] then []
    else
      (if ss[0].EnumStmt? then [EnumMeaning(ss[0].enumeration, here, "")] else [])
      + TextEnums(ss[1..], if ss[0].PackageStmt? then PackageText(ss[0].pkg) else here)
  }

  lemma StatementTypes(s: StatementSrc, f: File)
    ensures (var g := StatementMeaning(s, f);
             && g.pkg == (if s.PackageStmt? then PackageText(s.pkg) else f.pkg)
             && g.messages == f.messages + (if s.MessageStmt? then [MessageMeaning(s.message, f.pkg, "")] else [])
             && g.enums == f.enums + (if s.EnumStmt? then [EnumMeaning(s.enumeration, f.pkg, "")] else []))
  {
    hide ServiceMeaning, MessageMeaning, EnumMeaning;
    assert f.messages + [] == f.messages && f.enums + [] == f.enums;
  }

  lemma {:induction false} TypesListed(ss: seq<StatementSrc>, f: File)
    ensures FileMeaning(ss, f).messages == f.messages + TextMessages(ss, f.pkg)
    ensures FileMeaning(ss, f).enums == f.enums + TextEnums(ss, f.pkg)
    decreases |ss|
  {
    hide StatementMeaning, MessageMeaning, EnumMeaning, PackageText;
    if ss == [] {
      assert f.messages + [] == f.messages && f.enums + [] == f.enums;
    } else {
      var g := StatementMeaning(ss[0], f);
      var ms := if ss[0].MessageStmt? then [MessageMeaning(ss[0].message, f.pkg, "")] else [];
      var es := if ss[0].EnumStmt? then [EnumMeaning(ss[0].enumeration, f.pkg, "")] else [];
      StatementTypes(ss[0], f);
      TypesListed(ss[1..], g);
      assert (f.messages + ms) + TextMessages(ss[1..], g.pkg) == f.messages + (ms + TextMessages(ss[1..], g.pkg));
      assert (f.enums + es) + TextEnums(ss[1..], g.pkg) == f.enums + (es + TextEnums(ss[1..], g.pkg));
    }
  }

  function OutlineKey(o: Outline): string {
    o.fullName
  }

  function EnumKey(e: Enum): string {
    e.fullName
  }

  lemma TopName(name: string)
    requires IsName(name)
    ensures JoinName("", name) == name
  {
    hide JoinName, Plainly, IsName;
    NoDotsToTrim("");
    PlainJoined("", name);
  }

  /** A message or enum read in another package keeps that in its full name. */
  lemma MessageMatches(s: StatementSrc, d: Compiled.MessageDesc, here: string, pkg: string)
    requires GoodStatement(s) && s.MessageStmt? && SameMessage(s.message, d) && Plainly(here) && Plainly(pkg)
    ensures |Compiled.MessageMeaning(d, pkg, "")| == 1
    ensures (var x, y := OutlineOf(MessageMeaning(s.message, here, "")),
                         OutlineOf(Compiled.MessageMeaning(d, pkg, "")[0]);
             && Home(pkg)(y.fullName) && (x.fullName == y.fullName || !Home(pkg)(x.fullName))
             && (x == y <==> here == pkg && AlikeMessage(s.message, d)))
  {
    hide JoinName, Plainly, Home, SameFields, SameNested, SameEnumItems, GoodItems, FieldsOf, AlikeMessage, ItemsFields,
         ItemsMessages, ItemsEnums, Compiled.FieldsMeaning, Compiled.MessagesMeaning, Compiled.EnumsMeaning, IsName,
         FieldOutlines, OutlinesOf;
    MessageAgreesExactly(s.message, d, pkg, "", 0);
    TopName(s.message.name);
    DeclaredIn(here, pkg, s.message.name);
    DeclaredIn(pkg, pkg, s.message.name);
  }

  lemma EnumMatches(s: StatementSrc, d: Compiled.EnumDesc, here: string, pkg: string)
    requires GoodStatement(s) && s.EnumStmt? && SameEnum(s.enumeration, d) && Plainly(here) && Plainly(pkg)
    ensures |Compiled.EnumMeaning(d, pkg, "")| == 1
    ensures EnumMeaning(s.enumeration, here, "") == Compiled.EnumMeaning(d, pkg, "")[0]
       <==> here == pkg && NonNegative(s.enumeration.items)
  {
    hide JoinName, Plainly, Home, SameValues, GoodValues, ValuesMeaning, Compiled.ValuesMeaning, IsName, NonNegative;
    EnumAgrees(s.enumeration, d, pkg, "");
    TopName(s.enumeration.name);
    DeclaredIn(here, pkg, s.enumeration.name);
  }

  lemma NothingPlaced(pkg: string)
    ensures Placed(OutlineKey, OutlinesOf([]), OutlinesOf([]), Home(pkg))
  {
  }

  lemma {:induction false} MessagesMatch(ss: seq<StatementSrc>, ds: seq<Compiled.MessageDesc>, here: string,
                                         pkg: string)
    requires GoodFile(ss) && Relative(ss) && SameMessages(ss, ds) && Plainly(here) && Plainly(pkg)
    ensures (var a, b := OutlinesOf(TextMessages(ss, here)), OutlinesOf(Compiled.MessagesMeaning(ds, pkg, ""));
             && Placed(OutlineKey, a, b, Home(pkg))
             && (a == b <==> MessagesScoped(ss, here, pkg) && AlikeMessages(ss, ds)))
    decreases |ss|
  {
    hide MessageMeaning, Compiled.MessageMeaning, OutlineOf, OutlinesOf, SameMessage, AlikeMessage, GoodStatement,
         Plainly, PackageText, Home, Placed;
    if ss == [] {
      NothingPlaced(pkg);
    } else {
      assert GoodStatement(ss[0]);
      var next := if ss[0].PackageStmt? then PackageText(ss[0].pkg) else here;
      if ss[0].PackageStmt? {
        PackageGood(ss[0]);
        PackagePlain(ss[0].pkg);
      }
      if ss[0].MessageStmt? {
        MessageMatches(ss[0], ds[0], here, pkg);
        MessagesMatch(ss[1..], ds[1..], here, pkg);
        var x, y := MessageMeaning(ss[0].message, here, ""), Compiled.MessageMeaning(ds[0], pkg, "");
        var a, b := TextMessages(ss[1..], here), Compiled.MessagesMeaning(ds[1..], pkg, "");
        assert y == [y[0]];
        OutlinesCons(x, a);
        OutlinesCons(y[0], b);
        PlacedCons(OutlineKey, OutlineOf(x), OutlinesOf(a), OutlineOf(y[0]), OutlinesOf(b), Home(pkg));
      } else {
        MessagesMatch(ss[1..], ds, next, pkg);
        assert [] + TextMessages(ss[1..], next) == TextMessages(ss[1..], next);
      }
    }
  }

  lemma {:induction false} EnumsMatch(ss: seq<StatementSrc>, ds: seq<Compiled.EnumDesc>, here: string, pkg: string)
    requires GoodFile(ss) && Relative(ss) && SameEnums(ss, ds) && Plainly(here) && Plainly(pkg)
    ensures TextEnums(ss, here) == Compiled.EnumsMeaning(ds, pkg, "")
       <==> EnumsScoped(ss, here, pkg) && AlikeEnumStatements(ss)
    decreases |ss|
  {
    hide EnumMeaning, Compiled.EnumMeaning, SameEnum, NonNegative, GoodStatement, Plainly, PackageText;
    if ss != [] {
      assert GoodStatement(ss[0]);
      var next := if ss[0].PackageStmt? then PackageText(ss[0].pkg) else here;
      if ss[0].PackageStmt? {
        PackageGood(ss[0]);
        PackagePlain(ss[0].pkg);
      }
      if ss[0].EnumStmt? {
        EnumMatches(ss[0], ds[0], here, pkg);
        EnumsMatch(ss[1..], ds[1..], here, pkg);
        var y := Compiled.EnumMeaning(ds[0], pkg, "");
        assert y == [y[0]];
        ConsEqual(EnumMeaning(ss[0].enumeration, here, ""), TextEnums(ss[1..], here), y[0],
                  Compiled.EnumsMeaning(ds[1..], pkg, ""));
      } else {
        EnumsMatch(ss[1..], ds, next, pkg);
        assert [] + TextEnums(ss[1..], next) == TextEnums(ss[1..], next);
      }
    }
  }

  // ---------------------------------------------------------------- finalizing

  lemma {:induction false} InsertOutlines(m: Message, ms: seq<Message>)
    ensures OutlinesOf(Insert(MessageKey, m, ms)) == Insert(OutlineKey, OutlineOf(m), OutlinesOf(ms))
    decreases |ms|
  {
    hide OutlinesOf, Less, AtMost;
    if ms == [] {
      NoOutlines();
      OutlinesCons(m, []);
    } else {
      OutlinesStep(ms);
      InsertOutlines(m, ms[1..]);
      OutlinesCons(m, ms);
      OutlinesCons(ms[0], Insert(MessageKey, m, ms[1..]));
      assert OutlinesOf(ms)[1..] == OutlinesOf(ms[1..]);
    }
  }

  /** Sorting messages sorts their outlines. */
  lemma {:induction false} SortOutlines(ms: seq<Message>)
    ensures OutlinesOf(SortBy(MessageKey, ms)) == SortBy(OutlineKey, OutlinesOf(ms))
    decreases |ms|
  {
    hide OutlinesOf, Insert;
    if ms == [] {
      NoOutlines();
    } else {
      OutlinesStep(ms);
      SortOutlines(ms[1..]);
      InsertOutlines(ms[0], SortBy(MessageKey, ms[1..]));
      assert OutlinesOf(ms)[1..] == OutlinesOf(ms[1..]);
    }
  }

  /** Finalizing fills in JSON names only. */
  lemma {:induction false} FinalizedOutlines(ms: seq<Message>)
    ensures OutlinesOf(FinalizeMessages(ms)) == OutlinesOf(ms)
    decreases ms, 0
  {
    hide OutlinesOf, OutlineOf, FinalizeMessage;
    if ms == [] {
      NoOutlines();
    } else {
      OutlinesStep(ms);
      FinalizedOutline(ms[0]);
      FinalizedOutlines(ms[1..]);
      OutlinesCons(FinalizeMessage(ms[0]), FinalizeMessages(ms[1..]));
    }
  }

  lemma {:induction false} FinalizedOutline(m: Message)
    ensures OutlineOf(FinalizeMessage(m)) == OutlineOf(m)
    decreases m, 1
  {
    hide OutlinesOf, FinalizeMessages, NamedInJson, FieldOutlines;
    FinalizedOutlines(m.messages);
    FinalizedFields(m.fields);
  }

  lemma {:induction false} FinalizedFields(fs: seq<Field>)
    ensures FieldOutlines(NamedInJson(fs)) == FieldOutlines(fs)
  {
    hide LowerCamel;
    if fs != [] {
      FinalizedFields(fs[1..]);
    }
  }

  lemma TypesOfFile(f: File)
    ensures OutlinesOf(FinalizeFile(f).messages) == SortBy(OutlineKey, OutlinesOf(f.messages))
    ensures FinalizeFile(f).enums == f.enums
  {
    hide OutlinesOf, FinalizeMessages, FinalizeService, SortBy;
    SortOutlines(FinalizeMessages(f.messages));
    FinalizedOutlines(f.messages);
  }

  /** A file and the descriptor compiled from it have the same messages, nested ones included,
      with the same full names and fields, and the same enums, exactly when every message and
      enum stands where the package is already that of the file, and all fields and enums can
      be read alike. */
  lemma TypesAgreeExactly(ss: seq<StatementSrc>, d: Compiled.FileDesc)
    requires GoodFile(ss) && Relative(ss) && d.pkg == FilePackage(ss, "")
    requires SameMessages(ss, d.messages) && SameEnums(ss, d.enums)
    ensures (var text, compiled := FinalizeFile(FileMeaning(ss, NewFile)), FinalizeFile(Compiled.FileMeaning(d));
             && (OutlinesOf(text.messages) == OutlinesOf(compiled.messages)
                 <==> MessagesScoped(ss, "", d.pkg) && AlikeMessages(ss, d.messages))
             && (text.enums == compiled.enums <==> EnumsScoped(ss, "", d.pkg) && AlikeEnumStatements(ss)))
  {
    hide FileMeaning, GoodFile, SameMessages, SameEnums, OutlinesOf, SortBy, FinalizeFile, MessagesScoped, EnumsScoped,
         AlikeMessages, AlikeEnumStatements, FilePackage, Relative, Plainly, Placed, Home, Compiled.ServicesMeaning,
         Compiled.MessagesMeaning, Compiled.EnumsMeaning;
    var text, compiled := FileMeaning(ss, NewFile), Compiled.FileMeaning(d);
    NoDotsToTrim("");
    PackageOfFile(ss, NewFile);
    TypesListed(ss, NewFile);
    assert [] + TextMessages(ss, "") == TextMessages(ss, "") && [] + TextEnums(ss, "") == TextEnums(ss, "");
    TypesOfFile(text);
    TypesOfFile(compiled);
    MessagesMatch(ss, d.messages, "", d.pkg);
    EnumsMatch(ss, d.enums, "", d.pkg);
    SortedAgree(OutlineKey, OutlinesOf(text.messages), OutlinesOf(compiled.messages), Home(d.pkg));
  }

  // ---------------------------------------------------------------- the two front ends

  /** One file each, with the same messages and enums. */
  predicate SameTypesRead(text: Outcome, binary: WireModel.Parsed) {
    && text.Parsed? && |text.files| == 1 && binary.Model? && |binary.files| == 1
    && OutlinesOf(text.files[0].messages) == OutlinesOf(binary.files[0].messages)
    && text.files[0].enums == binary.files[0].enums
  }

  /** Reading the text of a file and reading the descriptor set compiled from it, when both are
      accepted, give the same messages and enums exactly under these conditions. */
  lemma TypesReadAlikeExactly(ss: seq<StatementSrc>, d: Compiled.FileDesc)
    requires GoodFile(ss) && Relative(ss) && AllPrintable(FileTokens(ss)) && d.pkg == FilePackage(ss, "")
    requires SameMessages(ss, d.messages) && SameEnums(ss, d.enums)
    requires ParseProtoText(Render(FileTokens(ss))).Parsed?
    requires |DescriptorProofs.EncodeSet([d])| <= WireFormat.MAX_DOCUMENT_BYTES
    requires WireModel.ParseDescriptorSet(DescriptorProofs.EncodeSet([d])).Model?
    ensures SameTypesRead(ParseProtoText(Render(FileTokens(ss))),
                          WireModel.ParseDescriptorSet(DescriptorProofs.EncodeSet([d])))
       <==> MessagesScoped(ss, "", d.pkg) && AlikeMessages(ss, d.messages)
            && EnumsScoped(ss, "", d.pkg) && AlikeEnumStatements(ss)
  {
    hide *;
    var text, compiled := FileMeaning(ss, NewFile), Compiled.FileMeaning(d);
    TextRoundTrip(ss);
    OneFile(text);
    DescriptorProofs.SetRoundTrip([d]);
    OneCompiled(d);
    OneFile(compiled);
    Concluded(compiled);
    TypesAgreeExactly(ss, d);
    TypesReadMeans(ParseProtoText(Render(FileTokens(ss))),
                   WireModel.ParseDescriptorSet(DescriptorProofs.EncodeSet([d])));
  }

  lemma TypesReadMeans(text: Outcome, binary: WireModel.Parsed)
    requires text.Parsed? && |text.files| == 1 && binary.Model? && |binary.files| == 1
    ensures SameTypesRead(text, binary) <==>
              && OutlinesOf(text.files[0].messages) == OutlinesOf(binary.files[0].messages)
              && text.files[0].enums == binary.files[0].enums
  {
  }
}
