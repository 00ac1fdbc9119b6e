/** Decoding the encoding of any descriptor set gives its metadata, exactly when the set
    stays within the parser's work and nesting limits. */
module DescriptorProofs {
  import opened Text
  import opened ProtoModel
  import opened WireFormat
  import opened WireProofs
  import opened WireModel
  import opened Descriptors

  // ---------------------------------------------------------------- field trees are well formed

  /** The parser of `kind` reads these items as they are. */
  ghost predicate Good(kind: Kind, items: seq<Item>) {
    Fits(items) && Typed(kind, items) && Strip(items) == items
  }

  ghost predicate GoodItem(kind: Kind, item: Item) {
    ItemFits(item) && TypedItem(kind, item) && StripItem(item) == [item]
  }

  lemma GoodCons(kind: Kind, item: Item, items: seq<Item>)
    requires GoodItem(kind, item) && Good(kind, items)
    ensures Good(kind, [item] + items)
  {
    hide ItemFits, TypedItem, StripItem;
    var all := [item] + items;
    assert all[1..] == items;
    assert Fits(all) && Typed(kind, all);
  }

  lemma {:induction false} GoodAppend(kind: Kind, a: seq<Item>, b: seq<Item>)
    requires Good(kind, a) && Good(kind, b)
    ensures Good(kind, a + b)
    decreases |a|
  {
    hide ItemFits, TypedItem;
    if a == [] {
      assert a + b == b;
    } else {
      assert a == [a[0]] + a[1..];
      HeadGood(kind, a);
      GoodAppend(kind, a[1..], b);
      GoodCons(kind, a[0], a[1..] + b);
      assert a + b == [a[0]] + (a[1..] + b);
    }
  }

  lemma StripLength(items: seq<Item>)
    ensures |Strip(items)| <= |items|
  {
    hide StripItem;
    if items != [] {
      StripLength(items[1..]);
      assert |StripItem(items[0])| <= 1 by { StripItemLength(items[0]); }
    }
  }

  lemma StripItemLength(item: Item)
    ensures |StripItem(item)| <= 1
  {
    hide Strip;
  }

  lemma HeadGood(kind: Kind, items: seq<Item>)
    requires Good(kind, items) && items != []
    ensures GoodItem(kind, items[0]) && Good(kind, items[1..])
  {
    hide StripItem, ItemFits, TypedItem;
    var first, rest := StripItem(items[0]), Strip(items[1..]);
    StripItemLength(items[0]);
    StripLength(items[1..]);
    assert items == first + rest;
    assert |first| == 1 && first == [items[0]];
    assert items[1..] == rest;
  }

  lemma LeafGood(kind: Kind, item: Item)
    requires !item.payload.ExtraP? && !item.payload.SubP?
    requires item.number < 16 && PayloadFits(item.payload)
    requires TypedPayload(ShapeOf(kind, item.number, WireTypeOf(item.payload)), item.payload)
    ensures GoodItem(kind, item)
  {
    hide ShapeOf, TypedPayload, PayloadFits;
  }

  lemma OneGood(kind: Kind, item: Item)
    requires GoodItem(kind, item)
    ensures Good(kind, [item])
  {
    hide GoodItem, Good;
    EmptyGood(kind);
    GoodCons(kind, item, []);
    assert [item] + [] == [item];
  }

  lemma TextGood(kind: Kind, number: nat, text: Bytes)
    requires number < 16 && ShapeOf(kind, number, 2) == TextS
    ensures Good(kind, TextItem(number, text))
  {
    hide ShapeOf, Good, GoodItem;
    EmptyGood(kind);
    if text != [] {
      LeafGood(kind, Item(number, TextP(text)));
      OneGood(kind, Item(number, TextP(text)));
    }
  }

  lemma IntGood(kind: Kind, number: nat, value: Int64)
    requires number < 16 && ShapeOf(kind, number, 0) == IntS
    ensures Good(kind, IntItem(number, value))
  {
    hide ShapeOf, Good, GoodItem;
    EmptyGood(kind);
    if value != 0 {
      LeafGood(kind, Item(number, IntP(value)));
      OneGood(kind, Item(number, IntP(value)));
    }
  }

  lemma SubGood(kind: Kind, number: nat, items: seq<Item>)
    requires number < 16 && ShapeOf(kind, number, 2).SubS? && Good(ShapeOf(kind, number, 2).kind, items)
    ensures Good(kind, SubItem(number, items))
  {
    hide ShapeOf, Typed, Fits, Strip;
    var item := Item(number, SubP(items));
    var sub := ShapeOf(kind, number, 2);
    assert PayloadFits(item.payload);
    assert TypedPayload(sub, item.payload);
    assert TypedItem(kind, item);
    OneGood(kind, item);
  }

  lemma SubConsGood(kind: Kind, number: nat, items: seq<Item>, rest: seq<Item>)
    requires number < 16 && ShapeOf(kind, number, 2).SubS? && Good(ShapeOf(kind, number, 2).kind, items)
    requires Good(kind, rest)
    ensures Good(kind, SubItem(number, items) + rest)
  {
    hide ShapeOf, Good;
    SubGood(kind, number, items);
    GoodAppend(kind, SubItem(number, items), rest);
  }

  lemma ValueGood(v: ValueDesc)
    ensures Good(ValueK, ValueItems(v))
  {
    hide Good, TextItem, IntItem;
    TextGood(ValueK, 1, v.name);
    IntGood(ValueK, 2, v.number);
    GoodAppend(ValueK, TextItem(1, v.name), IntItem(2, v.number));
  }

  lemma {:induction false} ValuesGood(vs: seq<ValueDesc>)
    ensures Good(EnumK, ValuesItems(vs))
  {
    hide ValueItems, Strip, Fits, Typed;
    if vs == [] {
      EmptyGood(EnumK);
    } else {
      ValueGood(vs[0]);
      ValuesGood(vs[1..]);
      SubConsGood(EnumK, 2, ValueItems(vs[0]), ValuesItems(vs[1..]));
    }
  }

  lemma EmptyGood(kind: Kind)
    ensures Good(kind, [])
  {
  }

  lemma EnumGood(e: EnumDesc)
    ensures Good(EnumK, EnumItems(e))
  {
    hide Good, TextItem, ValuesItems;
    TextGood(EnumK, 1, e.name);
    ValuesGood(e.values);
    GoodAppend(EnumK, TextItem(1, e.name), ValuesItems(e.values));
  }

  lemma {:induction false} EnumsGood(kind: Kind, number: nat, es: seq<EnumDesc>)
    requires number < 16 && ShapeOf(kind, number, 2) == SubS(EnumK)
    ensures Good(kind, EnumsItems(number, es))
  {
    hide Good, EnumItems, ShapeOf;
    if es == [] {
      EmptyGood(kind);
    } else {
      EnumGood(es[0]);
      EnumsGood(kind, number, es[1..]);
      SubConsGood(kind, number, EnumItems(es[0]), EnumsItems(number, es[1..]));
    }
  }

  lemma FieldGood(f: FieldDesc)
    ensures Good(FieldK, FieldItems(f))
  {
    hide Good, TextItem, IntItem;
    var a, b, c, d := TextItem(1, f.name), IntItem(3, f.number), IntItem(4, f.cardinality), IntItem(5, f.typ);
    TextGood(FieldK, 1, f.name);
    IntGood(FieldK, 3, f.number);
    IntGood(FieldK, 4, f.cardinality);
    IntGood(FieldK, 5, f.typ);
    TextGood(FieldK, 6, f.typeName);
    TextGood(FieldK, 10, f.jsonName);
    GoodAppend(FieldK, a, b);
    GoodAppend(FieldK, a + b, c);
    GoodAppend(FieldK, a + b + c, d);
    GoodAppend(FieldK, a + b + c + d, TextItem(6, f.typeName));
    GoodAppend(FieldK, a + b + c + d + TextItem(6, f.typeName), TextItem(10, f.jsonName));
  }

  lemma {:induction false} FieldsGood(fs: seq<FieldDesc>)
    ensures Good(MessageK, FieldsItems(fs))
  {
    hide Good, FieldItems;
    if fs == [] {
      EmptyGood(MessageK);
    } else {
      FieldGood(fs[0]);
      FieldsGood(fs[1..]);
      SubConsGood(MessageK, 2, FieldItems(fs[0]), FieldsItems(fs[1..]));
    }
  }

  lemma {:induction false} MessageGood(m: MessageDesc)
    ensures Good(MessageK, MessageItems(m))
    decreases m
  {
    hide Good, TextItem, FieldsItems, EnumsItems;
    var a, b, c := TextItem(1, m.name), FieldsItems(m.fields), MessagesItems(3, m.nested);
    TextGood(MessageK, 1, m.name);
    FieldsGood(m.fields);
    MessagesGood(MessageK, 3, m.nested);
    EnumsGood(MessageK, 4, m.enums);
    GoodAppend(MessageK, a, b);
    GoodAppend(MessageK, a + b, c);
    GoodAppend(MessageK, a + b + c, EnumsItems(4, m.enums));
  }

  lemma {:induction false} MessagesGood(kind: Kind, number: nat, ms: seq<MessageDesc>)
    requires number < 16 && ShapeOf(kind, number, 2) == SubS(MessageK)
    ensures Good(kind, MessagesItems(number, ms))
    decreases ms
  {
    hide Good, MessageItems, ShapeOf;
    if ms == [] {
      EmptyGood(kind);
    } else {
      MessageGood(ms[0]);
      MessagesGood(kind, number, ms[1..]);
      SubConsGood(kind, number, MessageItems(ms[0]), MessagesItems(number, ms[1..]));
    }
  }

  lemma MethodGood(m: MethodDesc)
    ensures Good(MethodK, MethodItems(m))
  {
    hide Good, TextItem, IntItem;
    var a, b, c := TextItem(1, m.name), TextItem(2, m.input), TextItem(3, m.output);
    var d, e := BoolItem(5, m.clientStreaming), BoolItem(6, m.serverStreaming);
    TextGood(MethodK, 1, m.name);
    TextGood(MethodK, 2, m.input);
    TextGood(MethodK, 3, m.output);
    IntGood(MethodK, 5, if m.clientStreaming then 1 else 0);
    IntGood(MethodK, 6, if m.serverStreaming then 1 else 0);
    GoodAppend(MethodK, a, b);
    GoodAppend(MethodK, a + b, c);
    GoodAppend(MethodK, a + b + c, d);
    GoodAppend(MethodK, a + b + c + d, e);
  }

  lemma {:induction false} MethodsGood(ms: seq<MethodDesc>)
    ensures Good(ServiceK, MethodsItems(ms))
  {
    hide Good, MethodItems;
    if ms == [] {
      EmptyGood(ServiceK);
    } else {
      MethodGood(ms[0]);
      MethodsGood(ms[1..]);
      SubConsGood(ServiceK, 2, MethodItems(ms[0]), MethodsItems(ms[1..]));
    }
  }

  lemma {:induction false} ServicesGood(ss: seq<ServiceDesc>)
    ensures Good(FileK, ServicesItems(ss))
  {
    hide Good, TextItem, MethodsItems;
    if ss == [] {
      EmptyGood(FileK);
    } else {
      TextGood(ServiceK, 1, ss[0].name);
      MethodsGood(ss[0].methods);
      GoodAppend(ServiceK, TextItem(1, ss[0].name), MethodsItems(ss[0].methods));
      ServicesGood(ss[1..]);
      SubConsGood(FileK, 6, ServiceItems(ss[0]), ServicesItems(ss[1..]));
    }
  }

  lemma {:induction false} DependenciesGood(ds: seq<Bytes>)
    ensures Good(FileK, DependencyItems(ds))
  {
    hide Good;
    if ds == [] {
      EmptyGood(FileK);
    } else {
      DependenciesGood(ds[1..]);
      LeafGood(FileK, Item(3, TextP(ds[0])));
      GoodCons(FileK, Item(3, TextP(ds[0])), DependencyItems(ds[1..]));
    }
  }

  lemma FileGood(f: FileDesc)
    ensures Good(FileK, FileItems(f))
  {
    hide Good, TextItem, DependencyItems, MessagesItems, EnumsItems, ServicesItems;
    var a, b, c := TextItem(1, f.name), TextItem(2, f.pkg), DependencyItems(f.dependencies);
    var d, e, g := MessagesItems(4, f.messages), EnumsItems(5, f.enums), ServicesItems(f.services);
    TextGood(FileK, 1, f.name);
    TextGood(FileK, 2, f.pkg);
    DependenciesGood(f.dependencies);
    MessagesGood(FileK, 4, f.messages);
    EnumsGood(FileK, 5, f.enums);
    ServicesGood(f.services);
    TextGood(FileK, 12, f.syntax);
    GoodAppend(FileK, a, b);
    GoodAppend(FileK, a + b, c);
    GoodAppend(FileK, a + b + c, d);
    GoodAppend(FileK, a + b + c + d, e);
    GoodAppend(FileK, a + b + c + d + e, g);
    GoodAppend(FileK, a + b + c + d + e + g, TextItem(12, f.syntax));
  }

  lemma {:induction false} SetGood(fs: seq<FileDesc>)
    ensures Good(SetK, SetItems(fs))
  {
    hide Good, FileItems;
    if fs == [] {
      EmptyGood(SetK);
    } else {
      FileGood(fs[0]);
      SetGood(fs[1..]);
      SubConsGood(SetK, 1, FileItems(fs[0]), SetItems(fs[1..]));
    }
  }

  // ---------------------------------------------------------------- field trees mean the metadata

  lemma BuildText(draft: Draft, scope: Scope, number: nat, text: Bytes)
    ensures Build(draft, scope, TextItem(number, text))
         == if text == [] then draft else ApplyText(draft, number, text)
  {
    hide ApplyText;
    if text != [] {
      assert [Item(number, TextP(text))][1..] == [];
    }
  }

  lemma BuildInt(draft: Draft, scope: Scope, number: nat, value: Int64)
    ensures Build(draft, scope, IntItem(number, value))
         == if value == 0 then draft else ApplyInt(draft, number, value)
  {
    hide ApplyInt;
    if value != 0 {
      assert [Item(number, IntP(value))][1..] == [];
    }
  }

  /** A nested message field, followed by the rest of its message. */
  lemma BuildSub(draft: Draft, scope: Scope, number: nat, kind: Kind, items: seq<Item>, rest: seq<Item>)
    requires ShapeOf(draft.Kind(), number, 2) == SubS(kind)
    ensures (var inner := SubScope(draft, scope, kind);
             Build(draft, scope, SubItem(number, items) + rest)
             == Build(ApplySub(draft, number, Build(Fresh(kind, inner), inner, items), inner), scope, rest))
  {
    hide ShapeOf, ApplySub, SubScope, Fresh;
    var all := SubItem(number, items) + rest;
    assert all[0] == Item(number, SubP(items)) && all[1..] == rest;
    assert Build(draft, scope, all) == Build(Apply(draft, scope, all[0]), scope, all[1..]);
  }

  lemma BuildNothing(draft: Draft, scope: Scope)
    ensures Build(draft, scope, []) == draft
  {
  }

  lemma ValueBuilt(v: ValueDesc, scope: Scope)
    ensures Build(Fresh(ValueK, scope), scope, ValueItems(v)) == ValueD(EnumValue(v.name, v.number))
  {
    hide Build;
    var start := Fresh(ValueK, scope);
    BuildAppend(start, scope, TextItem(1, v.name), IntItem(2, v.number));
    BuildText(start, scope, 1, v.name);
    BuildInt(Build(start, scope, TextItem(1, v.name)), scope, 2, v.number);
  }

  lemma {:induction false} ValuesBuilt(e: Enum, scope: Scope, vs: seq<ValueDesc>)
    ensures Build(EnumD(e), scope, ValuesItems(vs)) == EnumD(e.(values := e.values + ValuesMeaning(vs)))
    decreases |vs|
  {
    hide Build, ApplySub, ValueItems, Fresh;
    if vs == [] {
      BuildNothing(EnumD(e), scope);
      assert e.values + [] == e.values;
    } else {
      BuildSub(EnumD(e), scope, 2, ValueK, ValueItems(vs[0]), ValuesItems(vs[1..]));
      ValueBuilt(vs[0], NoScope);
      ValueJoins(e, EnumValue(vs[0].name, vs[0].number), NoScope);
      var next := e.(values := e.values + ValueMeaning(vs[0]));
      ValuesBuilt(next, scope, vs[1..]);
      assert e.values + ValueMeaning(vs[0]) + ValuesMeaning(vs[1..])
          == e.values + (ValueMeaning(vs[0]) + ValuesMeaning(vs[1..]));
    }
  }

  lemma EnumBuilt(e: EnumDesc, scope: Scope)
    ensures var d := Build(Fresh(EnumK, scope), scope, EnumItems(e));
            d.EnumD? && NamedEnum(d.enumeration, scope) == EnumMeaning(e, scope.pkg, scope.parent)
  {
    hide Build, ValuesItems, ValuesMeaning, JoinName, TextItem;
    var start := Fresh(EnumK, scope);
    BuildAppend(start, scope, TextItem(1, e.name), ValuesItems(e.values));
    BuildText(start, scope, 1, e.name);
    ValuesBuilt(Enum(e.name, "", []), scope, e.values);
    assert [] + ValuesMeaning(e.values) == ValuesMeaning(e.values);
  }

  lemma FileEnumsBuiltStep(f: File, scope: Scope, x: EnumDesc, rest: seq<Item>)
    ensures Build(FileD(f), scope, SubItem(5, EnumItems(x)) + rest)
         == Build(FileD(f.(enums := f.enums + EnumMeaning(x, f.pkg, ""))), scope, rest)
  {
    hide Build, ApplySub, EnumItems, Fresh, EnumMeaning;
    var inner := Scope(f.pkg, "");
    var d := Build(Fresh(EnumK, inner), inner, EnumItems(x));
    BuildSub(FileD(f), scope, 5, EnumK, EnumItems(x), rest);
    EnumBuilt(x, inner);
    EnumJoinsFile(f, d, inner);
  }

  lemma {:induction false} FileEnumsBuilt(f: File, scope: Scope, xs: seq<EnumDesc>)
    ensures Build(FileD(f), scope, EnumsItems(5, xs)) == FileD(f.(enums := f.enums + EnumsMeaning(xs, f.pkg, "")))
    decreases |xs|
  {
    hide Build, EnumItems, EnumMeaning;
    if xs == [] {
      BuildNothing(FileD(f), scope);
      assert f.enums + [] == f.enums;
    } else {
      var here, later := EnumMeaning(xs[0], f.pkg, ""), EnumsMeaning(xs[1..], f.pkg, "");
      FileEnumsBuiltStep(f, scope, xs[0], EnumsItems(5, xs[1..]));
      var g := f.(enums := f.enums + here);
      FileEnumsBuilt(g, scope, xs[1..]);
      assert g.enums + later == f.enums + (here + later);
    }
  }

  lemma {:induction false} MessageEnumsBuilt(m: Message, scope: Scope, es: seq<EnumDesc>)
    ensures Build(MessageD(m), scope, EnumsItems(4, es))
         == MessageD(m.(enums := m.enums + EnumsMeaning(es, scope.pkg, JoinName(scope.parent, m.name))))
    decreases |es|
  {
    hide Build, ApplySub, EnumItems, Fresh, EnumMeaning, JoinName;
    if es == [] {
      BuildNothing(MessageD(m), scope);
      assert m.enums + [] == m.enums;
    } else {
      var path := JoinName(scope.parent, m.name);
      BuildSub(MessageD(m), scope, 4, EnumK, EnumItems(es[0]), EnumsItems(4, es[1..]));
      EnumBuilt(es[0], Scope(scope.pkg, path));
      EnumJoinsMessage(m, Build(Fresh(EnumK, Scope(scope.pkg, path)), Scope(scope.pkg, path), EnumItems(es[0])),
                       Scope(scope.pkg, path));
      var here := EnumMeaning(es[0], scope.pkg, path);
      MessageEnumsBuilt(m.(enums := m.enums + here), scope, es[1..]);
      assert m.enums + here + EnumsMeaning(es[1..], scope.pkg, path)
          == m.enums + (here + EnumsMeaning(es[1..], scope.pkg, path));
    }
  }

  lemma FieldBuilt(f: FieldDesc, scope: Scope)
    ensures var d := Build(Fresh(FieldK, scope), scope, FieldItems(f));
            d.FieldD? && NamedField(d.field) == FieldMeaning(f)
  {
    hide Build, TextItem, IntItem, LabelName, TypeName, NormalizeTypeName;
    var i1, i2, i3 := TextItem(1, f.name), IntItem(3, f.number), IntItem(4, f.cardinality);
    var i4, i5, i6 := IntItem(5, f.typ), TextItem(6, f.typeName), TextItem(10, f.jsonName);
    var d0 := Fresh(FieldK, scope);
    var d1 := Build(d0, scope, i1);
    var d2 := Build(d1, scope, i2);
    var d3 := Build(d2, scope, i3);
    var d4 := Build(d3, scope, i4);
    var d5 := Build(d4, scope, i5);
    BuildAppend(d0, scope, i1, i2);
    BuildAppend(d0, scope, i1 + i2, i3);
    BuildAppend(d0, scope, i1 + i2 + i3, i4);
    BuildAppend(d0, scope, i1 + i2 + i3 + i4, i5);
    BuildAppend(d0, scope, i1 + i2 + i3 + i4 + i5, i6);
    BuildText(d0, scope, 1, f.name);
    BuildInt(d1, scope, 3, f.number);
    BuildInt(d2, scope, 4, f.cardinality);
    BuildInt(d3, scope, 5, f.typ);
    BuildText(d4, scope, 6, f.typeName);
    BuildText(d5, scope, 10, f.jsonName);
    DefaultsNamed();
  }

  /** An absent field means the same as one with the default value. */
  lemma DefaultsNamed()
    ensures LabelName(0) == "" && TypeName(0) == "" && NormalizeTypeName("") == ""
  {
  }

  lemma {:induction false} FieldsBuilt(m: Message, scope: Scope, fs: seq<FieldDesc>)
    ensures Build(MessageD(m), scope, FieldsItems(fs)) == MessageD(m.(fields := m.fields + FieldsMeaning(fs)))
    decreases |fs|
  {
    hide Build, ApplySub, FieldItems, Fresh, FieldMeaning;
    if fs == [] {
      BuildNothing(MessageD(m), scope);
      assert m.fields + [] == m.fields;
    } else {
      BuildSub(MessageD(m), scope, 2, FieldK, FieldItems(fs[0]), FieldsItems(fs[1..]));
      FieldBuilt(fs[0], NoScope);
      FieldJoins(m, Build(Fresh(FieldK, NoScope), NoScope, FieldItems(fs[0])), NoScope);
      var here := FieldMeaning(fs[0]);
      FieldsBuilt(m.(fields := m.fields + here), scope, fs[1..]);
      assert m.fields + here + FieldsMeaning(fs[1..]) == m.fields + (here + FieldsMeaning(fs[1..]));
    }
  }

  lemma {:induction false} MessageBuilt(m: MessageDesc, scope: Scope)
    ensures var d := Build(Fresh(MessageK, scope), scope, MessageItems(m));
            d.MessageD? && NamedMessage(d.message, scope) == MessageMeaning(m, scope.pkg, scope.parent)
    decreases m
  {
    hide Build, TextItem, FieldsItems, MessagesItems, EnumsItems, JoinName, EnumsMeaning, FieldsMeaning,
         MessagesMeaning;
    var i1, i2, i3, i4 := TextItem(1, m.name), FieldsItems(m.fields), MessagesItems(3, m.nested),
        EnumsItems(4, m.enums);
    var d0 := Fresh(MessageK, scope);
    BuildAppend(d0, scope, i1, i2);
    BuildAppend(d0, scope, i1 + i2, i3);
    BuildAppend(d0, scope, i1 + i2 + i3, i4);
    BuildText(d0, scope, 1, m.name);
    var m1 := Message(m.name, "", [], [], []);
    FieldsBuilt(m1, scope, m.fields);
    var m2 := m1.(fields := [] + FieldsMeaning(m.fields));
    NestedBuilt(m2, scope, m.nested);
    var path := JoinName(scope.parent, m.name);
    var m3 := m2.(messages := [] + MessagesMeaning(m.nested, scope.pkg, path));
    MessageEnumsBuilt(m3, scope, m.enums);
    assert [] + FieldsMeaning(m.fields) == FieldsMeaning(m.fields);
    assert [] + MessagesMeaning(m.nested, scope.pkg, path) == MessagesMeaning(m.nested, scope.pkg, path);
    assert [] + EnumsMeaning(m.enums, scope.pkg, path) == EnumsMeaning(m.enums, scope.pkg, path);
  }

  lemma {:induction false} NestedBuilt(m: Message, scope: Scope, ms: seq<MessageDesc>)
    ensures Build(MessageD(m), scope, MessagesItems(3, ms))
         == MessageD(m.(messages := m.messages + MessagesMeaning(ms, scope.pkg, JoinName(scope.parent, m.name))))
    decreases ms
  {
    hide Build, ApplySub, MessageItems, Fresh, MessageMeaning, JoinName;
    if ms == [] {
      BuildNothing(MessageD(m), scope);
      assert m.messages + [] == m.messages;
    } else {
      var path := JoinName(scope.parent, m.name);
      BuildSub(MessageD(m), scope, 3, MessageK, MessageItems(ms[0]), MessagesItems(3, ms[1..]));
      MessageBuilt(ms[0], Scope(scope.pkg, path));
      MessageJoins(m, Build(Fresh(MessageK, Scope(scope.pkg, path)), Scope(scope.pkg, path), MessageItems(ms[0])),
                   Scope(scope.pkg, path));
      var here := MessageMeaning(ms[0], scope.pkg, path);
      NestedBuilt(m.(messages := m.messages + here), scope, ms[1..]);
      assert m.messages + here + MessagesMeaning(ms[1..], scope.pkg, path)
          == m.messages + (here + MessagesMeaning(ms[1..], scope.pkg, path));
    }
  }

  lemma FileMessagesBuiltStep(f: File, scope: Scope, x: MessageDesc, rest: seq<Item>)
    ensures Build(FileD(f), scope, SubItem(4, MessageItems(x)) + rest)
         == Build(FileD(f.(messages := f.messages + MessageMeaning(x, f.pkg, ""))), scope, rest)
  {
    hide Build, ApplySub, MessageItems, Fresh, MessageMeaning;
    var inner := Scope(f.pkg, "");
    var d := Build(Fresh(MessageK, inner), inner, MessageItems(x));
    BuildSub(FileD(f), scope, 4, MessageK, MessageItems(x), rest);
    MessageBuilt(x, inner);
    MessageJoinsFile(f, d, inner);
  }

  lemma {:induction false} FileMessagesBuilt(f: File, scope: Scope, xs: seq<MessageDesc>)
    ensures Build(FileD(f), scope, MessagesItems(4, xs))
         == FileD(f.(messages := f.messages + MessagesMeaning(xs, f.pkg, "")))
    decreases |xs|
  {
    hide Build, MessageItems, MessageMeaning;
    if xs == [] {
      BuildNothing(FileD(f), scope);
      assert f.messages + [] == f.messages;
    } else {
      var here, later := MessageMeaning(xs[0], f.pkg, ""), MessagesMeaning(xs[1..], f.pkg, "");
      FileMessagesBuiltStep(f, scope, xs[0], MessagesItems(4, xs[1..]));
      var g := f.(messages := f.messages + here);
      FileMessagesBuilt(g, scope, xs[1..]);
      assert g.messages + later == f.messages + (here + later);
    }
  }

  lemma MethodBuilt(m: MethodDesc, scope: Scope)
    ensures var d := Build(Fresh(MethodK, scope), scope, MethodItems(m));
            d.MethodD? && NamedMethod(d.rpc) == MethodMeaning(m, scope.pkg)
  {
    hide Build, TextItem, IntItem, NormalizeTypeName;
    var i1, i2, i3 := TextItem(1, m.name), TextItem(2, m.input), TextItem(3, m.output);
    var i4, i5 := BoolItem(5, m.clientStreaming), BoolItem(6, m.serverStreaming);
    var d0 := Fresh(MethodK, scope);
    var d1 := Build(d0, scope, i1);
    var d2 := Build(d1, scope, i2);
    var d3 := Build(d2, scope, i3);
    var d4 := Build(d3, scope, i4);
    BuildAppend(d0, scope, i1, i2);
    BuildAppend(d0, scope, i1 + i2, i3);
    BuildAppend(d0, scope, i1 + i2 + i3, i4);
    BuildAppend(d0, scope, i1 + i2 + i3 + i4, i5);
    BuildText(d0, scope, 1, m.name);
    BuildText(d1, scope, 2, m.input);
    BuildText(d2, scope, 3, m.output);
    BuildInt(d3, scope, 5, if m.clientStreaming then 1 else 0);
    BuildInt(d4, scope, 6, if m.serverStreaming then 1 else 0);
    DefaultsNamed();
  }

  lemma {:induction false} MethodsBuilt(s: Service, scope: Scope, ms: seq<MethodDesc>)
    ensures Build(ServiceD(s), scope, MethodsItems(ms))
         == ServiceD(s.(methods := s.methods + MethodsMeaning(ms, scope.pkg)))
    decreases |ms|
  {
    hide Build, ApplySub, MethodItems, Fresh, MethodMeaning;
    if ms == [] {
      BuildNothing(ServiceD(s), scope);
      assert s.methods + [] == s.methods;
    } else {
      BuildSub(ServiceD(s), scope, 2, MethodK, MethodItems(ms[0]), MethodsItems(ms[1..]));
      MethodBuilt(ms[0], Scope(scope.pkg, ""));
      MethodJoins(s, Build(Fresh(MethodK, Scope(scope.pkg, "")), Scope(scope.pkg, ""), MethodItems(ms[0])),
                  Scope(scope.pkg, ""));
      var here := MethodMeaning(ms[0], scope.pkg);
      MethodsBuilt(s.(methods := s.methods + here), scope, ms[1..]);
      assert s.methods + here + MethodsMeaning(ms[1..], scope.pkg)
          == s.methods + (here + MethodsMeaning(ms[1..], scope.pkg));
    }
  }

  lemma ServiceBuilt(s: ServiceDesc, scope: Scope)
    ensures var d := Build(Fresh(ServiceK, scope), scope, ServiceItems(s));
            d.ServiceD? && NamedService(d.service, scope) == ServiceMeaning(s, scope.pkg)
  {
    hide Build, MethodsItems, JoinName;
    var start := Fresh(ServiceK, scope);
    BuildAppend(start, scope, TextItem(1, s.name), MethodsItems(s.methods));
    BuildText(start, scope, 1, s.name);
    MethodsBuilt(Service(s.name, "", scope.pkg, []), scope, s.methods);
    assert [] + MethodsMeaning(s.methods, scope.pkg) == MethodsMeaning(s.methods, scope.pkg);
  }

  lemma ServicesBuiltStep(f: File, scope: Scope, x: ServiceDesc, rest: seq<Item>)
    ensures Build(FileD(f), scope, SubItem(6, ServiceItems(x)) + rest)
         == Build(FileD(f.(services := f.services + ServiceMeaning(x, f.pkg))), scope, rest)
  {
    hide Build, ApplySub, ServiceItems, Fresh, ServiceMeaning;
    var inner := Scope(f.pkg, "");
    var d := Build(Fresh(ServiceK, inner), inner, ServiceItems(x));
    BuildSub(FileD(f), scope, 6, ServiceK, ServiceItems(x), rest);
    ServiceBuilt(x, inner);
    ServiceJoins(f, d, inner);
  }

  lemma {:induction false} ServicesBuilt(f: File, scope: Scope, xs: seq<ServiceDesc>)
    ensures Build(FileD(f), scope, ServicesItems(xs)) == FileD(f.(services := f.services + ServicesMeaning(xs, f.pkg)))
    decreases |xs|
  {
    hide Build, ServiceItems, ServiceMeaning;
    if xs == [] {
      BuildNothing(FileD(f), scope);
      assert f.services + [] == f.services;
    } else {
      var here, later := ServiceMeaning(xs[0], f.pkg), ServicesMeaning(xs[1..], f.pkg);
      ServicesBuiltStep(f, scope, xs[0], ServicesItems(xs[1..]));
      var g := f.(services := f.services + here);
      ServicesBuilt(g, scope, xs[1..]);
      assert g.services + later == f.services + (here + later);
    }
  }

  lemma {:induction false} DependenciesBuilt(f: File, scope: Scope, ds: seq<Bytes>)
    ensures Build(FileD(f), scope, DependencyItems(ds)) == FileD(f.(imports := f.imports + NonEmptyTexts(ds)))
    decreases |ds|
  {
    var items := DependencyItems(ds);
    if ds == [] {
      assert f.imports + [] == f.imports;
    } else {
      var here: seq<string> := if ds[0] == [] then [] else [ds[0]];
      assert items[1..] == DependencyItems(ds[1..]);
      assert Apply(FileD(f), scope, items[0]) == FileD(f.(imports := f.imports + here)) by {
        assert f.imports + [] == f.imports;
      }
      DependenciesBuilt(f.(imports := f.imports + here), scope, ds[1..]);
      assert f.imports + here + NonEmptyTexts(ds[1..]) == f.imports + (here + NonEmptyTexts(ds[1..]));
    }
  }

  lemma FileBuilt(f: FileDesc, scope: Scope)
    ensures Build(Fresh(FileK, scope), scope, FileItems(f)) == FileD(FileMeaning(f))
  {
    hide Build, TextItem, DependencyItems, MessagesItems, EnumsItems, ServicesItems;
    hide MessagesMeaning, EnumsMeaning, ServicesMeaning, NonEmptyTexts;
    var i1, i2, i3 := TextItem(1, f.name), TextItem(2, f.pkg), DependencyItems(f.dependencies);
    var i4, i5, i6 := MessagesItems(4, f.messages), EnumsItems(5, f.enums), ServicesItems(f.services);
    var d0 := Fresh(FileK, scope);
    var d1 := Build(d0, scope, i1);
    BuildAppend(d0, scope, i1, i2);
    BuildAppend(d0, scope, i1 + i2, i3);
    BuildAppend(d0, scope, i1 + i2 + i3, i4);
    BuildAppend(d0, scope, i1 + i2 + i3 + i4, i5);
    BuildAppend(d0, scope, i1 + i2 + i3 + i4 + i5, i6);
    BuildAppend(d0, scope, i1 + i2 + i3 + i4 + i5 + i6, TextItem(12, f.syntax));
    BuildText(d0, scope, 1, f.name);
    BuildText(d1, scope, 2, f.pkg);
    var f2 := File(f.name, f.pkg, "", [], [], [], []);
    DependenciesBuilt(f2, scope, f.dependencies);
    var f3 := f2.(imports := [] + NonEmptyTexts(f.dependencies));
    FileMessagesBuilt(f3, scope, f.messages);
    var f4 := f3.(messages := [] + MessagesMeaning(f.messages, f.pkg, ""));
    FileEnumsBuilt(f4, scope, f.enums);
    var f5 := f4.(enums := [] + EnumsMeaning(f.enums, f.pkg, ""));
    ServicesBuilt(f5, scope, f.services);
    var f6 := f5.(services := [] + ServicesMeaning(f.services, f.pkg));
    BuildText(FileD(f6), scope, 12, f.syntax);
    assert [] + NonEmptyTexts(f.dependencies) == NonEmptyTexts(f.dependencies);
    assert [] + MessagesMeaning(f.messages, f.pkg, "") == MessagesMeaning(f.messages, f.pkg, "");
    assert [] + EnumsMeaning(f.enums, f.pkg, "") == EnumsMeaning(f.enums, f.pkg, "");
    assert [] + ServicesMeaning(f.services, f.pkg) == ServicesMeaning(f.services, f.pkg);
  }

  lemma {:induction false} SetBuilt(files: seq<File>, fs: seq<FileDesc>)
    ensures Build(SetD(files), NoScope, SetItems(fs)) == SetD(files + SetMeaning(fs))
    decreases |fs|
  {
    hide Build, ApplySub, FileItems, Fresh, FileMeaning;
    if fs == [] {
      BuildNothing(SetD(files), NoScope);
      assert files + [] == files;
    } else {
      BuildSub(SetD(files), NoScope, 1, FileK, FileItems(fs[0]), SetItems(fs[1..]));
      FileBuilt(fs[0], NoScope);
      FileJoins(files, FileMeaning(fs[0]), NoScope);
      SetBuilt(files + [FileMeaning(fs[0])], fs[1..]);
      assert files + [FileMeaning(fs[0])] + SetMeaning(fs[1..]) == files + ([FileMeaning(fs[0])] + SetMeaning(fs[1..]));
    }
  }

  // ---------------------------------------------------------------- main results

  lemma Encodable(fs: seq<FileDesc>)
    ensures Fits(SetItems(fs))
  {
    SetGood(fs);
  }

  /** The bytes a protobuf compiler writes for a descriptor set. */
  function EncodeSet(fs: seq<FileDesc>): Bytes {
    Encodable(fs);
    EncodeItems(SetItems(fs))
  }

  /** The set stays within the parser's work budget and nesting limit. */
  ghost predicate WithinLimits(fs: seq<FileDesc>) {
    Tags(SetItems(fs)) <= MAX_WORK && Shallow(SetK, 0, SetItems(fs))
  }

  /** Decoding inverts encoding: the parser of an encoded descriptor set reports the
      finalized metadata of the set, or one of the two limit errors -- the latter exactly
      when the set exceeds a limit. */
  lemma SetRoundTrip(fs: seq<FileDesc>)
    requires |EncodeSet(fs)| <= MAX_DOCUMENT_BYTES
    ensures if WithinLimits(fs) then ParseDescriptorSet(EncodeSet(fs)) == Conclude(SetMeaning(fs))
            else ParseDescriptorSet(EncodeSet(fs)) in {Rejected(Wire(WorkExceeded)), Rejected(Wire(NestingTooDeep))}
  {
    hide DecodeFields, Build, SetItems, EncodeItems, Conclude, Shallow, Tags, SetMeaning;
    SetGood(fs);
    FieldsRoundTrip(SetK, 0, SetItems(fs), 0);
    SetBuilt([], fs);
    assert [] + SetMeaning(fs) == SetMeaning(fs);
  }

  /** Concatenated descriptor sets decode to the concatenation of their files. */
  lemma SetsConcatenate(a: Bytes, b: Bytes)
    requires DecodeFields(SetK, 0, a, 0).Done? && DecodeFields(SetK, 0, b, 0).Done?
    requires DecodeFields(SetK, 0, a, 0).used + DecodeFields(SetK, 0, b, 0).used <= MAX_WORK
    ensures ParseDescriptorSet(a + b)
         == Conclude(Build(SetD([]), NoScope, DecodeFields(SetK, 0, a, 0).items).files
                     + Build(SetD([]), NoScope, DecodeFields(SetK, 0, b, 0).items).files)
  {
    hide DecodeFields, Build, Conclude;
    var ra, rb := DecodeFields(SetK, 0, a, 0), DecodeFields(SetK, 0, b, 0);
    FieldsConcatenate(SetK, 0, a, b, 0);
    FieldsShift(SetK, 0, b, 0, ra.used);
    BuildAppend(SetD([]), NoScope, ra.items, rb.items);
    var fa := Build(SetD([]), NoScope, ra.items).files;
    FilesAppend([], fa, rb.items);
    assert fa + [] == fa;
  }

  lemma {:induction false} FilesAppend(files: seq<File>, before: seq<File>, items: seq<Item>)
    ensures Build(SetD(before + files), NoScope, items).files
         == before + Build(SetD(files), NoScope, items).files
    decreases |items|
  {
    if items != [] {
      var d := Apply(SetD(files), NoScope, items[0]);
      var e := Apply(SetD(before + files), NoScope, items[0]);
      assert e == SetD(before + d.files) by {
        hide Build;
        if d.files != files {
          var added := d.files[|files|..];
          assert before + files + added == before + (files + added);
        }
      }
      FilesAppend(d.files, before, items[1..]);
    }
  }
}
