/** Bounds on the size of an encoded field tree, and what small trees amount to. */
module EncodedSizes {
  import opened WireFormat

  function Power(k: nat): nat {
    if k == 0 then 1 else 128 * Power(k - 1)
  }

  lemma {:induction false} VarintLength(value: nat, k: nat)
    requires k > 0 && value < Power(k)
    ensures |EncodeVarint(value)| <= k
    decreases k
  {
    if value >= 128 {
      assert k > 1 by { assert Power(1) == 128 * Power(0); }
      assert value / 128 < Power(k - 1);
      VarintLength(value / 128, k - 1);
    }
  }

  lemma WordLength(value: nat)
    requires value < TWO_64
    ensures |EncodeVarint(value)| <= 10
  {
    assert Power(2) == 128 * (128 * 1);
    assert Power(4) == 128 * (128 * Power(2));
    assert Power(6) == 128 * (128 * Power(4));
    assert Power(8) == 128 * (128 * Power(6));
    assert Power(10) == 128 * (128 * Power(8));
    VarintLength(value, 10);
  }

  /** A bound on the encoded size of a field tree without unknown fields. */
  function Bulk(items: seq<Item>): nat {
    if items == [] then 0 else ItemBulk(items[0]) + Bulk(items[1..])
  }

  function ItemBulk(item: Item): nat {
    match item.payload
    case TextP(text) => 20 + |text|
    case SubP(items) => 20 + Bulk(items)
    case _ => 20
  }

  predicate Known(items: seq<Item>) {
    items != [] ==> KnownItem(items[0]) && Known(items[1..])
  }

  predicate KnownItem(item: Item) {
    !item.payload.ExtraP? && (item.payload.SubP? ==> Known(item.payload.items))
  }

  lemma {:induction false} EncodedAtMost(items: seq<Item>)
    requires Fits(items) && Known(items) && Bulk(items) < TWO_64
    ensures |EncodeItems(items)| <= Bulk(items)
    decreases items
  {
    hide EncodeVarint, EncodeItem, ItemBulk, KnownItem;
    if items != [] {
      EncodedAtMost(items[1..]);
      ItemAtMost(items[0]);
    }
  }

  lemma {:induction false} ItemAtMost(item: Item)
    requires ItemFits(item) && KnownItem(item) && ItemBulk(item) < TWO_64
    ensures |EncodeItem(item)| <= ItemBulk(item)
    decreases item
  {
    hide EncodeVarint, EncodeItems;
    WordLength(8 * item.number + WireTypeOf(item.payload));
    match item.payload {
      case TextP(text) => WordLength(|text|);
      case IntP(value) => WordLength(FromInt(value));
      case SubP(items) =>
        EncodedAtMost(items);
        WordLength(|EncodeItems(items)|);
    }
  }

  lemma OneItem(item: Item, kind: WireFormat.Kind, depth: nat)
    ensures Bulk([item]) == ItemBulk(item) && Tags([item]) == ItemTags(item)
    ensures Known([item]) <==> KnownItem(item)
    ensures Shallow(kind, depth, [item]) <==> ShallowItem(kind, depth, item)
  {
    hide ItemBulk, ItemTags, KnownItem, ShallowItem;
    assert [item][1..] == [];
  }

  lemma TwoItems(a: Item, b: Item, kind: WireFormat.Kind, depth: nat)
    ensures Bulk([a, b]) == ItemBulk(a) + ItemBulk(b) && Tags([a, b]) == ItemTags(a) + ItemTags(b)
    ensures Known([a, b]) <==> KnownItem(a) && KnownItem(b)
    ensures Shallow(kind, depth, [a, b]) <==> ShallowItem(kind, depth, a) && ShallowItem(kind, depth, b)
  {
    hide ItemBulk, ItemTags, KnownItem, ShallowItem;
    assert [a, b][1..] == [b] && [b][1..] == [];
    OneItem(b, kind, depth);
  }

  lemma MoreItems(a: Item, items: seq<Item>, kind: WireFormat.Kind, depth: nat)
    ensures Bulk([a] + items) == ItemBulk(a) + Bulk(items) && Tags([a] + items) == ItemTags(a) + Tags(items)
    ensures Known([a] + items) <==> KnownItem(a) && Known(items)
    ensures Shallow(kind, depth, [a] + items) <==> ShallowItem(kind, depth, a) && Shallow(kind, depth, items)
  {
    hide ItemBulk, ItemTags, KnownItem, ShallowItem;
    assert ([a] + items)[1..] == items;
  }
}
