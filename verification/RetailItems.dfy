/** Swapping items of a pending order: what the second loop leaves, and what it was charged for. */
module RetailItems {
  import opened Wrappers
  import opened Retail

  lemma {:induction false} FoundIfThere(items: seq<Item>, id: string)
    ensures Find(items, id) < |items| <==> id in multiset(Ids(items))
  {
    if items != [] {
      FoundIfThere(items[1..], id);
      assert Ids(items) == [items[0].id] + Ids(items[1..]);
    }
  }

  /** The checks' count loop is multiset inclusion. */
  lemma HoldsIsInclusion(items: seq<Item>, ids: seq<string>)
    ensures Holds(items, ids) <==> multiset(ids) <= multiset(Ids(items))
  {
    forall id | Holds(items, ids) ensures multiset(ids)[id] <= multiset(Ids(items))[id] {
      if id !in ids { assert id !in multiset(ids); }
    }
  }

  lemma UpdateMultiset(s: seq<string>, at: nat, x: string)
    requires at < |s|
    ensures multiset(s[at := x]) == multiset(s) - multiset{s[at]} + multiset{x}
  {
  }

  /** One swap replaces one occurrence of the id it was asked for. */
  lemma SwapOneIds(items: seq<Item>, id: string, newId: string, v: Variant)
    requires id in multiset(Ids(items))
    ensures multiset(Ids(SwapOne(items, id, newId, v))) == multiset(Ids(items)) - multiset{id} + multiset{newId}
  {
    FoundIfThere(items, id);
    var at := Find(items, id);
    assert Ids(SwapOne(items, id, newId, v)) == Ids(items)[at := newId];
    UpdateMultiset(Ids(items), at, newId);
  }

  lemma TakeOne(ids: seq<string>, n: nat)
    requires 0 < n <= |ids|
    ensures multiset(ids[..n]) == multiset(ids[..n - 1]) + multiset{ids[n - 1]}
  {
    assert ids[..n] == ids[..n - 1] + [ids[n - 1]];
  }

  lemma PrefixIncluded(ids: seq<string>, n: nat)
    requires n <= |ids|
    ensures multiset(ids[..n]) <= multiset(ids)
  {
    assert ids == ids[..n] + ids[n..];
  }

  /** The old ids, less the first `n` asked for, plus the first `n` put in. */
  function IdsAfter(items: seq<Item>, ids: seq<string>, newIds: seq<string>, n: nat): multiset<string>
    requires n <= |ids| == |newIds|
  {
    multiset(Ids(items)) - multiset(ids[..n]) + multiset(newIds[..n])
  }

  lemma ExchangeOne(all: multiset<string>, gone: multiset<string>, come: multiset<string>, id: string, newId: string)
    requires gone + multiset{id} <= all
    ensures id in all - gone + come
    ensures (all - gone + come) - multiset{id} + multiset{newId} == all - (gone + multiset{id}) + (come + multiset{newId})
  {
    assert (gone + multiset{id})[id] <= all[id];
  }

  lemma IdsAfterNext(items: seq<Item>, ids: seq<string>, newIds: seq<string>, n: nat)
    requires n < |ids| == |newIds| && Holds(items, ids)
    ensures ids[n] in IdsAfter(items, ids, newIds, n)
    ensures IdsAfter(items, ids, newIds, n + 1) == IdsAfter(items, ids, newIds, n) - multiset{ids[n]} + multiset{newIds[n]}
  {
    HoldsIsInclusion(items, ids);
    TakeOne(ids, n + 1);
    TakeOne(newIds, n + 1);
    PrefixIncluded(ids, n + 1);
    ExchangeOne(multiset(Ids(items)), multiset(ids[..n]), multiset(newIds[..n]), ids[n], newIds[n]);
  }

  /** After `n` swaps the ids are those, and the next search finds an item. */
  lemma {:induction false} SwapIds(items: seq<Item>, ids: seq<string>, newIds: seq<string>, vs: seq<Variant>, n: nat)
    requires n <= |ids| == |newIds| == |vs| && Holds(items, ids)
    ensures multiset(Ids(Swap(items, ids, newIds, vs, n))) == IdsAfter(items, ids, newIds, n)
    ensures n < |ids| ==> Find(Swap(items, ids, newIds, vs, n), ids[n]) < |items|
  {
    if n == 0 {
      assert ids[..0] == [] && newIds[..0] == [];
    } else {
      SwapIds(items, ids, newIds, vs, n - 1);
      IdsAfterNext(items, ids, newIds, n - 1);
      SwapOneIds(Swap(items, ids, newIds, vs, n - 1), ids[n - 1], newIds[n - 1], vs[n - 1]);
    }
    if n < |ids| {
      IdsAfterNext(items, ids, newIds, n);
      FoundIfThere(Swap(items, ids, newIds, vs, n), ids[n]);
    }
  }

  /** Once the checks pass, every search of the second loop finds an item, and the order's ids become old − asked + new. */
  lemma ModifiedItemIds(db: Db, id: string, ids: seq<string>, newIds: seq<string>, pay: string)
    requires ItemsModified(db, id, ids, newIds, pay).1.Done?
    ensures Swaps(db, db.orders[id], ids, newIds, true).Ok?
    ensures var vs := Swaps(db, db.orders[id], ids, newIds, true).value.variants;
            forall n :: 0 <= n < |ids| ==> Find(Swap(db.orders[id].items, ids, newIds, vs, n), ids[n]) < |db.orders[id].items|
    ensures var after := ItemsModified(db, id, ids, newIds, pay).0.orders[id];
            && multiset(Ids(after.items)) == multiset(Ids(db.orders[id].items)) - multiset(ids) + multiset(newIds)
            && multiset(ids) <= multiset(Ids(db.orders[id].items)) && |after.items| == |db.orders[id].items|
  {
    var items := db.orders[id].items;
    var vs := Swaps(db, db.orders[id], ids, newIds, true).value.variants;
    forall n | 0 <= n < |ids| ensures Find(Swap(items, ids, newIds, vs, n), ids[n]) < |items| {
      SwapIds(items, ids, newIds, vs, n);
    }
    SwapIds(items, ids, newIds, vs, |ids|);
    HoldsIsInclusion(items, ids);
    assert ids[..|ids|] == ids && newIds[..|ids|] == newIds;
  }

  // ----- The charge -----

  function Total(items: seq<Item>): int {
    if items == [] then 0 else items[0].price + Total(items[1..])
  }

  lemma {:induction false} TotalAfterUpdate(items: seq<Item>, at: nat, x: Item)
    requires at < |items|
    ensures Total(items[at := x]) == Total(items) - items[at].price + x.price
  {
    if at > 0 {
      assert items[at := x][1..] == items[1..][at - 1 := x];
      TotalAfterUpdate(items[1..], at - 1, x);
    }
  }

  lemma {:induction false} QuoteOfPrefix(db: Db, items: seq<Item>, ids: seq<string>, newIds: seq<string>, differ: bool, n: nat, m: nat)
    requires n <= m <= |ids| == |newIds| && Quote(db, items, ids, newIds, differ, m).Ok?
    ensures Quote(db, items, ids, newIds, differ, n).Ok?
    ensures Quote(db, items, ids, newIds, differ, n).value.variants == Quote(db, items, ids, newIds, differ, m).value.variants[..n]
  {
    if n < m {
      QuoteOfPrefix(db, items, ids, newIds, differ, n, m - 1);
    }
  }

  lemma QuoteNext(db: Db, items: seq<Item>, ids: seq<string>, newIds: seq<string>, differ: bool, n: nat)
    requires 0 < n <= |ids| == |newIds| && Quote(db, items, ids, newIds, differ, n).Ok?
    ensures Quote(db, items, ids, newIds, differ, n - 1).Ok? && Find(items, ids[n - 1]) < |items|
    ensures var q, so := Quote(db, items, ids, newIds, differ, n).value, Quote(db, items, ids, newIds, differ, n - 1).value;
            var like := items[Find(items, ids[n - 1])];
            like.id == ids[n - 1] && VariantOf(db, like.product, newIds[n - 1]) == Ok(q.variants[n - 1])
            && q.difference == so.difference + q.variants[n - 1].price - like.price
  {
  }

  lemma ModifiedParts(db: Db, id: string, ids: seq<string>, newIds: seq<string>, pay: string)
    requires ItemsModified(db, id, ids, newIds, pay).1.Done?
    ensures id in db.orders && |ids| == |newIds| && Holds(db.orders[id].items, ids)
    ensures var items := db.orders[id].items;
            var q := Quote(db, items, ids, newIds, true, |ids|);
            var after := ItemsModified(db, id, ids, newIds, pay).0.orders[id];
            q.Ok? && after.items == Swap(items, ids, newIds, q.value.variants, |ids|)
            && after.history == db.orders[id].history + [Entry(if q.value.difference > 0 then Payment else Refund, Abs(q.value.difference), pay)]
  {
  }

  /** The price of the item a search finds. */
  function PriceFound(items: seq<Item>, id: string): int {
    var at := Find(items, id);
    if at == |items| then 0 else items[at].price
  }

  /** Over the first `n` swaps, what each was quoted for the item it takes out, less that item's price. */
  function Gap(items: seq<Item>, ids: seq<string>, newIds: seq<string>, vs: seq<Variant>, n: nat): int
    requires n <= |ids| == |newIds| == |vs|
  {
    if n == 0 then 0
    else Gap(items, ids, newIds, vs, n - 1) + PriceFound(items, ids[n - 1]) - PriceFound(Swap(items, ids, newIds, vs, n - 1), ids[n - 1])
  }

  /** The gap of a whole change, from the order and the listing before it is made. */
  function GapOf(db: Db, o: Order, ids: seq<string>, newIds: seq<string>): int
    requires Swaps(db, o, ids, newIds, true).Ok?
  {
    Gap(o.items, ids, newIds, Swaps(db, o, ids, newIds, true).value.variants, |ids|)
  }

  lemma SwapOneMoves(before: seq<Item>, id: string, newId: string, v: Variant)
    requires Find(before, id) < |before|
    ensures Total(SwapOne(before, id, newId, v)) == Total(before) - PriceFound(before, id) + v.price
  {
    var at := Find(before, id);
    TotalAfterUpdate(before, at, before[at].(id := newId, price := v.price, options := v.options));
  }

  /** Swap by swap, the total moves by the difference quoted so far and the gap. */
  lemma {:induction false} SwapTotals(db: Db, items: seq<Item>, ids: seq<string>, newIds: seq<string>, vs: seq<Variant>, n: nat)
    requires n <= |ids| == |newIds| == |vs| && Holds(items, ids)
    requires Quote(db, items, ids, newIds, true, n).Ok? && vs[..n] == Quote(db, items, ids, newIds, true, n).value.variants
    ensures Total(Swap(items, ids, newIds, vs, n))
         == Total(items) + Quote(db, items, ids, newIds, true, n).value.difference + Gap(items, ids, newIds, vs, n)
  {
    if n > 0 {
      QuoteNext(db, items, ids, newIds, true, n);
      QuoteOfPrefix(db, items, ids, newIds, true, n - 1, n);
      assert vs[..n - 1] == vs[..n][..n - 1] && vs[n - 1] == vs[..n][n - 1];
      SwapTotals(db, items, ids, newIds, vs, n - 1);
      SwapIds(items, ids, newIds, vs, n - 1);
      SwapOneMoves(Swap(items, ids, newIds, vs, n - 1), ids[n - 1], newIds[n - 1], vs[n - 1]);
    }
  }

  function EntryFor(amount: int, pay: string): Entry {
    Entry(if amount > 0 then Payment else Refund, Abs(amount), pay)
  }

  /** The change of the order's total is what the entry says was charged, and the gap. */
  lemma ChangeIsChargeAndGap(db: Db, id: string, ids: seq<string>, newIds: seq<string>, pay: string)
    requires ItemsModified(db, id, ids, newIds, pay).1.Done?
    ensures Swaps(db, db.orders[id], ids, newIds, true).Ok?
    ensures var o, after := db.orders[id], ItemsModified(db, id, ids, newIds, pay).0.orders[id];
            after.history == o.history + [EntryFor(Total(after.items) - Total(o.items) - GapOf(db, o, ids, newIds), pay)]
  {
    ModifiedParts(db, id, ids, newIds, pay);
    var items := db.orders[id].items;
    var vs := Quote(db, items, ids, newIds, true, |ids|).value.variants;
    assert vs[..|ids|] == vs;
    SwapTotals(db, items, ids, newIds, vs, |ids|);
  }

  lemma OneEntryEach(a: int, b: int, pay: string)
    ensures EntryFor(a, pay) == EntryFor(b, pay) <==> a == b
  {
  }

  /** So the entry is the change of the order's total exactly when there is no gap. */
  lemma ChargedForTheChangeExactlyWhen(db: Db, id: string, ids: seq<string>, newIds: seq<string>, pay: string)
    requires ItemsModified(db, id, ids, newIds, pay).1.Done?
    ensures Swaps(db, db.orders[id], ids, newIds, true).Ok?
    ensures var o, after := db.orders[id], ItemsModified(db, id, ids, newIds, pay).0.orders[id];
            after.history == o.history + [EntryFor(Total(after.items) - Total(o.items), pay)] <==> GapOf(db, o, ids, newIds) == 0
  {
    ChangeIsChargeAndGap(db, id, ids, newIds, pay);
    var o, after := db.orders[id], ItemsModified(db, id, ids, newIds, pay).0.orders[id];
    var change, gap := Total(after.items) - Total(o.items), GapOf(db, o, ids, newIds);
    OneEntryEach(change, change - gap, pay);
    LastOfBoth(o.history, EntryFor(change, pay), EntryFor(change - gap, pay));
  }

  lemma LastOfBoth(h: seq<Entry>, a: Entry, b: Entry)
    ensures h + [a] == h + [b] <==> a == b
  {
    assert (h + [a])[|h|] == a && (h + [b])[|h|] == b;
  }

  // ----- Orders recorded at listed prices have no gap

  /** The item is a variant its product lists, at the listed price. */
  predicate Listed(db: Db, item: Item) {
    item.product in db.products && item.id in db.products[item.product] && db.products[item.product][item.id].price == item.price
  }

  predicate AllListed(db: Db, items: seq<Item>) {
    forall i :: 0 <= i < |items| ==> Listed(db, items[i])
  }

  /** No two products list a variant of the same id. */
  predicate OneProductEach(db: Db) {
    forall p, q :: p in db.products && q in db.products && p != q ==> db.products[p].Keys !! db.products[q].Keys
  }

  lemma SameIdSamePrice(db: Db, x: Item, y: Item)
    requires OneProductEach(db) && Listed(db, x) && Listed(db, y) && x.id == y.id
    ensures x.product == y.product && x.price == y.price
  {
    assert x.id in db.products[x.product].Keys * db.products[y.product].Keys;
  }

  /** One swap of a listed item for a listed variant of its product: it takes out what it was quoted. */
  lemma SwapOneListed(db: Db, before: seq<Item>, like: Item, newId: string, v: Variant)
    requires OneProductEach(db) && AllListed(db, before) && Listed(db, like) && Find(before, like.id) < |before|
    requires VariantOf(db, like.product, newId) == Ok(v)
    ensures AllListed(db, SwapOne(before, like.id, newId, v)) && PriceFound(before, like.id) == like.price
  {
    SameIdSamePrice(db, before[Find(before, like.id)], like);
  }

  lemma {:induction false} ListedHasNoGap(db: Db, items: seq<Item>, ids: seq<string>, newIds: seq<string>, vs: seq<Variant>, n: nat)
    requires n <= |ids| == |newIds| == |vs| && Holds(items, ids) && OneProductEach(db) && AllListed(db, items)
    requires Quote(db, items, ids, newIds, true, n).Ok? && vs[..n] == Quote(db, items, ids, newIds, true, n).value.variants
    ensures AllListed(db, Swap(items, ids, newIds, vs, n)) && Gap(items, ids, newIds, vs, n) == 0
  {
    if n > 0 {
      QuoteNext(db, items, ids, newIds, true, n);
      QuoteOfPrefix(db, items, ids, newIds, true, n - 1, n);
      assert vs[..n - 1] == vs[..n][..n - 1] && vs[n - 1] == vs[..n][n - 1];
      ListedHasNoGap(db, items, ids, newIds, vs, n - 1);
      SwapIds(items, ids, newIds, vs, n - 1);
      SwapOneListed(db, Swap(items, ids, newIds, vs, n - 1), items[Find(items, ids[n - 1])], newIds[n - 1], vs[n - 1]);
    }
  }

  /** Where every item is recorded at its listed price, the entry an accepted change adds is the change of the order's total. */
  lemma ChargedForTheChange(db: Db, id: string, ids: seq<string>, newIds: seq<string>, pay: string)
    requires ItemsModified(db, id, ids, newIds, pay).1.Done? && OneProductEach(db) && AllListed(db, db.orders[id].items)
    ensures var o, after := db.orders[id], ItemsModified(db, id, ids, newIds, pay).0.orders[id];
            AllListed(db, after.items) && after.history == o.history + [EntryFor(Total(after.items) - Total(o.items), pay)]
  {
    ModifiedParts(db, id, ids, newIds, pay);
    var items := db.orders[id].items;
    var vs := Quote(db, items, ids, newIds, true, |ids|).value.variants;
    assert vs[..|ids|] == vs;
    ListedHasNoGap(db, items, ids, newIds, vs, |ids|);
    ChargedForTheChangeExactlyWhen(db, id, ids, newIds, pay);
  }

  lemma QuoteStep(db: Db, items: seq<Item>, ids: seq<string>, newIds: seq<string>, differ: bool, n: nat, so: Quoted)
    requires n < |ids| == |newIds| && Quote(db, items, ids, newIds, differ, n) == Ok(so)
    ensures Quote(db, items, ids, newIds, differ, n + 1) == QuoteOne(db, items, ids[n], newIds[n], differ, so)
  {
  }

  const HOME := Address("", "", "", "", "", "")

  lemma TwoAlikeQuote(db: Db, x: Item, y: Item, newId: string, v: Variant)
    requires x.id == y.id && x.id != newId && VariantOf(db, x.product, newId) == Ok(v) && v.available
    ensures Quote(db, [x, y], [x.id, x.id], [newId, newId], true, 2) == Ok(Quoted([v, v], 2 * (v.price - x.price)))
  {
    var items, ids, newIds := [x, y], [x.id, x.id], [newId, newId];
    assert [] + [v] == [v] && [v] + [v] == [v, v];
    QuoteStep(db, items, ids, newIds, true, 0, Quoted([], 0));
    QuoteStep(db, items, ids, newIds, true, 1, Quoted([v], v.price - x.price));
  }

  lemma TwoAlikeSwap(x: Item, y: Item, newId: string, v: Variant)
    requires x.id == y.id && x.id != newId
    ensures Swap([x, y], [x.id, x.id], [newId, newId], [v, v], 2)
         == [x.(id := newId, price := v.price, options := v.options), y.(id := newId, price := v.price, options := v.options)]
  {
    var x' := x.(id := newId, price := v.price, options := v.options);
    assert [x, y][0 := x'] == [x', y] && [x', y][1..] == [y];
    assert SwapOne([x, y], x.id, newId, v) == [x', y];
    assert Find([y], x.id) == 0 && Find([x', y], x.id) == 1;
    assert Swap([x, y], [x.id, x.id], [newId, newId], [v, v], 1) == [x', y];
  }

  lemma TotalOfTwo(x: Item, y: Item)
    ensures Total([x, y]) == x.price + y.price
  {
    assert Total([y]) == y.price + Total([y][1..]) && [y][1..] == [];
    assert Total([x, y]) == x.price + Total([x, y][1..]) && [x, y][1..] == [y];
  }

  /** Two items of one id, recorded at different prices: both are quoted at the first one's, so the charge is not the change. */
  lemma ChargeCanMissTheChange(x: Item, y: Item, newId: string, v: Variant)
    requires x.id == y.id && x.id != newId && v.available && x.price == v.price && y.price != v.price
    ensures var o := Order("u", "pending", [x, y], [], HOME, None, None, None);
            var db := Db(map["o" := o], map["u" := User(map["card" := GiftCard(0)], HOME)], map[x.product := map[newId := v]]);
            var (after, out) := ItemsModified(db, "o", [x.id, x.id], [newId, newId], "card");
            && out.Done? && "o" in after.orders && after.orders["o"].history == [Entry(Refund, 0, "card")]
            && Total(after.orders["o"].items) != Total([x, y])
  {
    var o := Order("u", "pending", [x, y], [], HOME, None, None, None);
    var db := Db(map["o" := o], map["u" := User(map["card" := GiftCard(0)], HOME)], map[x.product := map[newId := v]]);
    assert Ids([x, y]) == [x.id, x.id];
    TwoAlikeQuote(db, x, y, newId, v);
    TwoAlikeSwap(x, y, newId, v);
    TotalOfTwo(x, y);
    TotalOfTwo(x.(id := newId, price := v.price, options := v.options), y.(id := newId, price := v.price, options := v.options));
    assert Swaps(db, o, [x.id, x.id], [newId, newId], true) == Ok(Quoted([v, v], 0));
    assert Affordable(db, "u", "card", 0) == Ok(GiftCard(0));
    assert [] + [Entry(Refund, 0, "card")] == [Entry(Refund, 0, "card")];
    ModifiedParts(db, "o", [x.id, x.id], [newId, newId], "card");
  }
}
