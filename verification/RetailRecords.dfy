// When each action is accepted, by the database's own fields, and everything it then writes.
module RetailRecords {
  import opened Wrappers
  import opened Retail

  // ----- Swaps of items -----

  /** The first item of an id, whose product and price a swap goes by. */
  function ItemOf(items: seq<Item>, id: string): Item
    requires Has(items, id)
  {
    if items[0].id == id then items[0]
    else
      assert forall i :: 0 < i < |items| ==> items[i] == items[1..][i - 1];
      ItemOf(items[1..], id)
  }

  predicate Has(items: seq<Item>, id: string) {
    exists i :: 0 <= i < |items| && items[i].id == id
  }

  /** The order has such an item, and its product lists the new one, available. */
  predicate Swappable(db: Db, items: seq<Item>, id: string, newId: string) {
    && Has(items, id)
    && var product := ItemOf(items, id).product;
       product in db.products && newId in db.products[product] && db.products[product][newId].available
  }

  /** What the first `n` new items cost more than the items in whose place they come. */
  function CostMore(db: Db, items: seq<Item>, ids: seq<string>, newIds: seq<string>, n: nat): int
    requires n <= |ids| == |newIds| && forall i :: 0 <= i < n ==> Swappable(db, items, ids[i], newIds[i])
  {
    if n == 0 then 0
    else
      assert Swappable(db, items, ids[n - 1], newIds[n - 1]);
      var item := ItemOf(items, ids[n - 1]);
      CostMore(db, items, ids, newIds, n - 1) + (db.products[item.product][newIds[n - 1]].price - item.price)
  }

  lemma {:induction false} FindIsItemOf(items: seq<Item>, id: string)
    ensures Find(items, id) < |items| <==> Has(items, id)
    ensures Has(items, id) ==> items[Find(items, id)] == ItemOf(items, id)
  {
    if items != [] && items[0].id != id {
      FindIsItemOf(items[1..], id);
      assert forall i :: 0 <= i < |items[1..]| ==> items[1..][i] == items[i + 1];
    }
  }

  predicate AllSwappable(db: Db, items: seq<Item>, ids: seq<string>, newIds: seq<string>, differ: bool, n: nat)
    requires n <= |ids| == |newIds|
  {
    forall i :: 0 <= i < n ==> Swappable(db, items, ids[i], newIds[i]) && (differ ==> ids[i] != newIds[i])
  }

  lemma OneQuoted(db: Db, items: seq<Item>, id: string, newId: string, differ: bool, so: Quoted)
    ensures QuoteOne(db, items, id, newId, differ, so).Ok? <==> Swappable(db, items, id, newId) && (differ ==> id != newId)
    ensures QuoteOne(db, items, id, newId, differ, so).Ok? ==>
      var item, q := ItemOf(items, id), QuoteOne(db, items, id, newId, differ, so).value;
      q.variants == so.variants + [db.products[item.product][newId]]
      && q.difference == so.difference + (db.products[item.product][newId].price - item.price)
  {
    FindIsItemOf(items, id);
  }

  lemma QuoteNext(db: Db, items: seq<Item>, ids: seq<string>, newIds: seq<string>, differ: bool, n: nat)
    requires 0 < n <= |ids| == |newIds|
    ensures var before, all := Quote(db, items, ids, newIds, differ, n - 1), Quote(db, items, ids, newIds, differ, n);
            all.Ok? ==> before.Ok? && all == QuoteOne(db, items, ids[n - 1], newIds[n - 1], differ, before.value)
    ensures var before, all := Quote(db, items, ids, newIds, differ, n - 1), Quote(db, items, ids, newIds, differ, n);
            before.Ok? ==> all == QuoteOne(db, items, ids[n - 1], newIds[n - 1], differ, before.value)
  {
  }

  lemma SwappableNext(db: Db, items: seq<Item>, ids: seq<string>, newIds: seq<string>, differ: bool, n: nat)
    requires 0 < n <= |ids| == |newIds|
    ensures AllSwappable(db, items, ids, newIds, differ, n) <==>
      AllSwappable(db, items, ids, newIds, differ, n - 1) && Swappable(db, items, ids[n - 1], newIds[n - 1]) && (differ ==> ids[n - 1] != newIds[n - 1])
  {
  }

  lemma {:induction false} QuotedExactlyWhen(db: Db, items: seq<Item>, ids: seq<string>, newIds: seq<string>, differ: bool, n: nat)
    requires n <= |ids| == |newIds|
    ensures Quote(db, items, ids, newIds, differ, n).Ok? <==> AllSwappable(db, items, ids, newIds, differ, n)
  {
    if n > 0 {
      QuotedExactlyWhen(db, items, ids, newIds, differ, n - 1);
      QuoteNext(db, items, ids, newIds, differ, n);
      SwappableNext(db, items, ids, newIds, differ, n);
      var before := Quote(db, items, ids, newIds, differ, n - 1);
      if before.Ok? { OneQuoted(db, items, ids[n - 1], newIds[n - 1], differ, before.value); }
    }
  }

  /** A quote is given exactly when every swap can be made, for the variants asked and the sum of what they cost more. */
  lemma {:induction false} QuotedFor(db: Db, items: seq<Item>, ids: seq<string>, newIds: seq<string>, differ: bool, n: nat)
    requires n <= |ids| == |newIds| && AllSwappable(db, items, ids, newIds, differ, n)
    ensures Quote(db, items, ids, newIds, differ, n).Ok?
    ensures Quote(db, items, ids, newIds, differ, n).value.difference == CostMore(db, items, ids, newIds, n)
    ensures forall i :: 0 <= i < n ==>
      Quote(db, items, ids, newIds, differ, n).value.variants[i] == db.products[ItemOf(items, ids[i]).product][newIds[i]]
  {
    if n > 0 {
      SwappableNext(db, items, ids, newIds, differ, n);
      QuotedFor(db, items, ids, newIds, differ, n - 1);
      QuoteNext(db, items, ids, newIds, differ, n);
      OneQuoted(db, items, ids[n - 1], newIds[n - 1], differ, Quote(db, items, ids, newIds, differ, n - 1).value);
    }
  }

  /** Asked for no more often than held, and each swap can be made. */
  predicate CanSwap(db: Db, o: Order, ids: seq<string>, newIds: seq<string>, differ: bool) {
    multiset(ids) <= multiset(Ids(o.items)) && |ids| == |newIds| && AllSwappable(db, o.items, ids, newIds, differ, |ids|)
  }

  lemma SwapsExactlyWhen(db: Db, o: Order, ids: seq<string>, newIds: seq<string>, differ: bool)
    ensures Swaps(db, o, ids, newIds, differ).Ok? <==> CanSwap(db, o, ids, newIds, differ)
    ensures CanSwap(db, o, ids, newIds, differ) ==>
      Swaps(db, o, ids, newIds, differ).value.difference == CostMore(db, o.items, ids, newIds, |ids|)
  {
    assert Holds(o.items, ids) <==> multiset(ids) <= multiset(Ids(o.items));
    if |ids| == |newIds| { QuotedExactlyWhen(db, o.items, ids, newIds, differ, |ids|); }
    if CanSwap(db, o, ids, newIds, differ) { QuotedFor(db, o.items, ids, newIds, differ, |ids|); }
  }

  lemma SwapsFor(db: Db, o: Order, ids: seq<string>, newIds: seq<string>, differ: bool)
    requires CanSwap(db, o, ids, newIds, differ)
    ensures Swaps(db, o, ids, newIds, differ).Ok?
    ensures forall i :: 0 <= i < |ids| ==>
      Swaps(db, o, ids, newIds, differ).value.variants[i] == db.products[ItemOf(o.items, ids[i]).product][newIds[i]]
  {
    SwapsExactlyWhen(db, o, ids, newIds, differ);
    QuotedFor(db, o.items, ids, newIds, differ, |ids|);
  }

  /** The user has the method, and a gift card has the amount. */
  predicate CanPay(db: Db, user: string, pay: string, amount: int) {
    && user in db.users && pay in db.users[user].methods
    && (db.users[user].methods[pay].GiftCard? ==> db.users[user].methods[pay].balance >= amount)
  }

  // ----- Exchange and return -----

  /** An exchange is accepted exactly when the order is delivered, the swaps can be made and their difference paid. */
  lemma ExchangedExactlyWhen(db: Db, id: string, ids: seq<string>, newIds: seq<string>, pay: string)
    ensures Exchanged(db, id, ids, newIds, pay).1.Done? <==>
      id in db.orders && db.orders[id].status == "delivered" && CanSwap(db, db.orders[id], ids, newIds, false)
      && CanPay(db, db.orders[id].user, pay, CostMore(db, db.orders[id].items, ids, newIds, |ids|))
  {
    if id in db.orders { SwapsExactlyWhen(db, db.orders[id], ids, newIds, false); }
  }

  /**
   * What it records: given back are the items asked, all of them the order's; wanted are the new ones, each an available
   * variant of the product of the item in its place; and the difference is the sum of their prices less the items'. Nothing
   * else changes but the status, and no money moves.
   */
  lemma ExchangeRecords(db: Db, id: string, ids: seq<string>, newIds: seq<string>, pay: string)
    requires Exchanged(db, id, ids, newIds, pay).1.Done?
    ensures id in db.orders && CanSwap(db, db.orders[id], ids, newIds, false)
    ensures var o := db.orders[id];
            Exchanged(db, id, ids, newIds, pay).0 == db.(orders := db.orders[id := o.(status := "exchange requested",
              exchanging := Some(Exchanging(items := multiset(ids), newItems := multiset(newIds), pay := pay,
                                            difference := CostMore(db, o.items, ids, newIds, |ids|))))])
  {
    SwapsExactlyWhen(db, db.orders[id], ids, newIds, false);
  }

  /** A return is accepted exactly when the order is delivered and holds the items, and is refunded to a gift card or to how it was first paid. */
  lemma ReturnedExactlyWhen(db: Db, id: string, ids: seq<string>, pay: string)
    ensures Returned(db, id, ids, pay).1.Done? <==>
      id in db.orders && db.orders[id].status == "delivered" && multiset(ids) <= multiset(Ids(db.orders[id].items))
      && db.orders[id].user in db.users && pay in db.users[db.orders[id].user].methods
      && (db.users[db.orders[id].user].methods[pay].GiftCard?
          || (db.orders[id].history != [] && pay == db.orders[id].history[0].pay))
  {
    if id in db.orders { assert Holds(db.orders[id].items, ids) <==> multiset(ids) <= multiset(Ids(db.orders[id].items)); }
  }

  /** What it records: the items asked, and where to refund them; nothing else changes but the status. */
  lemma ReturnRecords(db: Db, id: string, ids: seq<string>, pay: string)
    requires Returned(db, id, ids, pay).1.Done?
    ensures id in db.orders
    ensures Returned(db, id, ids, pay).0 == db.(orders := db.orders[id := db.orders[id].(status := "return requested",
              returning := Some(Returning(items := multiset(ids), pay := pay)))])
  {
  }

  // ----- Changes of a pending order -----

  /** An items change is accepted exactly when the order is pending, the swaps can be made, each to another id, and paid. */
  lemma ItemsModifiedExactlyWhen(db: Db, id: string, ids: seq<string>, newIds: seq<string>, pay: string)
    ensures ItemsModified(db, id, ids, newIds, pay).1.Done? <==>
      id in db.orders && db.orders[id].status == "pending" && CanSwap(db, db.orders[id], ids, newIds, true)
      && CanPay(db, db.orders[id].user, pay, CostMore(db, db.orders[id].items, ids, newIds, |ids|))
  {
    if id in db.orders { SwapsExactlyWhen(db, db.orders[id], ids, newIds, true); }
  }

  /** The item is as it was, or has become one of the new ones: its id, and its variant's price and options. */
  predicate KeptOrSwapped(db: Db, items: seq<Item>, ids: seq<string>, newIds: seq<string>, n: nat, was: Item, item: Item)
    requires n <= |ids| == |newIds| && AllSwappable(db, items, ids, newIds, true, n)
  {
    item == was || exists j :: 0 <= j < n && Became(db, items, ids[j], newIds[j], was, item)
  }

  predicate Became(db: Db, items: seq<Item>, id: string, newId: string, was: Item, item: Item)
    requires Swappable(db, items, id, newId)
  {
    var v := db.products[ItemOf(items, id).product][newId];
    item == was.(id := newId, price := v.price, options := v.options)
  }

  lemma {:induction false} SwappedItems(db: Db, items: seq<Item>, ids: seq<string>, newIds: seq<string>, vs: seq<Variant>, n: nat)
    requires n <= |ids| == |newIds| == |vs| && AllSwappable(db, items, ids, newIds, true, |ids|)
    requires forall i :: 0 <= i < |ids| ==> vs[i] == db.products[ItemOf(items, ids[i]).product][newIds[i]]
    ensures forall i :: 0 <= i < |items| ==>
      KeptOrSwapped(db, items, ids, newIds, n, items[i], Swap(items, ids, newIds, vs, n)[i])
  {
    if n > 0 {
      SwappedItems(db, items, ids, newIds, vs, n - 1);
      forall i | 0 <= i < |items| ensures KeptOrSwapped(db, items, ids, newIds, n, items[i], Swap(items, ids, newIds, vs, n)[i]) {
        SwappedOnce(db, items, ids, newIds, vs, n, i);
      }
    }
  }

  lemma SwappedOnce(db: Db, items: seq<Item>, ids: seq<string>, newIds: seq<string>, vs: seq<Variant>, n: nat, i: nat)
    requires 0 < n <= |ids| == |newIds| == |vs| && i < |items| && AllSwappable(db, items, ids, newIds, true, |ids|)
    requires vs[n - 1] == db.products[ItemOf(items, ids[n - 1]).product][newIds[n - 1]]
    requires KeptOrSwapped(db, items, ids, newIds, n - 1, items[i], Swap(items, ids, newIds, vs, n - 1)[i])
    ensures KeptOrSwapped(db, items, ids, newIds, n, items[i], Swap(items, ids, newIds, vs, n)[i])
  {
    var before, after := Swap(items, ids, newIds, vs, n - 1), Swap(items, ids, newIds, vs, n);
    var at := Find(before, ids[n - 1]);
    if at == i {
      assert after[i] == before[i].(id := newIds[n - 1], price := vs[n - 1].price, options := vs[n - 1].options);
      if before[i] != items[i] {
        var j :| 0 <= j < n - 1 && Became(db, items, ids[j], newIds[j], items[i], before[i]);
      }
      assert Became(db, items, ids[n - 1], newIds[n - 1], items[i], after[i]);
    } else {
      assert after[i] == before[i];
      if before[i] != items[i] {
        var j :| 0 <= j < n - 1 && Became(db, items, ids[j], newIds[j], items[i], before[i]);
        assert j < n;
      }
    }
  }

  /** What an accepted items change makes of the order. */
  function Remade(db: Db, o: Order, ids: seq<string>, newIds: seq<string>, pay: string): Order
    requires Swaps(db, o, ids, newIds, true).Ok?
  {
    var q := Swaps(db, o, ids, newIds, true).value;
    RemadeWith(o, Swap(o.items, ids, newIds, q.variants, |ids|), q.difference, pay)
  }

  /** The order with these items, an entry of what they cost more or less, and its status saying so. */
  function RemadeWith(o: Order, items: seq<Item>, more: int, pay: string): Order {
    o.(items := items, status := "pending (item modified)",
       history := o.history + [if more > 0 then Entry(Payment, more, pay) else Entry(Refund, -more, pay)])
  }

  lemma ChargeKeepsOrders(db: Db, user: string, pay: string, amount: int)
    ensures Charge(db, user, pay, amount).orders == db.orders
  {
  }

  lemma RemadeIs(db: Db, id: string, ids: seq<string>, newIds: seq<string>, pay: string)
    requires ItemsModified(db, id, ids, newIds, pay).1.Done?
    ensures id in db.orders && Swaps(db, db.orders[id], ids, newIds, true).Ok?
    ensures ItemsModified(db, id, ids, newIds, pay).0.orders == db.orders[id := Remade(db, db.orders[id], ids, newIds, pay)]
  {
    var o := db.orders[id];
    ChargeKeepsOrders(db, o.user, pay, Swaps(db, o, ids, newIds, true).value.difference);
  }

  /**
   * What it writes: a payment of what the new items cost more, or a refund of what they cost less, joins the history, and
   * the status says so; nothing else of the order changes but its items, nor any other order.
   */
  lemma ItemsModifiedRecords(db: Db, id: string, ids: seq<string>, newIds: seq<string>, pay: string)
    requires ItemsModified(db, id, ids, newIds, pay).1.Done?
    ensures id in db.orders && CanSwap(db, db.orders[id], ids, newIds, true)
    ensures exists items ::
      ItemsModified(db, id, ids, newIds, pay).0.orders
        == db.orders[id := RemadeWith(db.orders[id], items, CostMore(db, db.orders[id].items, ids, newIds, |ids|), pay)]
  {
    RemadeIs(db, id, ids, newIds, pay);
    RemadeEntry(db, db.orders[id], ids, newIds, pay);
  }

  lemma RemadeEntry(db: Db, o: Order, ids: seq<string>, newIds: seq<string>, pay: string)
    requires Swaps(db, o, ids, newIds, true).Ok?
    ensures CanSwap(db, o, ids, newIds, true)
    ensures exists items :: Remade(db, o, ids, newIds, pay) == RemadeWith(o, items, CostMore(db, o.items, ids, newIds, |ids|), pay)
  {
    SwapsExactlyWhen(db, o, ids, newIds, true);
    var q := Swaps(db, o, ids, newIds, true).value;
    assert Remade(db, o, ids, newIds, pay) == RemadeWith(o, Swap(o.items, ids, newIds, q.variants, |ids|), q.difference, pay);
  }

  /** And every item is as it was, or one of the new ones in its place: its id, and its variant's price and options. */
  lemma ItemsModifiedItems(db: Db, id: string, ids: seq<string>, newIds: seq<string>, pay: string)
    requires ItemsModified(db, id, ids, newIds, pay).1.Done?
    ensures id in db.orders && CanSwap(db, db.orders[id], ids, newIds, true) && id in ItemsModified(db, id, ids, newIds, pay).0.orders
    ensures var (items, later) := (db.orders[id].items, ItemsModified(db, id, ids, newIds, pay).0.orders[id].items);
            |later| == |items| && forall i :: 0 <= i < |items| ==> KeptOrSwapped(db, items, ids, newIds, |ids|, items[i], later[i])
  {
    var o := db.orders[id];
    RemadeIs(db, id, ids, newIds, pay);
    SwapsExactlyWhen(db, o, ids, newIds, true);
    SwapsFor(db, o, ids, newIds, true);
    SwappedItems(db, o.items, ids, newIds, Swaps(db, o, ids, newIds, true).value.variants, |ids|);
  }

  /**
   * A payment change is accepted exactly when the order is still pending, was paid once, by a method that is there, and the
   * new method is another that can pay.
   */
  lemma PaymentModifiedExactlyWhen(db: Db, id: string, pay: string)
    ensures PaymentModified(db, id, pay).1.Done? <==>
      id in db.orders && IsPending(db.orders[id].status)
      && |db.orders[id].history| == 1 && db.orders[id].history[0].kind.Payment? && db.orders[id].history[0].pay != pay
      && CanPay(db, db.orders[id].user, pay, db.orders[id].history[0].amount)
      && db.orders[id].history[0].pay in db.users[db.orders[id].user].methods
  {
  }

  /** What it writes: the payment by the new method and the refund of the old, and nothing else of any order. */
  lemma PaymentModifiedRecords(db: Db, id: string, pay: string)
    requires PaymentModified(db, id, pay).1.Done?
    ensures id in db.orders && |db.orders[id].history| == 1
    ensures var e := db.orders[id].history[0];
            PaymentModified(db, id, pay).0.orders
              == db.orders[id := db.orders[id].(history := [e, Entry(Payment, e.amount, pay), Entry(Refund, e.amount, e.pay)])]
  {
    var e := db.orders[id].history[0];
    assert [e] + [Entry(Payment, e.amount, pay), Entry(Refund, e.amount, e.pay)] == [e, Entry(Payment, e.amount, pay), Entry(Refund, e.amount, e.pay)];
  }

  lemma {:induction false} SettledExactlyWhen(db: Db, user: string, history: seq<Entry>)
    ensures Settled(db, user, history) == |history| <==>
      forall i :: 0 <= i < |history| ==> user in db.users && history[i].pay in db.users[user].methods
  {
    if history != [] {
      SettledExactlyWhen(db, user, history[1..]);
      assert forall i :: 0 <= i < |history[1..]| ==> history[1..][i] == history[i + 1];
    }
  }

  /** A cancellation is accepted exactly when the order is pending, for one of the two reasons, with every method there. */
  lemma CancelledExactlyWhen(db: Db, id: string, reason: string)
    ensures Cancelled(db, id, reason).1.Done? <==>
      id in db.orders && db.orders[id].status == "pending" && (reason == "no longer needed" || reason == "ordered by mistake")
      && forall i :: 0 <= i < |db.orders[id].history| ==>
           db.orders[id].user in db.users && db.orders[id].history[i].pay in db.users[db.orders[id].user].methods
  {
    if id in db.orders { SettledExactlyWhen(db, db.orders[id].user, db.orders[id].history); }
  }

  lemma {:induction false} CreditKeepsOrders(db: Db, user: string, history: seq<Entry>)
    ensures Credit(db, user, history).orders == db.orders
  {
    if history != [] { CreditKeepsOrders(db, user, history[..|history| - 1]); }
  }

  /** What it writes: the status, the reason, and a refund of every entry in turn; nothing else of any order. */
  lemma CancelRecords(db: Db, id: string, reason: string)
    requires Cancelled(db, id, reason).1.Done?
    ensures id in db.orders
    ensures var (o, orders) := (db.orders[id], Cancelled(db, id, reason).0.orders);
            && id in orders && orders == db.orders[id := o.(status := "cancelled", cancelReason := Some(reason), history := orders[id].history)]
            && |orders[id].history| == 2 * |o.history| && orders[id].history[..|o.history|] == o.history
            && forall i :: 0 <= i < |o.history| ==> orders[id].history[|o.history| + i] == Entry(Refund, o.history[i].amount, o.history[i].pay)
  {
    CreditKeepsOrders(db, db.orders[id].user, db.orders[id].history[..Settled(db, db.orders[id].user, db.orders[id].history)]);
  }

  // ----- Addresses -----

  /** An order's address is changed exactly while the order is pending, to the one given, and nothing else. */
  lemma OrderReaddressedExactlyWhen(db: Db, id: string, address: Address)
    ensures OrderReaddressed(db, id, address).1.Done? <==> id in db.orders && IsPending(db.orders[id].status)
    ensures OrderReaddressed(db, id, address).1.Done? ==>
      OrderReaddressed(db, id, address).0 == db.(orders := db.orders[id := db.orders[id].(address := address)])
  {
  }

  /** A user's address is changed for any user there is, to the one given, and nothing else. */
  lemma UserReaddressedExactlyWhen(db: Db, id: string, address: Address)
    ensures UserReaddressed(db, id, address).1.Done? <==> id in db.users
    ensures UserReaddressed(db, id, address).1.Done? ==>
      UserReaddressed(db, id, address).0 == db.(users := db.users[id := db.users[id].(address := address)])
  {
  }

  /** A status is pending exactly when it holds the word: the two there are do. */
  lemma PendingStatuses()
    ensures IsPending("pending") && IsPending("pending (item modified)")
    ensures !IsPending("delivered") && !IsPending("processed") && !IsPending("cancelled")
    ensures !IsPending("return requested") && !IsPending("exchange requested")
  {
    assert PendingAt("pending", 0) && PendingAt("pending (item modified)", 0);
    NoP("delivered");
    NotPending("processed");
    NoP("cancelled");
    NoP("return requested");
    NoP("exchange requested");
  }

  lemma NoP(s: string)
    requires forall i :: 0 <= i < |s| ==> s[i] != 'p'
    ensures !IsPending(s)
  {
    forall i | 0 <= i < |s| ensures !PendingAt(s, i) {
      if i + 7 <= |s| { assert s[i..i + 7][0] == s[i] && "pending"[0] == 'p'; }
    }
  }

  lemma NotPending(s: string)
    requires s == "processed"
    ensures !IsPending(s)
  {
    forall i | 0 <= i < |s| ensures !PendingAt(s, i) {
      if i + 7 <= |s| { assert s[i..i + 7][1] == s[i + 1] && "pending"[1] == 'e' && s[1] == 'r' && s[2] == 'o' && s[3] == 'c'; }
    }
  }
}
