/** The database as an object that each action changes in place, step by step. */
module RetailShop {
  import opened Wrappers
  import opened Retail

  lemma {:induction false} QuoteErrSticks(db: Db, items: seq<Item>, ids: seq<string>, newIds: seq<string>, differ: bool, i: nat, n: nat)
    requires i <= n <= |ids| == |newIds|
    requires Quote(db, items, ids, newIds, differ, i).Err?
    ensures Quote(db, items, ids, newIds, differ, n) == Quote(db, items, ids, newIds, differ, i)
  {
    if i < n {
      QuoteErrSticks(db, items, ids, newIds, differ, i, n - 1);
    }
  }

  /** Giving amounts back changes balances only: which methods exist, and which are gift cards, stays. */
  lemma {:induction false} CreditKeepsMethods(db: Db, user: string, history: seq<Entry>, id: string)
    ensures var after := Credit(db, user, history);
            after.orders == db.orders && after.products == db.products
            && after.users.Keys == db.users.Keys
            && (MethodOf(after, user, id).Ok? == MethodOf(db, user, id).Ok?)
            && (MethodOf(db, user, id).Err? ==> MethodOf(after, user, id) == MethodOf(db, user, id))
  {
    if history != [] {
      CreditKeepsMethods(db, user, history[..|history| - 1], id);
    }
  }

  method CountIn(ids: seq<string>, id: string) returns (n: nat)
    ensures n == multiset(ids)[id]
  {
    n := 0;
    for i := 0 to |ids|
      invariant n == multiset(ids[..i])[id]
    {
      assert ids[..i + 1] == ids[..i] + [ids[i]];
      if ids[i] == id { n := n + 1; }
    }
    assert ids[..|ids|] == ids;
  }

  class RetailDb {
    var orders: map<string, Order>
    var users: map<string, User>
    var products: map<string, map<string, Variant>>

    function Value(): Db
      reads this
    {
      Db(orders, users, products)
    }

    constructor (db: Db)
      ensures Value() == db
    {
      orders, users, products := db.orders, db.users, db.products;
    }

    method LookUp(user: string, id: string) returns (pm: Result<Method, Error>)
      ensures pm == MethodOf(Value(), user, id)
    {
      if user !in users { return Err(UserNotFound); }
      if id !in users[user].methods { return Err(MethodNotFound); }
      return Ok(users[user].methods[id]);
    }

    method VariantFor(product: string, id: string) returns (v: Result<Variant, Error>)
      ensures v == VariantOf(Value(), product, id)
    {
      if product !in products { return Err(ProductNotFound); }
      if id !in products[product] { return Err(VariantNotFound); }
      return Ok(products[product][id]);
    }

    /** Adds to the balance of a method that is there, if it is a gift card. */
    method Add(user: string, id: string, amount: int)
      requires MethodOf(Value(), user, id).Ok?
      modifies this
      ensures Value() == Charge(old(Value()), user, id, -amount)
    {
      var pm := users[user].methods[id];
      if pm.GiftCard? {
        users := users[user := users[user].(methods := users[user].methods[id := GiftCard(pm.balance + amount)])];
      }
    }

    method AllHeld(id: string, ids: seq<string>) returns (held: bool)
      requires id in orders
      ensures held == Holds(orders[id].items, ids)
    {
      var own := Ids(orders[id].items);
      for i := 0 to |ids|
        invariant forall k :: 0 <= k < i ==> multiset(ids)[ids[k]] <= multiset(own)[ids[k]]
      {
        var named := CountIn(ids, ids[i]);
        var there := CountIn(own, ids[i]);
        if named > there { return false; }
      }
      return true;
    }

    method PriceSwaps(id: string, ids: seq<string>, newIds: seq<string>, differ: bool) returns (q: Result<Quoted, Error>)
      requires id in orders && |ids| == |newIds|
      ensures q == Quote(Value(), orders[id].items, ids, newIds, differ, |ids|)
    {
      var items := orders[id].items;
      var variants, diff := [], 0;
      for i := 0 to |ids|
        invariant Quote(Value(), items, ids, newIds, differ, i) == Ok(Quoted(variants, diff))
      {
        ghost var next := Quote(Value(), items, ids, newIds, differ, i + 1);
        if next.Err? { QuoteErrSticks(Value(), items, ids, newIds, differ, i + 1, |ids|); }
        if differ && ids[i] == newIds[i] { return Err(SameItem); }
        var at := Find(items, ids[i]);
        if at == |items| { return Err(ItemNotFound); }
        var v := VariantFor(items[at].product, newIds[i]);
        if v.Err? { return Err(v.error); }
        if !v.value.available { return Err(Unavailable); }
        variants := variants + [v.value];
        diff := diff + v.value.price - items[at].price;
      }
      return Ok(Quoted(variants, diff));
    }

    method CancelOrder(id: string, reason: string) returns (r: Outcome)
      modifies this
      ensures (Value(), r) == Cancelled(old(Value()), id, reason)
    {
      if id !in orders { return Refused(OrderNotFound); }
      var o := orders[id];
      if o.status != "pending" { return Refused(NotPending); }
      if reason !in REASONS { return Refused(InvalidReason); }
      ghost var was := Value();
      ghost var n := Settled(was, o.user, o.history);
      var refunds := [];
      for i := 0 to |o.history|
        invariant i <= n
        invariant refunds == Refunds(o.history)[..i]
        invariant Value() == Credit(was, o.user, o.history[..i])
      {
        var e := o.history[i];
        refunds := refunds + [Entry(Refund, e.amount, e.pay)];
        CreditKeepsMethods(was, o.user, o.history[..i], e.pay);
        var pm := LookUp(o.user, e.pay);
        if pm.Err? { return Refused(pm.error); }
        Add(o.user, e.pay, e.amount);
        assert o.history[..i + 1][..i] == o.history[..i];
      }
      assert o.history[..n] == o.history && o.history[..|o.history|] == o.history && refunds == Refunds(o.history);
      CreditKeepsMethods(was, o.user, o.history, "");
      orders := orders[id := o.(status := "cancelled", cancelReason := Some(reason), history := o.history + refunds)];
      return Done;
    }

    method ModifyItemsOf(id: string, ids: seq<string>, newIds: seq<string>, pay: string) returns (r: Outcome)
      modifies this
      ensures (Value(), r) == ItemsModified(old(Value()), id, ids, newIds, pay)
    {
      if id !in orders { return Refused(OrderNotFound); }
      var o := orders[id];
      if o.status != "pending" { return Refused(NotPending); }
      var held := AllHeld(id, ids);
      if !held { return Refused(ItemNotFound); }
      if |ids| != |newIds| { return Refused(LengthsDiffer); }
      var q := PriceSwaps(id, ids, newIds, true);
      if q.Err? { return Refused(q.error); }
      var diff, variants := q.value.difference, q.value.variants;
      var pm := LookUp(o.user, pay);
      if pm.Err? { return Refused(pm.error); }
      if pm.value.GiftCard? && pm.value.balance < diff { return Refused(LowBalance); }
      var history := o.history + [Entry(if diff > 0 then Kind.Payment else Refund, Abs(diff), pay)];
      Add(o.user, pay, -diff);
      var items := o.items;
      for i := 0 to |ids|
        invariant items == Swap(o.items, ids, newIds, variants, i)
      {
        var at := Find(items, ids[i]);
        if at < |items| {
          items := items[at := items[at].(id := newIds[i], price := variants[i].price, options := variants[i].options)];
        }
      }
      orders := orders[id := o.(items := items, history := history, status := MODIFIED)];
      return Done;
    }

    method ModifyPaymentOf(id: string, pay: string) returns (r: Outcome)
      modifies this
      ensures (Value(), r) == PaymentModified(old(Value()), id, pay)
    {
      if id !in orders { return Refused(OrderNotFound); }
      var o := orders[id];
      if !IsPending(o.status) { return Refused(NotPending); }
      var pm := LookUp(o.user, pay);
      if pm.Err? { return Refused(pm.error); }
      if |o.history| != 1 || o.history[0].kind != Kind.Payment { return Refused(NotOnePayment); }
      if o.history[0].pay == pay { return Refused(SameMethod); }
      var amount, was := o.history[0].amount, o.history[0].pay;
      if pm.value.GiftCard? && pm.value.balance < amount { return Refused(LowBalance); }
      orders := orders[id := o.(history := o.history + [Entry(Kind.Payment, amount, pay), Entry(Refund, amount, was)])];
      Add(o.user, pay, -amount);
      var oldPm := LookUp(o.user, was);
      if oldPm.Err? { return Refused(oldPm.error); }
      Add(o.user, was, amount);
      return Done;
    }

    method ReturnItems(id: string, ids: seq<string>, pay: string) returns (r: Outcome)
      modifies this
      ensures (Value(), r) == Returned(old(Value()), id, ids, pay)
    {
      if id !in orders { return Refused(OrderNotFound); }
      var o := orders[id];
      if o.status != "delivered" { return Refused(NotDelivered); }
      var pm := LookUp(o.user, pay);
      if pm.Err? { return Refused(pm.error); }
      if !pm.value.GiftCard? {
        if o.history == [] { return Refused(NoFirstPayment); }
        if pay != o.history[0].pay { return Refused(NotOriginalMethod); }
      }
      var held := AllHeld(id, ids);
      if !held { return Refused(ItemNotFound); }
      orders := orders[id := o.(status := "return requested", returning := Some(Returning(multiset(ids), pay)))];
      return Done;
    }

    method ExchangeItems(id: string, ids: seq<string>, newIds: seq<string>, pay: string) returns (r: Outcome)
      modifies this
      ensures (Value(), r) == Exchanged(old(Value()), id, ids, newIds, pay)
    {
      if id !in orders { return Refused(OrderNotFound); }
      var o := orders[id];
      if o.status != "delivered" { return Refused(NotDelivered); }
      var held := AllHeld(id, ids);
      if !held { return Refused(ItemNotFound); }
      if |ids| != |newIds| { return Refused(LengthsDiffer); }
      var q := PriceSwaps(id, ids, newIds, false);
      if q.Err? { return Refused(q.error); }
      var pm := LookUp(o.user, pay);
      if pm.Err? { return Refused(pm.error); }
      if pm.value.GiftCard? && pm.value.balance < q.value.difference { return Refused(LowBalance); }
      var wanted := Exchanging(multiset(ids), multiset(newIds), pay, q.value.difference);
      orders := orders[id := o.(status := "exchange requested", exchanging := Some(wanted))];
      return Done;
    }

    method Apply(a: Action) returns (r: Outcome)
      modifies this
      ensures (Value(), r) == Applied(old(Value()), a)
    {
      match a
      case Cancel(id, reason) => r := CancelOrder(id, reason);
      case OrderAddress(id, address) =>
        if id !in orders { return Refused(OrderNotFound); }
        if !IsPending(orders[id].status) { return Refused(NotPending); }
        orders := orders[id := orders[id].(address := address)];
        return Done;
      case UserAddress(id, address) =>
        if id !in users { return Refused(UserNotFound); }
        users := users[id := users[id].(address := address)];
        return Done;
      case ModifyItems(id, ids, newIds, m) => r := ModifyItemsOf(id, ids, newIds, m);
      case ModifyPayment(id, m) => r := ModifyPaymentOf(id, m);
      case Return(id, ids, m) => r := ReturnItems(id, ids, m);
      case Exchange(id, ids, newIds, m) => r := ExchangeItems(id, ids, newIds, m);
      case Read(answered) => r := if answered then Done else Refused(ReadFailed);
    }
  }
}
