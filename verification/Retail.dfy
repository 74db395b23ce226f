/** The retail database and what each write action does to it. Money is in whole cents, so rounding is the identity. */
module Retail {
  import opened Wrappers

  datatype Kind = Payment | Refund
  datatype Entry = Entry(kind: Kind, amount: int, pay: string)
  datatype Item = Item(id: string, product: string, price: int, options: string)
  datatype Variant = Variant(price: int, options: string, available: bool)
  datatype Method = GiftCard(balance: int) | OtherMethod(source: string)
  datatype Address = Address(line1: string, line2: string, city: string, state: string, country: string, zip: string)
  /** The source keeps the sorted lists, which say no more than the multisets. */
  datatype Returning = Returning(items: multiset<string>, pay: string)
  datatype Exchanging = Exchanging(items: multiset<string>, newItems: multiset<string>, pay: string, difference: int)
  datatype Order = Order(user: string, status: string, items: seq<Item>, history: seq<Entry>, address: Address,
                         cancelReason: Option<string>, returning: Option<Returning>, exchanging: Option<Exchanging>)
  datatype User = User(methods: map<string, Method>, address: Address)
  datatype Db = Db(orders: map<string, Order>, users: map<string, User>, products: map<string, map<string, Variant>>)

  datatype Error =
    | OrderNotFound | UserNotFound | ProductNotFound | VariantNotFound | MethodNotFound | ItemNotFound
    | NotPending | NotDelivered | InvalidReason | LengthsDiffer | SameItem | Unavailable | LowBalance
    | NotOnePayment | SameMethod | NotOriginalMethod | NoFirstPayment | ReadFailed
  datatype Outcome = Done | Refused(error: Error)

  datatype Action =
    | Cancel(order: string, reason: string)
    | OrderAddress(order: string, address: Address)
    | UserAddress(user: string, address: Address)
    | ModifyItems(order: string, ids: seq<string>, newIds: seq<string>, pay: string)
    | ModifyPayment(order: string, pay: string)
    | Return(order: string, ids: seq<string>, pay: string)
    | Exchange(order: string, ids: seq<string>, newIds: seq<string>, pay: string)
    | Read(answered: bool)

  const MODIFIED := "pending (item modified)"
  const REASONS := ["no longer needed", "ordered by mistake"]

  predicate PendingAt(status: string, i: nat) {
    i + 7 <= |status| && status[i..i + 7] == "pending"
  }

  /** The status holds the word somewhere. */
  predicate IsPending(status: string) {
    exists i :: 0 <= i < |status| && PendingAt(status, i)
  }

  function Ids(items: seq<Item>): (ids: seq<string>)
    ensures |ids| == |items|
  {
    seq(|items|, i requires 0 <= i < |items| => items[i].id)
  }

  /** No item is named more often than the order holds it. */
  predicate Holds(items: seq<Item>, ids: seq<string>) {
    forall id :: id in ids ==> multiset(ids)[id] <= multiset(Ids(items))[id]
  }

  /** The first item of that id, or the number of items. */
  function Find(items: seq<Item>, id: string): (at: nat)
    ensures at <= |items|
    ensures at < |items| ==> items[at].id == id
    ensures forall i :: 0 <= i < at ==> items[i].id != id
  {
    if items == [] then 0 else if items[0].id == id then 0 else 1 + Find(items[1..], id)
  }

  function VariantOf(db: Db, product: string, id: string): Result<Variant, Error> {
    if product !in db.products then Err(ProductNotFound)
    else if id !in db.products[product] then Err(VariantNotFound)
    else Ok(db.products[product][id])
  }

  function MethodOf(db: Db, user: string, id: string): Result<Method, Error> {
    if user !in db.users then Err(UserNotFound)
    else if id !in db.users[user].methods then Err(MethodNotFound)
    else Ok(db.users[user].methods[id])
  }

  datatype Quoted = Quoted(variants: seq<Variant>, difference: int)

  function QuoteOne(db: Db, items: seq<Item>, id: string, newId: string, differ: bool, so: Quoted): Result<Quoted, Error> {
    if differ && id == newId then Err(SameItem)
    else
      var at := Find(items, id);
      if at == |items| then Err(ItemNotFound)
      else
        match VariantOf(db, items[at].product, newId)
        case Err(e) => Err(e)
        case Ok(v) =>
          if !v.available then Err(Unavailable)
          else Ok(Quoted(so.variants + [v], so.difference + v.price - items[at].price))
  }

  /** What the first `n` swaps would put in and cost, each looked up in the order as it stands. */
  function Quote(db: Db, items: seq<Item>, ids: seq<string>, newIds: seq<string>, differ: bool, n: nat): (q: Result<Quoted, Error>)
    requires n <= |ids| == |newIds|
    ensures q.Ok? ==> |q.value.variants| == n
  {
    if n == 0 then Ok(Quoted([], 0))
    else
      match Quote(db, items, ids, newIds, differ, n - 1)
      case Err(e) => Err(e)
      case Ok(so) => QuoteOne(db, items, ids[n - 1], newIds[n - 1], differ, so)
  }

  function SwapOne(items: seq<Item>, id: string, newId: string, v: Variant): (swapped: seq<Item>)
    ensures |swapped| == |items|
  {
    var at := Find(items, id);
    if at == |items| then items else items[at := items[at].(id := newId, price := v.price, options := v.options)]
  }

  /** The first `n` swaps done one after the other, each looked up in what the ones before it left. */
  function Swap(items: seq<Item>, ids: seq<string>, newIds: seq<string>, variants: seq<Variant>, n: nat): (swapped: seq<Item>)
    requires n <= |ids| == |newIds| == |variants|
    ensures |swapped| == |items|
  {
    if n == 0 then items
    else SwapOne(Swap(items, ids, newIds, variants, n - 1), ids[n - 1], newIds[n - 1], variants[n - 1])
  }

  /** Takes the amount from a gift card; any other method is settled elsewhere. */
  function Charge(db: Db, user: string, id: string, amount: int): Db {
    if MethodOf(db, user, id).Ok? && MethodOf(db, user, id).value.GiftCard? then
      var card := db.users[user].methods[id];
      db.(users := db.users[user := db.users[user].(methods := db.users[user].methods[id := GiftCard(card.balance - amount)])])
    else db
  }

  /** Gives every amount of a history back, in order. */
  function Credit(db: Db, user: string, history: seq<Entry>): Db {
    if history == [] then db
    else
      var e := history[|history| - 1];
      Charge(Credit(db, user, history[..|history| - 1]), user, e.pay, -e.amount)
  }

  function Put(db: Db, id: string, o: Order): Db {
    db.(orders := db.orders[id := o])
  }

  function AsRefund(e: Entry): Entry {
    Entry(Refund, e.amount, e.pay)
  }

  function Refunds(history: seq<Entry>): (refunds: seq<Entry>)
    ensures |refunds| == |history|
  {
    seq(|history|, i requires 0 <= i < |history| => AsRefund(history[i]))
  }

  /** The length of the longest start of a history whose methods all exist. */
  function Settled(db: Db, user: string, history: seq<Entry>): (n: nat)
    ensures n <= |history|
    ensures forall i :: 0 <= i < n ==> MethodOf(db, user, history[i].pay).Ok?
    ensures n < |history| ==> MethodOf(db, user, history[n].pay).Err?
  {
    if history == [] || MethodOf(db, user, history[0].pay).Err? then 0
    else 1 + Settled(db, user, history[1..])
  }

  function Cancelled(db: Db, id: string, reason: string): (Db, Outcome) {
    if id !in db.orders then (db, Refused(OrderNotFound))
    else
      var o := db.orders[id];
      if o.status != "pending" then (db, Refused(NotPending))
      else if reason !in REASONS then (db, Refused(InvalidReason))
      else
        var n := Settled(db, o.user, o.history);
        var credited := Credit(db, o.user, o.history[..n]);
        if n < |o.history| then (credited, Refused(MethodOf(db, o.user, o.history[n].pay).error))
        else (Put(credited, id, o.(status := "cancelled", cancelReason := Some(reason), history := o.history + Refunds(o.history))), Done)
  }

  function OrderReaddressed(db: Db, id: string, address: Address): (Db, Outcome) {
    if id !in db.orders then (db, Refused(OrderNotFound))
    else if !IsPending(db.orders[id].status) then (db, Refused(NotPending))
    else (Put(db, id, db.orders[id].(address := address)), Done)
  }

  function UserReaddressed(db: Db, id: string, address: Address): (Db, Outcome) {
    if id !in db.users then (db, Refused(UserNotFound))
    else (db.(users := db.users[id := db.users[id].(address := address)]), Done)
  }

  function Abs(x: int): int {
    if x < 0 then -x else x
  }

  /** The quote, once the number of items is checked. */
  function Swaps(db: Db, o: Order, ids: seq<string>, newIds: seq<string>, differ: bool): (q: Result<Quoted, Error>)
    ensures q.Ok? ==> |ids| == |newIds| == |q.value.variants|
  {
    if !Holds(o.items, ids) then Err(ItemNotFound)
    else if |ids| != |newIds| then Err(LengthsDiffer)
    else Quote(db, o.items, ids, newIds, differ, |ids|)
  }

  function Affordable(db: Db, user: string, pay: string, amount: int): Result<Method, Error> {
    match MethodOf(db, user, pay)
    case Err(e) => Err(e)
    case Ok(pm) => if pm.GiftCard? && pm.balance < amount then Err(LowBalance) else Ok(pm)
  }

  function ItemsModified(db: Db, id: string, ids: seq<string>, newIds: seq<string>, pay: string): (Db, Outcome) {
    if id !in db.orders then (db, Refused(OrderNotFound))
    else
      var o := db.orders[id];
      if o.status != "pending" then (db, Refused(NotPending))
      else
        var q := Swaps(db, o, ids, newIds, true);
        if q.Err? then (db, Refused(q.error))
        else
          var diff := q.value.difference;
          var pm := Affordable(db, o.user, pay, diff);
          if pm.Err? then (db, Refused(pm.error))
          else
            var entry := Entry(if diff > 0 then Payment else Refund, Abs(diff), pay);
            var items := Swap(o.items, ids, newIds, q.value.variants, |ids|);
            (Put(Charge(db, o.user, pay, diff), id, o.(items := items, history := o.history + [entry], status := MODIFIED)), Done)
  }

  /** The one payment to be changed, when every check before the first change passes. */
  function PaymentToMove(db: Db, id: string, pay: string): (e: Result<Entry, Error>)
    ensures e.Ok? ==> id in db.orders && db.orders[id].history == [e.value] && e.value.kind.Payment?
    ensures e.Ok? ==> pay != e.value.pay && MethodOf(db, db.orders[id].user, pay).Ok?
  {
    if id !in db.orders then Err(OrderNotFound)
    else
      var o := db.orders[id];
      if !IsPending(o.status) then Err(NotPending)
      else if MethodOf(db, o.user, pay).Err? then Err(MethodOf(db, o.user, pay).error)
      else if |o.history| != 1 || o.history[0].kind != Payment then Err(NotOnePayment)
      else if o.history[0].pay == pay then Err(SameMethod)
      else if Affordable(db, o.user, pay, o.history[0].amount).Err? then Err(LowBalance)
      else Ok(o.history[0])
  }

  function PaymentModified(db: Db, id: string, pay: string): (Db, Outcome) {
    match PaymentToMove(db, id, pay)
    case Err(e) => (db, Refused(e))
    case Ok(e) =>
      var o := db.orders[id];
      var pushed := Put(db, id, o.(history := o.history + [Entry(Payment, e.amount, pay), Entry(Refund, e.amount, e.pay)]));
      var charged := Charge(pushed, o.user, pay, e.amount);
      if MethodOf(charged, o.user, e.pay).Err? then (charged, Refused(MethodOf(charged, o.user, e.pay).error))
      else (Charge(charged, o.user, e.pay, -e.amount), Done)
  }

  function Returned(db: Db, id: string, ids: seq<string>, pay: string): (Db, Outcome) {
    if id !in db.orders then (db, Refused(OrderNotFound))
    else
      var o := db.orders[id];
      var pm := MethodOf(db, o.user, pay);
      if o.status != "delivered" then (db, Refused(NotDelivered))
      else if pm.Err? then (db, Refused(pm.error))
      else if !pm.value.GiftCard? && o.history == [] then (db, Refused(NoFirstPayment))
      else if !pm.value.GiftCard? && pay != o.history[0].pay then (db, Refused(NotOriginalMethod))
      else if !Holds(o.items, ids) then (db, Refused(ItemNotFound))
      else (Put(db, id, o.(status := "return requested", returning := Some(Returning(multiset(ids), pay)))), Done)
  }

  function Exchanged(db: Db, id: string, ids: seq<string>, newIds: seq<string>, pay: string): (Db, Outcome) {
    if id !in db.orders then (db, Refused(OrderNotFound))
    else
      var o := db.orders[id];
      if o.status != "delivered" then (db, Refused(NotDelivered))
      else
        var q := Swaps(db, o, ids, newIds, false);
        if q.Err? then (db, Refused(q.error))
        else
          var pm := Affordable(db, o.user, pay, q.value.difference);
          if pm.Err? then (db, Refused(pm.error))
          else
            var wanted := Exchanging(multiset(ids), multiset(newIds), pay, q.value.difference);
            (Put(db, id, o.(status := "exchange requested", exchanging := Some(wanted))), Done)
  }

  /** One action: the database it leaves, also when it is refused part-way, and its answer. */
  function Applied(db: Db, a: Action): (Db, Outcome) {
    match a
    case Cancel(id, reason) => Cancelled(db, id, reason)
    case OrderAddress(id, address) => OrderReaddressed(db, id, address)
    case UserAddress(id, address) => UserReaddressed(db, id, address)
    case ModifyItems(id, ids, newIds, pay) => ItemsModified(db, id, ids, newIds, pay)
    case ModifyPayment(id, pay) => PaymentModified(db, id, pay)
    case Return(id, ids, pay) => Returned(db, id, ids, pay)
    case Exchange(id, ids, newIds, pay) => Exchanged(db, id, ids, newIds, pay)
    case Read(answered) => (db, if answered then Done else Refused(ReadFailed))
  }

  predicate IsWrite(a: Action) {
    !a.Read?
  }

  function Run(db: Db, actions: seq<Action>): Db {
    if actions == [] then db else Applied(Run(db, actions[..|actions| - 1]), actions[|actions| - 1]).0
  }
}
