/** What holds of the retail database over every action and every run of actions. */
module RetailLaws {
  import opened Wrappers
  import opened Retail

  // ----- Balances and ledgers -----

  predicate IsCard(db: Db, user: string, id: string) {
    MethodOf(db, user, id).Ok? && MethodOf(db, user, id).value.GiftCard?
  }

  function Balance(db: Db, user: string, id: string): int {
    if IsCard(db, user, id) then MethodOf(db, user, id).value.balance else 0
  }

  /** All amounts of a history that name a method, payments and refunds alike. */
  function Named(history: seq<Entry>, id: string): int {
    if history == [] then 0
    else
      var e := history[|history| - 1];
      Named(history[..|history| - 1], id) + if e.pay == id then e.amount else 0
  }

  /** What a history has taken from a method: its payments less its refunds. */
  function Net(history: seq<Entry>, id: string): int {
    if history == [] then 0
    else
      var e := history[|history| - 1];
      Net(history[..|history| - 1], id) + if e.pay != id then 0 else if e.kind.Payment? then e.amount else -e.amount
  }

  function Taken(o: Order, user: string, id: string): int {
    if o.user == user then Net(o.history, id) else 0
  }

  /** What the listed orders have taken from one method of one user. */
  function TakenByAll(orders: map<string, Order>, ids: seq<string>, user: string, id: string): int
    requires forall k :: k in ids ==> k in orders
  {
    if ids == [] then 0 else Taken(orders[ids[0]], user, id) + TakenByAll(orders, ids[1..], user, id)
  }

  predicate Distinct(ids: seq<string>) {
    forall i, j :: 0 <= i < j < |ids| ==> ids[i] != ids[j]
  }

  /** Every order once. */
  ghost predicate Lists(ids: seq<string>, db: Db) {
    Distinct(ids) && (forall k :: k in ids <==> k in db.orders)
  }

  /** The same orders of the same users, and the same payment methods of the same kind. */
  ghost predicate SameShape(a: Db, b: Db) {
    && a.products == b.products && a.orders.Keys == b.orders.Keys && a.users.Keys == b.users.Keys
    && (forall k :: k in a.orders ==> a.orders[k].user == b.orders[k].user)
    && (forall u, g :: MethodOf(a, u, g).Ok? == MethodOf(b, u, g).Ok?)
    && (forall u, g :: IsCard(a, u, g) == IsCard(b, u, g))
  }

  lemma ChargeMoves(db: Db, user: string, id: string, amount: int)
    ensures var after := Charge(db, user, id, amount);
            SameShape(db, after) && after.orders == db.orders
            && forall u, g :: Balance(after, u, g) ==
                 Balance(db, u, g) - if IsCard(db, u, g) && u == user && g == id then amount else 0
  {
  }

  lemma {:induction false} CreditMoves(db: Db, user: string, history: seq<Entry>)
    ensures var after := Credit(db, user, history);
            SameShape(db, after) && after.orders == db.orders
            && forall u, g :: Balance(after, u, g) ==
                 Balance(db, u, g) + if IsCard(db, u, g) && u == user then Named(history, g) else 0
  {
    if history != [] {
      var n := |history| - 1;
      var e := history[n];
      CreditMoves(db, user, history[..n]);
      ChargeMoves(Credit(db, user, history[..n]), user, e.pay, -e.amount);
    }
  }

  lemma {:induction false} NetOfBoth(a: seq<Entry>, b: seq<Entry>, id: string)
    ensures Net(a + b, id) == Net(a, id) + Net(b, id)
  {
    if b == [] {
      assert a + b == a;
    } else {
      var n := |b| - 1;
      assert (a + b)[..|a + b| - 1] == a + b[..n];
      NetOfBoth(a, b[..n], id);
    }
  }

  lemma {:induction false} NetOfRefunds(history: seq<Entry>, id: string)
    ensures Net(Refunds(history), id) == -Named(history, id)
  {
    if history != [] {
      var n := |history| - 1;
      assert Refunds(history)[..n] == Refunds(history[..n]);
      NetOfRefunds(history[..n], id);
    }
  }

  function Signed(e: Entry, id: string): int {
    if e.pay != id then 0 else if e.kind.Payment? then e.amount else -e.amount
  }

  lemma NetOfOne(e: Entry, id: string)
    ensures Net([e], id) == Signed(e, id)
    ensures Named([e], id) == if e.pay == id then e.amount else 0
  {
    assert [e][..0] == [];
  }

  lemma {:induction false} TakenAfterPut(orders: map<string, Order>, ids: seq<string>, k: string, o: Order, user: string, id: string)
    requires Distinct(ids) && forall j :: j in ids ==> j in orders
    requires k in orders
    ensures TakenByAll(orders[k := o], ids, user, id) == TakenByAll(orders, ids, user, id)
      + if k in ids then Taken(o, user, id) - Taken(orders[k], user, id) else 0
  {
    if ids != [] {
      assert forall i, j :: 0 <= i < j < |ids[1..]| ==> ids[1..][i] == ids[i + 1] && ids[1..][j] == ids[j + 1];
      TakenAfterPut(orders, ids[1..], k, o, user, id);
      assert k in ids <==> k == ids[0] || k in ids[1..];
    }
  }

  // ----- Soundness, and what a refused action leaves -----

  predicate AllKnown(db: Db, user: string, history: seq<Entry>) {
    forall i :: 0 <= i < |history| ==> MethodOf(db, user, history[i].pay).Ok?
  }

  /** Every payment in a history names a method its order's user has. */
  predicate Sound(db: Db) {
    forall k :: k in db.orders ==> AllKnown(db, db.orders[k].user, db.orders[k].history)
  }

  lemma {:induction false} CreditUndone(db: Db, user: string, history: seq<Entry>)
    requires forall g :: IsCard(db, user, g) ==> Named(history, g) == 0
    ensures Credit(db, user, history) == db
  {
    var after := Credit(db, user, history);
    CreditMoves(db, user, history);
    CreditSettlesElsewhere(db, user, history);
    forall u | u in db.users ensures after.users[u] == db.users[u] {
      forall g | g in db.users[u].methods ensures after.users[u].methods[g] == db.users[u].methods[g] {
        assert Balance(after, u, g) == Balance(db, u, g);
        assert IsCard(after, u, g) == IsCard(db, u, g);
      }
    }
    assert after.users == db.users;
  }

  /** Giving money back changes gift cards alone. */
  lemma {:induction false} CreditSettlesElsewhere(db: Db, user: string, history: seq<Entry>)
    ensures var after := Credit(db, user, history);
            after.users.Keys == db.users.Keys
            && forall u :: u in db.users ==>
              after.users[u].address == db.users[u].address && after.users[u].methods.Keys == db.users[u].methods.Keys
              && forall g :: g in db.users[u].methods && !IsCard(db, u, g) ==> after.users[u].methods[g] == db.users[u].methods[g]
  {
    if history != [] {
      CreditSettlesElsewhere(db, user, history[..|history| - 1]);
      CreditMoves(db, user, history[..|history| - 1]);
    }
  }

  /** Cancelling passes its checks, credits some card, and then meets a payment whose method is gone. */
  ghost predicate CancelStopsHalfWay(db: Db, id: string, reason: string) {
    && id in db.orders && db.orders[id].status == "pending" && reason in REASONS
    && var o := db.orders[id];
       var n := Settled(db, o.user, o.history);
       n < |o.history| && exists g :: IsCard(db, o.user, g) && Named(o.history[..n], g) != 0
  }

  /** Changing the payment passes its checks, but the method it is changed from is gone. */
  predicate PaymentStopsHalfWay(db: Db, id: string, pay: string) {
    && PaymentToMove(db, id, pay).Ok?
    && MethodOf(db, db.orders[id].user, PaymentToMove(db, id, pay).value.pay).Err?
  }

  ghost predicate StopsHalfWay(db: Db, a: Action) {
    (a.Cancel? && CancelStopsHalfWay(db, a.order, a.reason)) || (a.ModifyPayment? && PaymentStopsHalfWay(db, a.order, a.pay))
  }

  lemma CancelRefusedExactly(db: Db, id: string, reason: string)
    ensures var (after, out) := Cancelled(db, id, reason); out.Refused? && after != db <==> CancelStopsHalfWay(db, id, reason)
  {
    if id in db.orders && db.orders[id].status == "pending" && reason in REASONS {
      var o := db.orders[id];
      var settled := o.history[..Settled(db, o.user, o.history)];
      CreditMoves(db, o.user, settled);
      if forall g :: IsCard(db, o.user, g) ==> Named(settled, g) == 0 {
        CreditUndone(db, o.user, settled);
      } else {
        var g :| IsCard(db, o.user, g) && Named(settled, g) != 0;
        assert Balance(Credit(db, o.user, settled), o.user, g) != Balance(db, o.user, g);
      }
    }
  }

  lemma PaymentRefusedExactly(db: Db, id: string, pay: string)
    ensures var (after, out) := PaymentModified(db, id, pay); out.Refused? && after != db <==> PaymentStopsHalfWay(db, id, pay)
  {
    if PaymentToMove(db, id, pay).Ok? {
      var e := PaymentToMove(db, id, pay).value;
      var o := db.orders[id];
      var pushed := Put(db, id, o.(history := o.history + [Entry(Payment, e.amount, pay), Entry(Refund, e.amount, e.pay)]));
      assert |pushed.orders[id].history| == 3;
      ChargeMoves(pushed, o.user, pay, e.amount);
      assert MethodOf(pushed, o.user, e.pay) == MethodOf(db, o.user, e.pay);
    }
  }

  /** A refused action has changed the database exactly when it stopped half-way. */
  lemma RefusedButChangedExactlyWhen(db: Db, a: Action)
    ensures var (after, out) := Applied(db, a); out.Refused? && after != db <==> StopsHalfWay(db, a)
  {
    match a
    case Cancel(id, reason) => CancelRefusedExactly(db, id, reason);
    case ModifyPayment(id, pay) => PaymentRefusedExactly(db, id, pay);
    case _ =>
  }

  lemma RefusedChangesNothing(db: Db, a: Action)
    requires Sound(db) && Applied(db, a).1.Refused?
    ensures Applied(db, a).0 == db
  {
    RefusedButChangedExactlyWhen(db, a);
    if a.Cancel? && a.order in db.orders {
      var o := db.orders[a.order];
      assert AllKnown(db, o.user, o.history);
    }
    if a.ModifyPayment? && a.order in db.orders {
      var o := db.orders[a.order];
      assert AllKnown(db, o.user, o.history);
    }
  }

  /** A card is credited 500 by a cancellation that is then refused for the next payment's missing method. */
  lemma CancelCanStopHalfWay()
    ensures exists db: Db, a: Action :: Applied(db, a).1 == Refused(MethodNotFound) && Balance(Applied(db, a).0, "u", "card") == Balance(db, "u", "card") + 500
  {
    var home := Address("", "", "", "", "", "");
    var history := [Entry(Payment, 500, "card"), Entry(Payment, 300, "gone")];
    var o := Order("u", "pending", [], history, home, None, None, None);
    var db := Db(map["o" := o], map["u" := User(map["card" := GiftCard(1000)], home)], map[]);
    assert REASONS[0] in REASONS;
    var a := Cancel("o", REASONS[0]);
    assert MethodOf(db, "u", history[0].pay).Ok? && MethodOf(db, "u", history[1].pay) == Err(MethodNotFound);
    assert Settled(db, "u", history) == 1;
    assert history[..1] == [history[0]] && history[..1][..0] == [];
    CreditMoves(db, "u", history[..1]);
    assert Named(history[..1], "card") == 500;
    assert Applied(db, a) == (Credit(db, "u", history[..1]), Refused(MethodNotFound));
  }

  // ----- Each action, one law: shape, ledger, soundness -----

  /** The ledger of every gift card: its balance and all that orders have taken from it. */
  ghost predicate SameLedgers(a: Db, b: Db, ids: seq<string>) {
    && Lists(ids, a) && Lists(ids, b)
    && forall u, g :: IsCard(a, u, g) ==>
         Balance(a, u, g) + TakenByAll(a.orders, ids, u, g) == Balance(b, u, g) + TakenByAll(b.orders, ids, u, g)
  }

  ghost predicate Keeps(a: Db, b: Db, ids: seq<string>) {
    SameShape(a, b) && SameLedgers(a, b, ids)
  }

  /** Money was moved on one user's cards, each losing what the entries say was taken from it. */
  ghost predicate Moved(db: Db, paid: Db, user: string, more: seq<Entry>) {
    && paid.orders == db.orders && SameShape(db, paid)
    && forall u, g :: IsCard(db, u, g) ==> Balance(db, u, g) - Balance(paid, u, g) == if u == user then Net(more, g) else 0
  }

  /** Writing entries into an order, after money was moved, keeps the ledgers if they say what each card lost. */
  lemma PutKeepsLedgers(db: Db, paid: Db, k: string, o: Order, more: seq<Entry>, ids: seq<string>)
    requires Lists(ids, db) && k in db.orders && Moved(db, paid, o.user, more)
    requires o.user == db.orders[k].user && o.history == db.orders[k].history + more
    ensures Keeps(db, Put(paid, k, o), ids)
  {
    var after := Put(paid, k, o);
    forall u, g ensures MethodOf(after, u, g) == MethodOf(paid, u, g) {
    }
    forall u, g | IsCard(db, u, g)
      ensures Balance(db, u, g) + TakenByAll(db.orders, ids, u, g) == Balance(after, u, g) + TakenByAll(after.orders, ids, u, g)
    {
      TakenAfterPut(db.orders, ids, k, o, u, g);
      NetOfBoth(db.orders[k].history, more, g);
    }
  }

  lemma SamePlaceSameLedgers(db: Db, k: string, o: Order, ids: seq<string>)
    requires Lists(ids, db) && k in db.orders && o.user == db.orders[k].user && o.history == db.orders[k].history
    ensures Keeps(db, Put(db, k, o), ids)
  {
    assert o.history == db.orders[k].history + [];
    PutKeepsLedgers(db, db, k, o, [], ids);
  }

  lemma CancelKeepsLedgers(db: Db, id: string, reason: string, ids: seq<string>)
    requires Lists(ids, db) && Cancelled(db, id, reason).1.Done?
    ensures Keeps(db, Cancelled(db, id, reason).0, ids)
  {
    var o := db.orders[id];
    assert o.history[..|o.history|] == o.history;
    var paid := Credit(db, o.user, o.history);
    var next := o.(status := "cancelled", cancelReason := Some(reason), history := o.history + Refunds(o.history));
    CreditMoves(db, o.user, o.history);
    forall g ensures Net(Refunds(o.history), g) == -Named(o.history, g) {
      NetOfRefunds(o.history, g);
    }
    PutKeepsLedgers(db, paid, id, next, Refunds(o.history), ids);
  }

  /** Recording one entry and charging its method for it. */
  function Recorded(db: Db, k: string, o: Order, e: Entry): Db {
    Put(Charge(db, o.user, e.pay, if e.kind.Payment? then e.amount else -e.amount), k, o)
  }

  lemma RecordingKeepsLedgers(db: Db, k: string, o: Order, e: Entry, ids: seq<string>)
    requires Lists(ids, db) && k in db.orders
    requires o.user == db.orders[k].user && o.history == db.orders[k].history + [e]
    ensures Keeps(db, Recorded(db, k, o, e), ids)
  {
    var amount := if e.kind.Payment? then e.amount else -e.amount;
    var paid := Charge(db, o.user, e.pay, amount);
    ChargeMoves(db, o.user, e.pay, amount);
    forall g ensures Net([e], g) == Signed(e, g) {
      NetOfOne(e, g);
    }
    PutKeepsLedgers(db, paid, k, o, [e], ids);
  }

  lemma KeepsBoth(a: Db, b: Db, c: Db, ids: seq<string>)
    requires Keeps(a, b, ids) && Keeps(b, c, ids)
    ensures Keeps(a, c, ids)
  {
  }

  lemma ItemsKeepLedgers(db: Db, id: string, ids: seq<string>, newIds: seq<string>, pay: string, all: seq<string>)
    requires Lists(all, db) && ItemsModified(db, id, ids, newIds, pay).1.Done?
    ensures Keeps(db, ItemsModified(db, id, ids, newIds, pay).0, all)
  {
    var o := db.orders[id];
    var q := Swaps(db, o, ids, newIds, true).value;
    var entry := Entry(if q.difference > 0 then Payment else Refund, Abs(q.difference), pay);
    var next := o.(items := Swap(o.items, ids, newIds, q.variants, |ids|), history := o.history + [entry], status := MODIFIED);
    RecordingKeepsLedgers(db, id, next, entry, all);
  }

  /** Charging a method does not look at the orders. */
  lemma ChargeThenPut(db: Db, k: string, o: Order, user: string, id: string, amount: int)
    ensures Charge(Put(db, k, o), user, id, amount) == Put(Charge(db, user, id, amount), k, o)
  {
    assert MethodOf(Put(db, k, o), user, id) == MethodOf(db, user, id);
  }

  lemma PutTwice(db: Db, k: string, o: Order, next: Order)
    ensures Put(Put(db, k, o), k, next) == Put(db, k, next)
  {
  }

  /** Moving a payment is recording the new payment and then the refund of the old one. */
  lemma PaymentIsMoved(db: Db, id: string, pay: string)
    requires PaymentModified(db, id, pay).1.Done?
    ensures PaymentToMove(db, id, pay).Ok?
    ensures var e, o := PaymentToMove(db, id, pay).value, db.orders[id];
            var first, second := Entry(Payment, e.amount, pay), Entry(Refund, e.amount, e.pay);
            var half := o.(history := o.history + [first]);
            PaymentModified(db, id, pay).0
              == Recorded(Recorded(db, id, half, first), id, half.(history := half.history + [second]), second)
  {
    var e := PaymentToMove(db, id, pay).value;
    var o := db.orders[id];
    var first, second := Entry(Payment, e.amount, pay), Entry(Refund, e.amount, e.pay);
    var half := o.(history := o.history + [first]);
    var next := o.(history := o.history + [first, second]);
    assert half.(history := half.history + [second]) == next;
    var charged := Charge(db, o.user, pay, e.amount);
    ChargeThenPut(db, id, next, o.user, pay, e.amount);
    ChargeThenPut(charged, id, next, o.user, e.pay, -e.amount);
    ChargeThenPut(charged, id, half, o.user, e.pay, -e.amount);
    PutTwice(Charge(charged, o.user, e.pay, -e.amount), id, half, next);
  }

  lemma TwoRecordingsKeepLedgers(db: Db, k: string, first: Entry, second: Entry, ids: seq<string>)
    requires Lists(ids, db) && k in db.orders
    ensures var o := db.orders[k];
            var half := o.(history := o.history + [first]);
            Keeps(db, Recorded(Recorded(db, k, half, first), k, half.(history := half.history + [second]), second), ids)
  {
    var o := db.orders[k];
    var half := o.(history := o.history + [first]);
    var next := half.(history := half.history + [second]);
    RecordingKeepsLedgers(db, k, half, first, ids);
    var mid := Recorded(db, k, half, first);
    RecordingKeepsLedgers(mid, k, next, second, ids);
    KeepsBoth(db, mid, Recorded(mid, k, next, second), ids);
  }

  lemma PaymentKeepsLedgers(db: Db, id: string, pay: string, ids: seq<string>)
    requires Lists(ids, db) && PaymentModified(db, id, pay).1.Done?
    ensures Keeps(db, PaymentModified(db, id, pay).0, ids)
  {
    PaymentIsMoved(db, id, pay);
    var e := PaymentToMove(db, id, pay).value;
    TwoRecordingsKeepLedgers(db, id, Entry(Payment, e.amount, pay), Entry(Refund, e.amount, e.pay), ids);
  }

  lemma AddressKeepsLedgers(db: Db, user: string, address: Address, ids: seq<string>)
    requires Lists(ids, db) && user in db.users
    ensures Keeps(db, UserReaddressed(db, user, address).0, ids)
  {
    var after := UserReaddressed(db, user, address).0;
    forall u, g ensures MethodOf(after, u, g) == MethodOf(db, u, g) {
    }
    assert after.orders == db.orders;
  }

  /**
   * Conservation: an accepted action moves money between gift cards and the orders' histories and makes none.
   * A refused one, from a sound database, changes nothing at all.
   */
  lemma LedgersKept(db: Db, a: Action, ids: seq<string>)
    requires Lists(ids, db)
    requires Sound(db) || Applied(db, a).1.Done?
    ensures Keeps(db, Applied(db, a).0, ids)
  {
    if Applied(db, a).1.Refused? {
      RefusedChangesNothing(db, a);
    } else {
      match a
      case Cancel(id, reason) => CancelKeepsLedgers(db, id, reason, ids);
      case ModifyItems(id, old_, new_, pay) => ItemsKeepLedgers(db, id, old_, new_, pay, ids);
      case ModifyPayment(id, pay) => PaymentKeepsLedgers(db, id, pay, ids);
      case UserAddress(u, address) => AddressKeepsLedgers(db, u, address, ids);
      case Read(_) =>
      case OrderAddress(id, _) => SamePlaceSameLedgers(db, id, Applied(db, a).0.orders[id], ids);
      case Return(id, _, _) => SamePlaceSameLedgers(db, id, Applied(db, a).0.orders[id], ids);
      case Exchange(id, _, _, _) => SamePlaceSameLedgers(db, id, Applied(db, a).0.orders[id], ids);
    }
  }

  // ----- Histories only grow, by entries of methods that exist -----

  predicate Begins(a: seq<Entry>, b: seq<Entry>) {
    |a| <= |b| && b[..|a|] == a
  }

  lemma OthersUntouched(db: Db, a: Action, k: string)
    requires k in db.orders
    requires a.UserAddress? || a.Read? || a.order != k
    ensures k in Applied(db, a).0.orders && Applied(db, a).0.orders[k] == db.orders[k]
  {
    if a.Cancel? && a.order in db.orders {
      var o := db.orders[a.order];
      CreditMoves(db, o.user, o.history[..Settled(db, o.user, o.history)]);
    }
  }

  /** What one action can do to the order it names. */
  lemma OrderChange(db: Db, a: Action, k: string)
    requires k in db.orders
    ensures k in Applied(db, a).0.orders
    ensures var o, after := db.orders[k], Applied(db, a).0.orders[k];
            && Begins(o.history, after.history) && after.user == o.user
            && (o.status != "pending" ==> after.items == o.items)
            && (after.status == o.status
                || (o.status == "pending" && after.status in ["cancelled", MODIFIED])
                || (o.status == "delivered" && after.status in ["return requested", "exchange requested"]))
  {
    if a.UserAddress? || a.Read? || a.order != k {
      OthersUntouched(db, a, k);
    } else if a.Cancel? {
      var o := db.orders[k];
      CreditMoves(db, o.user, o.history[..Settled(db, o.user, o.history)]);
    }
  }

  lemma NewEntriesAreKnown(db: Db, a: Action, k: string)
    requires Sound(db) && k in db.orders && Applied(db, a).1.Done?
    ensures k in Applied(db, a).0.orders && AllKnown(db, Applied(db, a).0.orders[k].user, Applied(db, a).0.orders[k].history)
  {
    var o := db.orders[k];
    assert AllKnown(db, o.user, o.history);
    OrderChange(db, a, k);
    if a.UserAddress? || a.Read? || a.order != k {
      OthersUntouched(db, a, k);
    } else if a.Cancel? {
      CreditMoves(db, o.user, o.history[..Settled(db, o.user, o.history)]);
    }
  }

  /** From a sound database, every action leaves a sound one. */
  lemma SoundKept(db: Db, a: Action, ids: seq<string>)
    requires Sound(db) && Lists(ids, db)
    ensures Sound(Applied(db, a).0)
  {
    var after := Applied(db, a).0;
    if Applied(db, a).1.Refused? {
      RefusedChangesNothing(db, a);
    } else {
      LedgersKept(db, a, ids);
      forall k | k in after.orders ensures AllKnown(after, after.orders[k].user, after.orders[k].history) {
        NewEntriesAreKnown(db, a, k);
      }
    }
  }

  // ----- Whole runs -----

  lemma {:induction false} RunKeeps(db: Db, actions: seq<Action>, ids: seq<string>)
    requires Sound(db) && Lists(ids, db)
    ensures Sound(Run(db, actions)) && Keeps(db, Run(db, actions), ids)
  {
    if actions != [] {
      var n := |actions| - 1;
      RunKeeps(db, actions[..n], ids);
      SoundKept(Run(db, actions[..n]), actions[n], ids);
      LedgersKept(Run(db, actions[..n]), actions[n], ids);
    }
  }

  predicate NoDebt(history: seq<Entry>) {
    forall i :: 0 <= i < |history| ==> history[i].amount >= 0
  }

  /** No gift card is below zero and no recorded amount is negative. */
  ghost predicate Solvent(db: Db) {
    && (forall u, g :: Balance(db, u, g) >= 0)
    && (forall k :: k in db.orders ==> NoDebt(db.orders[k].history))
  }

  lemma {:induction false} NamedIsNotNegative(history: seq<Entry>, id: string)
    requires NoDebt(history)
    ensures Named(history, id) >= 0
  {
    if history != [] {
      NamedIsNotNegative(history[..|history| - 1], id);
    }
  }

  lemma CancelSolvent(db: Db, id: string, reason: string)
    requires Solvent(db)
    ensures Solvent(Cancelled(db, id, reason).0)
  {
    if id in db.orders && db.orders[id].status == "pending" && reason in REASONS {
      var o := db.orders[id];
      var settled := o.history[..Settled(db, o.user, o.history)];
      assert NoDebt(o.history);
      CreditMoves(db, o.user, settled);
      var paid := Credit(db, o.user, settled);
      forall u, g ensures Balance(paid, u, g) >= 0 && Balance(Cancelled(db, id, reason).0, u, g) == Balance(paid, u, g) {
        NamedIsNotNegative(settled, g);
      }
    }
  }

  lemma PutSolvent(db: Db, k: string, o: Order)
    requires Solvent(db) && NoDebt(o.history)
    ensures Solvent(Put(db, k, o))
  {
    forall u, g ensures Balance(Put(db, k, o), u, g) == Balance(db, u, g) {
    }
  }

  lemma ChargeSolvent(db: Db, user: string, id: string, amount: int)
    requires Solvent(db) && (IsCard(db, user, id) ==> amount <= Balance(db, user, id))
    ensures Solvent(Charge(db, user, id, amount))
  {
    ChargeMoves(db, user, id, amount);
  }

  lemma PaymentSolvent(db: Db, id: string, pay: string)
    requires Solvent(db)
    ensures Solvent(PaymentModified(db, id, pay).0)
  {
    if PaymentToMove(db, id, pay).Ok? {
      var e := PaymentToMove(db, id, pay).value;
      var o := db.orders[id];
      assert NoDebt(o.history) && o.history[0] == e;
      var next := o.(history := o.history + [Entry(Payment, e.amount, pay), Entry(Refund, e.amount, e.pay)]);
      PutSolvent(db, id, next);
      var pushed := Put(db, id, next);
      assert MethodOf(pushed, o.user, pay) == MethodOf(db, o.user, pay);
      ChargeSolvent(pushed, o.user, pay, e.amount);
      var charged := Charge(pushed, o.user, pay, e.amount);
      assert IsCard(charged, o.user, e.pay) ==> -e.amount <= Balance(charged, o.user, e.pay);
      ChargeSolvent(charged, o.user, e.pay, -e.amount);
    }
  }

  /** No action, accepted or refused, takes a gift card below zero. */
  lemma SolventKept(db: Db, a: Action)
    requires Solvent(db)
    ensures Solvent(Applied(db, a).0)
  {
    match a
    case Cancel(id, reason) => CancelSolvent(db, id, reason);
    case ModifyPayment(id, pay) => PaymentSolvent(db, id, pay);
    case ModifyItems(id, ids, newIds, pay) =>
      if Applied(db, a).1.Done? {
        var o := db.orders[id];
        assert NoDebt(o.history);
        var q := Swaps(db, o, ids, newIds, true).value;
        ChargeSolvent(db, o.user, pay, q.difference);
        PutSolvent(Charge(db, o.user, pay, q.difference), id, Applied(db, a).0.orders[id]);
      }
    case UserAddress(_, _) =>
      forall u, g ensures Balance(Applied(db, a).0, u, g) == Balance(db, u, g) {
      }
    case Read(_) =>
    case _ =>
      if Applied(db, a).1.Done? {
        assert NoDebt(db.orders[a.order].history);
        PutSolvent(db, a.order, Applied(db, a).0.orders[a.order]);
      }
  }

  lemma {:induction false} RunSolvent(db: Db, actions: seq<Action>)
    requires Solvent(db)
    ensures Solvent(Run(db, actions))
  {
    if actions != [] {
      RunSolvent(db, actions[..|actions| - 1]);
      SolventKept(Run(db, actions[..|actions| - 1]), actions[|actions| - 1]);
    }
  }

  const FINAL := ["cancelled", "return requested", "exchange requested"]

  lemma FinalIsNotPending(status: string)
    requires status in FINAL
    ensures !IsPending(status)
  {
    forall i | 0 <= i < |status| ensures !PendingAt(status, i) {
      if i + 7 <= |status| {
        assert status[i..i + 7][0] == status[i];
      }
    }
  }

  /** A cancelled order, or one with a return or an exchange requested, never changes again. */
  lemma FinalStays(db: Db, a: Action, k: string)
    requires k in db.orders && db.orders[k].status in FINAL
    ensures k in Applied(db, a).0.orders && Applied(db, a).0.orders[k] == db.orders[k]
  {
    FinalIsNotPending(db.orders[k].status);
    if a.UserAddress? || a.Read? || a.order != k {
      OthersUntouched(db, a, k);
    }
  }

  /** The order `k` as a run has it before its action number `i`. */
  function At(db: Db, actions: seq<Action>, i: nat): Db
    requires i <= |actions|
  {
    Run(db, actions[..i])
  }

  lemma AtNext(db: Db, actions: seq<Action>, i: nat)
    requires i < |actions|
    ensures At(db, actions, i + 1) == Applied(At(db, actions, i), actions[i]).0
  {
    assert actions[..i + 1][..i] == actions[..i];
  }

  lemma {:induction false} RunFinal(db: Db, actions: seq<Action>, i: nat, j: nat, k: string)
    requires i <= j <= |actions| && k in At(db, actions, i).orders && At(db, actions, i).orders[k].status in FINAL
    ensures k in At(db, actions, j).orders && At(db, actions, j).orders[k] == At(db, actions, i).orders[k]
  {
    if i < j {
      RunFinal(db, actions, i, j - 1, k);
      AtNext(db, actions, j - 1);
      FinalStays(At(db, actions, j - 1), actions[j - 1], k);
    }
  }

  /** Once an order has left "pending" and "delivered", its status and its items stay, and its history only grows. */
  lemma {:induction false} RunSettles(db: Db, actions: seq<Action>, i: nat, j: nat, k: string)
    requires i <= j <= |actions| && k in At(db, actions, i).orders
    requires At(db, actions, i).orders[k].status !in ["pending", "delivered"]
    ensures k in At(db, actions, j).orders
    ensures var o, later := At(db, actions, i).orders[k], At(db, actions, j).orders[k];
            later.status == o.status && later.items == o.items && Begins(o.history, later.history)
  {
    if i < j {
      RunSettles(db, actions, i, j - 1, k);
      AtNext(db, actions, j - 1);
      OrderChange(At(db, actions, j - 1), actions[j - 1], k);
    }
  }

  /** Of the actions of a run, at most one modifies the items of a given order. */
  lemma ItemsModifiedOnce(db: Db, actions: seq<Action>, i: nat, j: nat)
    requires i < j < |actions| && actions[i].ModifyItems? && actions[j].ModifyItems? && actions[i].order == actions[j].order
    requires Applied(At(db, actions, i), actions[i]).1.Done?
    ensures Applied(At(db, actions, j), actions[j]).1 == Refused(NotPending)
  {
    AtNext(db, actions, i);
    RunSettles(db, actions, i + 1, j, actions[i].order);
  }

  lemma {:induction false} HistoryGrows(db: Db, actions: seq<Action>, i: nat, j: nat, k: string)
    requires i <= j <= |actions| && k in At(db, actions, i).orders
    ensures k in At(db, actions, j).orders
    ensures Begins(At(db, actions, i).orders[k].history, At(db, actions, j).orders[k].history)
  {
    if i < j {
      HistoryGrows(db, actions, i, j - 1, k);
      AtNext(db, actions, j - 1);
      OrderChange(At(db, actions, j - 1), actions[j - 1], k);
      var first, mid, last := At(db, actions, i).orders[k].history, At(db, actions, j - 1).orders[k].history, At(db, actions, j).orders[k].history;
      assert last[..|first|] == mid[..|first|];
    }
  }

  /** An items change the order's history did not begin before: what it charges is all there is to move. */
  predicate ItemsFirstCharged(db: Db, actions: seq<Action>, i: nat)
    requires i < |actions|
  {
    && actions[i].ModifyItems?
    && actions[i].order in At(db, actions, i).orders && At(db, actions, i).orders[actions[i].order].history == []
    && actions[i].order in At(db, actions, i + 1).orders
    && |At(db, actions, i + 1).orders[actions[i].order].history| == 1
    && At(db, actions, i + 1).orders[actions[i].order].history[0].kind.Payment?
  }

  /**
   * Nor does more than one change its payment method, and none does after its items were modified, unless the history
   * was empty till then and the change was charged for.
   */
  lemma PaymentModifiedOnce(db: Db, actions: seq<Action>, i: nat, j: nat)
    requires i < j < |actions| && (actions[i].ModifyPayment? || actions[i].ModifyItems?) && actions[j].ModifyPayment?
    requires actions[i].order == actions[j].order
    requires Applied(At(db, actions, i), actions[i]).1.Done?
    ensures Applied(At(db, actions, j), actions[j]).1.Refused? || ItemsFirstCharged(db, actions, i)
  {
    var k := actions[i].order;
    AtNext(db, actions, i);
    var s := At(db, actions, i);
    if actions[i].ModifyPayment? {
      ChargeMoves(Put(s, k, s.orders[k]), s.orders[k].user, actions[i].pay, s.orders[k].history[0].amount);
    }
    HistoryGrows(db, actions, i + 1, j, k);
  }

  lemma MethodStays(db: Db, user: string, id: string, amount: int, other: string)
    ensures MethodOf(Charge(db, user, id, amount), user, other).Ok? <==> MethodOf(db, user, other).Ok?
  {
  }

  /** And then it does exactly when the order's user has another method that can pay for it. */
  lemma PaymentAfterItemsExactlyWhen(db: Db, id: string, ids: seq<string>, newIds: seq<string>, pay: string, other: string)
    requires ItemsModified(db, id, ids, newIds, pay).1.Done?
    ensures var (after, o) := (ItemsModified(db, id, ids, newIds, pay).0, db.orders[id]);
            PaymentModified(after, id, other).1.Done? <==>
              o.history == [] && Swaps(db, o, ids, newIds, true).value.difference > 0 && other != pay
              && Affordable(after, o.user, other, Swaps(db, o, ids, newIds, true).value.difference).Ok?
  {
    var after, o, diff := ItemsModified(db, id, ids, newIds, pay).0, db.orders[id], Swaps(db, db.orders[id], ids, newIds, true).value.difference;
    var entry := Entry(if diff > 0 then Payment else Refund, Abs(diff), pay);
    assert after.orders[id].history == o.history + [entry];
    assert PendingAt(MODIFIED, 0);
    ChargeMoves(db, o.user, pay, diff);
    MethodStays(db, o.user, pay, diff, pay);
    MethodStays(after, o.user, other, diff, pay);
  }
}
