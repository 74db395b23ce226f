// What a cancellation gives back: what was taken, and every refund the order already held given once more, twice over.
module RetailCancel {
  import opened Wrappers
  import opened Retail
  import opened RetailLaws

  /** The refunds a history holds of one method. */
  function Back(history: seq<Entry>, id: string): int {
    if history == [] then 0
    else
      var e := history[|history| - 1];
      Back(history[..|history| - 1], id) + if e.pay == id && e.kind.Refund? then e.amount else 0
  }

  lemma {:induction false} NetIsNamedLessBack(history: seq<Entry>, id: string)
    ensures Net(history, id) == Named(history, id) - 2 * Back(history, id)
  {
    if history != [] { NetIsNamedLessBack(history[..|history| - 1], id); }
  }

  /** What a cancelled order has taken from a method: twice every refund it already held, given rather than taken. */
  lemma CancelledTakes(db: Db, id: string, reason: string, pay: string)
    requires Cancelled(db, id, reason).1.Done?
    ensures Net(Cancelled(db, id, reason).0.orders[id].history, pay) == -2 * Back(db.orders[id].history, pay)
  {
    var o := db.orders[id];
    NetOfBoth(o.history, Refunds(o.history), pay);
    NetOfRefunds(o.history, pay);
    NetIsNamedLessBack(o.history, pay);
  }

  /** An accepted cancellation gives a method back exactly what was taken from it when no refund of it was held before. */
  lemma CancelGivesBackExactlyWhen(db: Db, id: string, reason: string, pay: string)
    requires Cancelled(db, id, reason).1.Done?
    ensures Net(Cancelled(db, id, reason).0.orders[id].history, pay) == 0 <==> Back(db.orders[id].history, pay) == 0
  {
    CancelledTakes(db, id, reason, pay);
  }

  // ----- Over runs -----

  predicate NoRefunds(history: seq<Entry>) {
    forall i :: 0 <= i < |history| ==> history[i].kind.Payment?
  }

  /** No pending order holds a refund. */
  predicate PendingHoldNoRefund(db: Db) {
    forall k :: k in db.orders && db.orders[k].status == "pending" ==> NoRefunds(db.orders[k].history)
  }

  lemma {:induction false} NoneBack(history: seq<Entry>, id: string)
    requires NoRefunds(history)
    ensures Back(history, id) == 0
  {
    if history != [] { NoneBack(history[..|history| - 1], id); }
  }

  lemma BackOfMoved(first: Entry, pay: string, id: string)
    requires first.kind.Payment?
    ensures Back(MovedHistory(first, pay), id) == if first.pay == id then first.amount else 0
  {
    var second := Entry(Payment, first.amount, pay);
    assert MovedHistory(first, pay)[..2] == [first, second];
    NoneBack([first, second], id);
  }

  /** The history of an order whose one payment was moved to another method. */
  function MovedHistory(first: Entry, pay: string): seq<Entry> {
    [first, Entry(Payment, first.amount, pay), Entry(Refund, first.amount, first.pay)]
  }

  /** The checks of a payment change of the order pass: it is moved, or the change stops half-way. */
  predicate Moves(db: Db, a: Action, k: string) {
    a.ModifyPayment? && a.order == k && PaymentToMove(db, k, a.pay).Ok?
  }

  /** The action number `i` is an accepted payment change of the order, of some amount of money. */
  predicate MovedMoney(db: Db, actions: seq<Action>, i: nat, k: string)
    requires i < |actions|
  {
    && Moves(At(db, actions, i), actions[i], k) && Applied(At(db, actions, i), actions[i]).1.Done?
    && PaymentToMove(At(db, actions, i), k, actions[i].pay).value.amount != 0
  }

  /** Of a pending order that stays so, only a payment change touches the history. */
  lemma PendingStep(db: Db, a: Action, k: string)
    requires k in db.orders && k in Applied(db, a).0.orders && Applied(db, a).0.orders[k].status == "pending"
    ensures db.orders[k].status == "pending"
    ensures Applied(db, a).0.orders[k].history ==
      if Moves(db, a, k) then MovedHistory(db.orders[k].history[0], a.pay) else db.orders[k].history
  {
    OrderChange(db, a, k);
    if a.UserAddress? || a.Read? || a.order != k {
      OthersUntouched(db, a, k);
    } else if a.Cancel? {
      var o := db.orders[k];
      CreditMoves(db, o.user, o.history[..Settled(db, o.user, o.history)]);
    } else if a.ModifyPayment? {
      MovesHistory(db, k, a.pay);
    }
  }

  lemma MovesHistory(db: Db, k: string, pay: string)
    requires k in db.orders
    ensures k in PaymentModified(db, k, pay).0.orders
    ensures PaymentModified(db, k, pay).0.orders[k].history ==
      if PaymentToMove(db, k, pay).Ok? then MovedHistory(db.orders[k].history[0], pay) else db.orders[k].history
  {
    if PaymentToMove(db, k, pay).Ok? {
      var e, o := PaymentToMove(db, k, pay).value, db.orders[k];
      assert o.history + [Entry(Payment, e.amount, pay), Entry(Refund, e.amount, e.pay)] == MovedHistory(e, pay);
    }
  }

  /** No order comes to be: one in the database after an action was there before. */
  lemma NoNewOrder(db: Db, a: Action)
    ensures Applied(db, a).0.orders.Keys == db.orders.Keys
    ensures forall u, g :: MethodOf(Applied(db, a).0, u, g).Ok? <==> MethodOf(db, u, g).Ok?
  {
    match a
    case Cancel(id, reason) =>
      if id in db.orders {
        var o := db.orders[id];
        CreditMoves(db, o.user, o.history[..Settled(db, o.user, o.history)]);
      }
    case ModifyPayment(id, pay) => PaymentKeepsMethods(db, id, pay);
    case _ =>
  }

  lemma PaymentKeepsMethods(db: Db, id: string, pay: string)
    ensures PaymentModified(db, id, pay).0.orders.Keys == db.orders.Keys
    ensures forall u, g :: MethodOf(PaymentModified(db, id, pay).0, u, g).Ok? <==> MethodOf(db, u, g).Ok?
  {
    if PaymentToMove(db, id, pay).Ok? {
      var e, o := PaymentToMove(db, id, pay).value, db.orders[id];
      var pushed := Put(db, id, o.(history := o.history + [Entry(Payment, e.amount, pay), Entry(Refund, e.amount, e.pay)]));
      ChargeMoves(pushed, o.user, pay, e.amount);
      ChargeMoves(Charge(pushed, o.user, pay, e.amount), o.user, e.pay, -e.amount);
    }
  }

  lemma {:induction false} MethodsStay(db: Db, actions: seq<Action>, i: nat, j: nat)
    requires i <= j <= |actions|
    ensures At(db, actions, j).orders.Keys == At(db, actions, i).orders.Keys
    ensures forall k :: k in At(db, actions, i).orders ==> At(db, actions, j).orders[k].user == At(db, actions, i).orders[k].user
    ensures forall u, g :: MethodOf(At(db, actions, j), u, g).Ok? <==> MethodOf(At(db, actions, i), u, g).Ok?
  {
    if i < j {
      MethodsStay(db, actions, i, j - 1);
      AtNext(db, actions, j - 1);
      var before := At(db, actions, j - 1);
      NoNewOrder(before, actions[j - 1]);
      forall k | k in before.orders ensures Applied(before, actions[j - 1]).0.orders[k].user == before.orders[k].user {
        OrderChange(before, actions[j - 1], k);
      }
    }
  }

  /** A payment change whose checks pass is accepted when the method it is changed from is there. */
  lemma MovesAndEnds(db: Db, a: Action, k: string)
    requires Moves(db, a, k) && MethodOf(db, db.orders[k].user, PaymentToMove(db, k, a.pay).value.pay).Ok?
    ensures Applied(db, a).1.Done?
  {
    var e, o := PaymentToMove(db, k, a.pay).value, db.orders[k];
    var pushed := Put(db, k, o.(history := o.history + [Entry(Payment, e.amount, a.pay), Entry(Refund, e.amount, e.pay)]));
    ChargeMoves(pushed, o.user, a.pay, e.amount);
    assert MethodOf(pushed, o.user, e.pay) == MethodOf(db, o.user, e.pay);
  }

  /** The history a run leaves a pending order: the one it began with, or that with its one payment moved. */
  ghost predicate PendingAs(db: Db, actions: seq<Action>, j: nat, k: string)
    requires j <= |actions| && k in db.orders && k in At(db, actions, j).orders
  {
    var h := At(db, actions, j).orders[k].history;
    if NoneMoved(db, actions, j, k) then h == db.orders[k].history else exists i :: MovedTo(db, actions, i, j, k, h)
  }

  ghost predicate NoneMoved(db: Db, actions: seq<Action>, j: nat, k: string)
    requires j <= |actions|
  {
    forall i :: !MovedAt(db, actions, i, j, k)
  }

  predicate MovedTo(db: Db, actions: seq<Action>, i: int, j: nat, k: string, history: seq<Entry>)
    requires j <= |actions|
  {
    MovedAt(db, actions, i, j, k) && history == MovedHistory(PaymentToMove(At(db, actions, i), k, actions[i].pay).value, actions[i].pay)
  }

  predicate MovedAt(db: Db, actions: seq<Action>, i: int, j: nat, k: string)
    requires j <= |actions|
  {
    0 <= i < j && Moves(At(db, actions, i), actions[i], k)
  }

  /** At most one action moves the order's payment. */
  ghost predicate MovedOnce(db: Db, actions: seq<Action>, j: nat, k: string)
    requires j <= |actions|
  {
    forall i, m :: MovedAt(db, actions, i, j, k) && MovedAt(db, actions, m, j, k) ==> i == m
  }

  lemma MovedAtNext(db: Db, actions: seq<Action>, j: nat, n: nat, k: string)
    requires j < n == j + 1 <= |actions|
    ensures forall i :: MovedAt(db, actions, i, n, k) <==> MovedAt(db, actions, i, j, k) || (i == j && Moves(At(db, actions, j), actions[j], k))
  {
  }

  lemma StillNoneMoved(db: Db, actions: seq<Action>, j: nat, n: nat, k: string)
    requires j < n == j + 1 <= |actions| && k in db.orders && k in At(db, actions, j).orders && k in At(db, actions, n).orders
    requires !Moves(At(db, actions, j), actions[j], k) && At(db, actions, n).orders[k].history == At(db, actions, j).orders[k].history
    requires PendingAs(db, actions, j, k) && MovedOnce(db, actions, j, k)
    ensures PendingAs(db, actions, n, k) && MovedOnce(db, actions, n, k)
  {
    MovedAtNext(db, actions, j, n, k);
    if !NoneMoved(db, actions, j, k) {
      var i :| MovedTo(db, actions, i, j, k, At(db, actions, j).orders[k].history);
      assert MovedTo(db, actions, i, n, k, At(db, actions, n).orders[k].history);
    }
  }

  /** One payment is all there is when one is moved, so nothing was moved before. */
  lemma FirstMoved(db: Db, actions: seq<Action>, j: nat, n: nat, k: string)
    requires j < n == j + 1 <= |actions| && k in db.orders && k in At(db, actions, j).orders && k in At(db, actions, n).orders
    requires Moves(At(db, actions, j), actions[j], k)
    requires At(db, actions, n).orders[k].history == MovedHistory(At(db, actions, j).orders[k].history[0], actions[j].pay)
    requires PendingAs(db, actions, j, k)
    ensures PendingAs(db, actions, n, k) && MovedOnce(db, actions, n, k)
  {
    MovedAtNext(db, actions, j, n, k);
    assert |At(db, actions, j).orders[k].history| == 1;
    assert NoneMoved(db, actions, j, k);
    assert MovedTo(db, actions, j, n, k, At(db, actions, n).orders[k].history);
  }

  lemma {:induction false} PendingRun(db: Db, actions: seq<Action>, j: nat, k: string)
    requires j <= |actions| && k in At(db, actions, j).orders && At(db, actions, j).orders[k].status == "pending"
    ensures k in db.orders && db.orders[k].status == "pending" && PendingAs(db, actions, j, k) && MovedOnce(db, actions, j, k)
  {
    if j == 0 {
      assert At(db, actions, 0) == db;
    } else {
      var before := At(db, actions, j - 1);
      AtNext(db, actions, j - 1);
      NoNewOrder(before, actions[j - 1]);
      PendingStep(before, actions[j - 1], k);
      PendingRun(db, actions, j - 1, k);
      if Moves(before, actions[j - 1], k) { FirstMoved(db, actions, j - 1, j, k); } else { StillNoneMoved(db, actions, j - 1, j, k); }
    }
  }

  /** A cancellation that goes through has met every method, so a payment change on the way did too. */
  lemma MovedWasAccepted(db: Db, actions: seq<Action>, i: nat, j: nat, k: string)
    requires j <= |actions| && MovedAt(db, actions, i, j, k) && k in At(db, actions, j).orders
    requires var e := PaymentToMove(At(db, actions, i), k, actions[i].pay).value;
             var o := At(db, actions, j).orders[k];
             o.history == MovedHistory(e, actions[i].pay) && Settled(At(db, actions, j), o.user, o.history) == |o.history|
    ensures Applied(At(db, actions, i), actions[i]).1.Done?
  {
    var e := PaymentToMove(At(db, actions, i), k, actions[i].pay).value;
    var later := At(db, actions, j);
    MethodsStay(db, actions, i, j);
    assert later.orders[k].history[0] == e;
    assert MethodOf(later, later.orders[k].user, e.pay).Ok?;
    MovesAndEnds(At(db, actions, i), actions[i], k);
  }

  /** What a run's accepted cancellation gives back beyond what was taken: what the payment change moved, if any did. */
  lemma RefundsOfRun(db: Db, actions: seq<Action>, j: nat, k: string, pay: string)
    requires PendingHoldNoRefund(db) && j <= |actions| && k in At(db, actions, j).orders && At(db, actions, j).orders[k].status == "pending"
    requires var o := At(db, actions, j).orders[k]; Settled(At(db, actions, j), o.user, o.history) == |o.history|
    ensures Back(At(db, actions, j).orders[k].history, pay) != 0 ==>
              exists i :: 0 <= i < j && MovedMoney(db, actions, i, k) && PaymentToMove(At(db, actions, i), k, actions[i].pay).value.pay == pay
    ensures forall i :: 0 <= i < j && MovedMoney(db, actions, i, k) ==>
              Back(At(db, actions, j).orders[k].history, PaymentToMove(At(db, actions, i), k, actions[i].pay).value.pay) != 0
  {
    PendingRun(db, actions, j, k);
    var h := At(db, actions, j).orders[k].history;
    assert forall m :: 0 <= m < j && MovedMoney(db, actions, m, k) ==> MovedAt(db, actions, m, j, k);
    if NoneMoved(db, actions, j, k) {
      NoneBack(h, pay);
    } else {
      var i :| MovedTo(db, actions, i, j, k, h);
      var e := PaymentToMove(At(db, actions, i), k, actions[i].pay).value;
      MovedWasAccepted(db, actions, i, j, k);
      BackOfMoved(e, actions[i].pay, pay);
      BackOfMoved(e, actions[i].pay, e.pay);
    }
  }

  /** The history an order holds has refunds of some method that do not come to nothing. */
  predicate HoldsRefund(history: seq<Entry>, pay: string) {
    Back(history, pay) != 0
  }

  lemma RefundHeldExactlyWhen(db: Db, actions: seq<Action>, j: nat, k: string)
    requires PendingHoldNoRefund(db) && j <= |actions| && k in At(db, actions, j).orders && At(db, actions, j).orders[k].status == "pending"
    requires var o := At(db, actions, j).orders[k]; Settled(At(db, actions, j), o.user, o.history) == |o.history|
    ensures (exists pay :: HoldsRefund(At(db, actions, j).orders[k].history, pay)) <==> exists i :: 0 <= i < j && MovedMoney(db, actions, i, k)
  {
    var h := At(db, actions, j).orders[k].history;
    if i :| 0 <= i < j && MovedMoney(db, actions, i, k) {
      RefundsOfRun(db, actions, j, k, "");
      assert HoldsRefund(h, PaymentToMove(At(db, actions, i), k, actions[i].pay).value.pay);
    }
    if pay :| HoldsRefund(h, pay) { RefundsOfRun(db, actions, j, k, pay); }
  }

  /** Of some method, what the order has taken in all is not nothing. */
  predicate OffBy(db: Db, id: string, pay: string) {
    id in db.orders && Net(db.orders[id].history, pay) != 0
  }

  lemma OffExactlyWhen(db: Db, id: string, reason: string)
    requires Cancelled(db, id, reason).1.Done?
    ensures (exists pay :: OffBy(Cancelled(db, id, reason).0, id, pay)) <==> exists pay :: HoldsRefund(db.orders[id].history, pay)
  {
    forall pay ensures OffBy(Cancelled(db, id, reason).0, id, pay) <==> HoldsRefund(db.orders[id].history, pay) {
      CancelGivesBackExactlyWhen(db, id, reason, pay);
    }
  }

  /**
   * From a database whose pending orders hold no refund, an accepted cancellation gives some method back other than what
   * was taken from it exactly when an earlier action of the run was an accepted payment change of that order, of some
   * amount of money.
   */
  lemma OverRefundsExactlyWhen(db: Db, actions: seq<Action>, j: nat)
    requires PendingHoldNoRefund(db) && j < |actions| && actions[j].Cancel? && Applied(At(db, actions, j), actions[j]).1.Done?
    ensures (exists pay :: OffBy(Applied(At(db, actions, j), actions[j]).0, actions[j].order, pay))
            <==> exists i :: 0 <= i < j && MovedMoney(db, actions, i, actions[j].order)
  {
    OffExactlyWhen(At(db, actions, j), actions[j].order, actions[j].reason);
    RefundHeldExactlyWhen(db, actions, j, actions[j].order);
  }

  // ----- The one payment changed, and then cancelled -----

  /**
   * Paying by another method and then cancelling leaves the first one with the amount given back three times over:
   * the change refunds it, and the cancellation refunds the payment and that refund again.
   */
  lemma CancelAfterPaymentChange(db: Db, id: string, pay: string, reason: string)
    requires PaymentModified(db, id, pay).1.Done? && Cancelled(PaymentModified(db, id, pay).0, id, reason).1.Done?
    ensures var first := db.orders[id].history[0];
            var after := Cancelled(PaymentModified(db, id, pay).0, id, reason).0;
            && Net(after.orders[id].history, first.pay) == -2 * first.amount
            && Net(after.orders[id].history, pay) == 0
  {
    var first, mid := db.orders[id].history[0], PaymentModified(db, id, pay).0;
    MovesHistory(db, id, pay);
    forall g | g == first.pay || g == pay
      ensures Net(Cancelled(mid, id, reason).0.orders[id].history, g) == if g == first.pay then -2 * first.amount else 0
    {
      CancelledTakes(mid, id, reason, g);
      BackOfMoved(first, pay, g);
    }
  }
}
