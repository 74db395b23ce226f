// What a run of calls leaves, against what its replay leaves once the calls refused last are forgotten.
module BenchReplay {
  import opened Wrappers
  import opened Retail
  import opened RetailLaws

  /** Whether a run's call number `i` was accepted. */
  predicate AcceptedAt(base: Db, calls: seq<Action>, i: nat)
    requires i < |calls|
  {
    Applied(Run(base, calls[..i]), calls[i]).1.Done?
  }

  /** The calls up to the last one accepted. */
  function Trimmed(base: Db, calls: seq<Action>): (kept: seq<Action>)
    ensures |kept| <= |calls| && kept == calls[..|kept|]
  {
    if calls == [] || AcceptedAt(base, calls, |calls| - 1) then calls else Trimmed(base, calls[..|calls| - 1])
  }

  lemma {:induction false} TailIsRefused(base: Db, calls: seq<Action>, i: nat)
    requires |Trimmed(base, calls)| <= i < |calls|
    ensures !AcceptedAt(base, calls, i)
  {
    var n := |calls| - 1;
    if i < n {
      TailIsRefused(base, calls[..n], i);
      assert calls[..n][..i] == calls[..i];
    }
  }

  lemma {:induction false} TrimmedAgain(base: Db, calls: seq<Action>)
    ensures Trimmed(base, Trimmed(base, calls)) == Trimmed(base, calls)
  {
    if calls != [] && !AcceptedAt(base, calls, |calls| - 1) { TrimmedAgain(base, calls[..|calls| - 1]); }
  }

  lemma RunOneMore(base: Db, calls: seq<Action>, a: Action)
    ensures Run(base, calls + [a]) == Applied(Run(base, calls), a).0
    ensures Trimmed(base, calls + [a]) == if Applied(Run(base, calls), a).1.Done? then calls + [a] else Trimmed(base, calls)
  {
    assert (calls + [a])[..|calls|] == calls;
  }

  /** The replay of what is kept leaves what the calls left. */
  predicate ReplayTells(base: Db, calls: seq<Action>) {
    Run(base, Trimmed(base, calls)) == Run(base, calls)
  }

  /** Call number `i` stops half-way. */
  ghost predicate StopsAt(base: Db, calls: seq<Action>, i: nat)
    requires i < |calls|
  {
    StopsHalfWay(At(base, calls, i), calls[i])
  }

  lemma RefusedStep(base: Db, calls: seq<Action>, i: nat)
    requires i < |calls| && !AcceptedAt(base, calls, i)
    ensures At(base, calls, i + 1) != At(base, calls, i) <==> StopsAt(base, calls, i)
  {
    AtNext(base, calls, i);
    RefusedButChangedExactlyWhen(At(base, calls, i), calls[i]);
  }

  // ----- A run of calls

  /** From the replay's own state, a call of those refused last stops half-way, and the later ones never undo that. */
  ghost predicate LeavesForGood(base: Db, calls: seq<Action>, i: nat) {
    && |Trimmed(base, calls)| <= i < |calls| && StopsAt(base, calls, i) && At(base, calls, i) == Run(base, Trimmed(base, calls))
    && forall j :: i < j <= |calls| ==> At(base, calls, j) != Run(base, Trimmed(base, calls))
  }

  /** The last point up to `n` at which the run is where the replay is. */
  lemma {:induction false} LastAlike(base: Db, calls: seq<Action>, n: nat) returns (i: nat)
    requires |Trimmed(base, calls)| <= n <= |calls|
    ensures |Trimmed(base, calls)| <= i <= n && At(base, calls, i) == Run(base, Trimmed(base, calls))
    ensures forall j :: i < j <= n ==> At(base, calls, j) != Run(base, Trimmed(base, calls))
  {
    if At(base, calls, n) == Run(base, Trimmed(base, calls)) { i := n; } else { i := LastAlike(base, calls, n - 1); }
  }

  /** The replay differs exactly when a call refused last stops half-way and the later ones never undo that. */
  lemma DiffersExactlyWhen(base: Db, calls: seq<Action>)
    ensures !ReplayTells(base, calls) <==> exists i: nat :: LeavesForGood(base, calls, i)
  {
    assert calls[..|calls|] == calls;
    assert At(base, calls, |calls|) == Run(base, calls);
    if !ReplayTells(base, calls) {
      var i := LastAlike(base, calls, |calls|);
      TailIsRefused(base, calls, i);
      RefusedStep(base, calls, i);
      assert LeavesForGood(base, calls, i);
    }
  }

  // ----- Any run of calls from a base

  ghost predicate CanDiffer(base: Db) {
    exists calls :: !ReplayTells(base, calls)
  }

  ghost predicate CanStopHalfWay(base: Db) {
    exists calls, a :: StopsHalfWay(Run(base, calls), a)
  }

  lemma StopMakesDiffer(base: Db, calls: seq<Action>, a: Action)
    requires StopsHalfWay(Run(base, calls), a)
    ensures !ReplayTells(base, calls) || !ReplayTells(base, calls + [a])
  {
    RunOneMore(base, calls, a);
    RefusedButChangedExactlyWhen(Run(base, calls), a);
  }

  /** Some run of calls is not told by its replay exactly when some run reaches a database in which an action stops half-way. */
  lemma CanDifferExactlyWhen(base: Db)
    ensures CanDiffer(base) <==> CanStopHalfWay(base)
  {
    if CanStopHalfWay(base) {
      var calls, a :| StopsHalfWay(Run(base, calls), a);
      StopMakesDiffer(base, calls, a);
    }
    if CanDiffer(base) {
      var calls :| !ReplayTells(base, calls);
      DiffersExactlyWhen(base, calls);
      var i: nat :| LeavesForGood(base, calls, i);
      assert StopsHalfWay(Run(base, calls[..i]), calls[i]);
    }
  }

  // ----- Where no amount is negative, nothing is undone

  ghost predicate NoneShorter(a: Db, b: Db) {
    a.orders.Keys == b.orders.Keys && forall k :: k in a.orders ==> |b.orders[k].history| >= |a.orders[k].history|
  }

  ghost predicate SomeLonger(a: Db, b: Db) {
    exists k :: k in a.orders && k in b.orders && |b.orders[k].history| > |a.orders[k].history|
  }

  ghost predicate NonePoorer(a: Db, b: Db) {
    forall u, g :: Balance(b, u, g) >= Balance(a, u, g)
  }

  ghost predicate SomeRicher(a: Db, b: Db) {
    exists u, g :: Balance(b, u, g) > Balance(a, u, g)
  }

  /** No history is shorter; and one is longer, or no card has less. */
  ghost predicate Onward(a: Db, b: Db) {
    NoneShorter(a, b) && (SomeLonger(a, b) || NonePoorer(a, b))
  }

  /** And something has grown. */
  ghost predicate Ahead(a: Db, b: Db) {
    NoneShorter(a, b) && (SomeLonger(a, b) || (NonePoorer(a, b) && SomeRicher(a, b)))
  }

  lemma OnwardTwice(a: Db, b: Db, c: Db)
    requires Onward(a, b) && Onward(b, c)
    ensures Onward(a, c) && (Ahead(a, b) || Ahead(b, c) ==> Ahead(a, c))
  {
    if k :| k in a.orders && k in b.orders && |b.orders[k].history| > |a.orders[k].history| {
      assert k in c.orders && |c.orders[k].history| > |a.orders[k].history|;
    } else if k :| k in b.orders && k in c.orders && |c.orders[k].history| > |b.orders[k].history| {
      assert k in a.orders && |c.orders[k].history| > |a.orders[k].history|;
    } else {
      if u, g :| Balance(b, u, g) > Balance(a, u, g) { assert Balance(c, u, g) > Balance(a, u, g); }
      if u, g :| Balance(c, u, g) > Balance(b, u, g) { assert Balance(c, u, g) > Balance(a, u, g); }
    }
  }

  lemma HalfCancelIsAhead(db: Db, id: string, reason: string)
    requires Solvent(db) && CancelStopsHalfWay(db, id, reason)
    ensures Ahead(db, Cancelled(db, id, reason).0)
  {
    var o := db.orders[id];
    var settled := o.history[..Settled(db, o.user, o.history)];
    var after := Cancelled(db, id, reason).0;
    assert NoDebt(o.history);
    CreditMoves(db, o.user, settled);
    forall u, g ensures Balance(after, u, g) >= Balance(db, u, g) {
      NamedIsNotNegative(settled, g);
    }
    var g :| IsCard(db, o.user, g) && Named(settled, g) != 0;
    NamedIsNotNegative(settled, g);
    assert Balance(after, o.user, g) > Balance(db, o.user, g);
  }

  lemma HalfPaymentIsAhead(db: Db, id: string, pay: string)
    requires PaymentStopsHalfWay(db, id, pay)
    ensures Ahead(db, PaymentModified(db, id, pay).0)
  {
    var e, o := PaymentToMove(db, id, pay).value, db.orders[id];
    var pushed := Put(db, id, o.(history := o.history + [Entry(Payment, e.amount, pay), Entry(Refund, e.amount, e.pay)]));
    ChargeMoves(pushed, o.user, pay, e.amount);
    assert |pushed.orders[id].history| == 3;
    PaymentRefusedExactly(db, id, pay);
    assert |PaymentModified(db, id, pay).0.orders[id].history| > |db.orders[id].history|;
  }

  lemma RefusedIsOnward(db: Db, a: Action)
    requires Solvent(db) && Applied(db, a).1.Refused?
    ensures Onward(db, Applied(db, a).0) && (StopsHalfWay(db, a) ==> Ahead(db, Applied(db, a).0))
  {
    RefusedButChangedExactlyWhen(db, a);
    if StopsHalfWay(db, a) {
      if a.Cancel? { HalfCancelIsAhead(db, a.order, a.reason); } else { HalfPaymentIsAhead(db, a.order, a.pay); }
    }
  }

  lemma {:induction false} TailIsOnward(base: Db, calls: seq<Action>, i: nat, j: nat)
    requires Solvent(base) && |Trimmed(base, calls)| <= i <= j <= |calls|
    ensures Onward(At(base, calls, i), At(base, calls, j))
    ensures (exists m: nat :: i <= m < j && StopsAt(base, calls, m)) ==> Ahead(At(base, calls, i), At(base, calls, j))
  {
    if i < j {
      TailIsOnward(base, calls, i, j - 1);
      TailIsRefused(base, calls, j - 1);
      RunSolvent(base, calls[..j - 1]);
      AtNext(base, calls, j - 1);
      RefusedIsOnward(At(base, calls, j - 1), calls[j - 1]);
      OnwardTwice(At(base, calls, i), At(base, calls, j - 1), At(base, calls, j));
      if m: nat :| i <= m < j && StopsAt(base, calls, m) { assert m == j - 1 || StopsAt(base, calls, m); }
    }
  }

  /** Where no card is below zero and no amount negative, the replay differs exactly when a call refused last stops half-way. */
  lemma DiffersWhenSolventExactlyWhen(base: Db, calls: seq<Action>)
    requires Solvent(base)
    ensures !ReplayTells(base, calls) <==> exists i: nat :: |Trimmed(base, calls)| <= i < |calls| && StopsAt(base, calls, i)
  {
    var n := |Trimmed(base, calls)|;
    assert calls[..|calls|] == calls;
    assert At(base, calls, |calls|) == Run(base, calls) && At(base, calls, n) == Run(base, Trimmed(base, calls));
    TailIsOnward(base, calls, n, |calls|);
    DiffersExactlyWhen(base, calls);
    if i: nat :| LeavesForGood(base, calls, i) { assert StopsAt(base, calls, i); }
  }
}
