/** What publishing promises, in every state any run can reach. */
module ApprovalPublishTheorems {
  import opened Wrappers
  import opened ApprovalState
  import opened ApprovalPublish
  import opened ApprovalPublishSafety

  ghost predicate Reachable(w: World) {
    exists now, actions :: IsRun(Init(now), actions) && w == After(Init(now), actions)
  }

  lemma ReachableInv(w: World)
    requires Reachable(w)
    ensures Inv(w)
  {
    var now, actions :| IsRun(Init(now), actions) && w == After(Init(now), actions);
    InitInv(now);
    RunInv(Init(now), actions);
  }

  /**
   * A hold marked published at its current state has that very state in the copy, exactly unless the retention rule took
   * the copy, or it was marked while the agent had no registry row, and in either case nothing has copied it since.
   */
  lemma PublishedIsCopied(w: World, op: string)
    requires Reachable(w) && op in w.book.holds && w.book.holds[op].published == Some(w.book.holds[op].state)
    ensures var k := Hint(op, w.book.holds[op].state);
            (op in w.d1.copy && w.d1.copy[op] == k.state) <==> k !in w.d1.dropped && k !in w.d1.unowned
  {
    ReachableInv(w);
    var k := Hint(op, w.book.holds[op].state);
    assert PublishedHas(w.book, w.d1, k);
    if op in w.d1.copy { assert Known(w.book, Hint(op, w.d1.copy[op])) && Chain(w.book.been[op], k.state); }
  }

  /** What is so excused: a state the dropped copy was at or past, or one a pass read while there was no registry row. */
  lemma ExcusedExactlyBy(w: World, a: Action, k: Hint)
    requires Reachable(w) && Can(w, a)
    ensures k in Next(w, a).d1.dropped && k !in w.d1.dropped ==> a == DropCopy(k.operation) && Covers(w.d1.copy, k)
    ensures k in Next(w, a).d1.unowned && k !in w.d1.unowned ==> a.Asked? && w.status.NotProvisioned? && InDue(w.pass.due, k)
  {
    if a.Asked? && w.status.NotProvisioned? && k in Excused(w.d1, w.pass.due).unowned && k !in w.d1.unowned {
      var c :| c in w.pass.due && k == Hint(c.operation, c.state);
      var i :| 0 <= i < |w.pass.due| && w.pass.due[i] == c;
    }
  }

  /** And a write of that state or a later one that lands, now or late, ends the excuse. */
  lemma CopiedAgain(w: World, a: Action, k: Hint)
    requires Reachable(w) && Can(w, a)
    requires (a.Wrote? && a.committed && AtWork(w) && Reaches(Head(w.pass), k)) || (a.LateWrite? && Reaches(a.hint, k))
    ensures k !in Next(w, a).d1.dropped && k !in Next(w, a).d1.unowned && Covers(Next(w, a).d1.copy, k)
  {
  }

  predicate Reaches(written: Hint, k: Hint) {
    written.operation == k.operation && Rank(written.state) >= Rank(k.state)
  }

  /** The copy only ever holds a state its hold has had. */
  lemma CopyIsAPastState(w: World, op: string)
    requires Reachable(w) && op in w.d1.copy
    ensures op in w.book.holds && op in w.book.been && w.d1.copy[op] in w.book.been[op]
    ensures Rank(w.d1.copy[op]) <= Rank(w.book.holds[op].state)
  {
    ReachableInv(w);
    assert Known(w.book, Hint(op, w.d1.copy[op]));
    assert Chain(w.book.been[op], w.book.holds[op].state);
  }

  /** No step but the retention rule takes a copy away, and none puts it back: late and repeated writes included. */
  lemma CopyOnlyMovesForward(w: World, a: Action, op: string)
    requires Reachable(w) && Can(w, a) && op in w.d1.copy && a != DropCopy(op)
    ensures op in Next(w, a).d1.copy && Rank(Next(w, a).d1.copy[op]) >= Rank(w.d1.copy[op])
    ensures Rank(Next(w, a).d1.copy[op]) == Rank(w.d1.copy[op]) ==> Next(w, a).d1.copy[op] == w.d1.copy[op]
  {
  }

  /** At most HINT_ATTEMPTS hints go out for a state of a hold, and one more for each time the object was cut off mid-send. */
  lemma HintsAreBounded(w: World, op: string, s: State)
    requires Reachable(w)
    ensures Count(w.sends.hints, Hint(op, s)) <= HINT_ATTEMPTS + Count(w.sends.cut, Hint(op, s))
  {
    ReachableInv(w);
    assert HintOk(w.book, w.kept, w.pass, w.sends, Hint(op, s));
  }

  /** A change of state, whatever a pass is doing, leaves the hold unpublished. */
  lemma ChangeIsUnpublished(w: World, op: string, to: State)
    requires Reachable(w) && Can(w, Move(op, to))
    ensures Unpublished(Next(w, Move(op, to)).book, op)
  {
    StatesSoFar(w, op);
    ChainGrows(w.book.been[op], w.book.holds[op].state, to);
  }

  /** What is published of a hold is a state it has had. */
  lemma StatesSoFar(w: World, op: string)
    requires Reachable(w) && op in w.book.holds
    ensures op in w.book.been && Chain(w.book.been[op], w.book.holds[op].state)
    ensures w.book.holds[op].published.Some? ==> w.book.holds[op].published.value in w.book.been[op]
  {
    ReachableInv(w);
    if w.book.holds[op].published.Some? {
      assert PublishedHas(w.book, w.d1, Hint(op, w.book.holds[op].published.value));
    }
  }

  /** Nothing but a pass changes what is published of a hold. */
  lemma OthersPublishNothing(w: World, a: Action, op: string)
    requires Can(w, a) && !ByPass(a) && op in w.book.holds
    ensures op in Next(w, a).book.holds && Next(w, a).book.holds[op].published == w.book.holds[op].published
  {
  }

  /** And of a pass, only the end of its first row does, but for the marking of an agent without a registry row. */
  lemma PassPublishesItsHead(w: World, a: Action, op: string)
    requires Can(w, a) && ByPass(a) && op in w.book.holds && !(a.Asked? && w.status.NotProvisioned?)
    ensures op in Next(w, a).book.holds && Next(w, a).book.holds[op].state == w.book.holds[op].state
    ensures Next(w, a).book.holds[op].published != w.book.holds[op].published ==>
      AtWork(w) && Head(w.pass).operation == op && Next(w, a).book.holds[op].published == Some(Head(w.pass).state)
  {
  }

  lemma DisownedPublishesItsRows(w: World, op: string)
    requires w.pass.Asking? && OneEach(w.pass.due) && op in w.book.holds && Disowned(w).book.holds[op] != w.book.holds[op]
    ensures Disowned(w).book.holds[op].published.Some? && InDue(w.pass.due, Hint(op, Disowned(w).book.holds[op].published.value))
  {
    var i := IndexOf(w.pass.due, op);
    ReadAsIs(w.pass.due, i);
    assert w.pass.due[i].operation == op;
  }

  lemma HeadIsDue(p: Pass)
    requires p.Working? && p.due != []
    ensures InDue(DueNow(p), Head(p))
  {
    assert DueNow(p)[0].operation == Head(p).operation;
  }

  /** And it stays unpublished until a pass that read it in that state: no step of another pass publishes it. */
  lemma OnlyItsOwnReadingPublishes(w: World, a: Action, op: string)
    requires Reachable(w) && Can(w, a) && ByPass(a) && Unpublished(w.book, op)
    requires !Unpublished(Next(w, a).book, op)
    ensures InDue(DueNow(w.pass), Hint(op, w.book.holds[op].state))
  {
    if a.Asked? && w.status.NotProvisioned? {
      ReachableInv(w);
      DisownedPublishesItsRows(w, op);
    } else {
      PassPublishesItsHead(w, a, op);
      HeadIsDue(w.pass);
    }
  }

  /** The steps of others leave it unpublished too. */
  lemma OthersLeaveItUnpublished(w: World, a: Action, op: string)
    requires Reachable(w) && Can(w, a) && !ByPass(a) && Unpublished(w.book, op)
    ensures Unpublished(Next(w, a).book, op)
  {
    if a.Move? && a.operation == op {
      ChangeIsUnpublished(w, op, a.to);
    } else {
      OthersPublishNothing(w, a, op);
    }
  }

  /** A pass is silent exactly when it read the agent as deleted or found nowhere to send its hints, and stays so. */
  lemma SilentExactlyWhen(w: World, a: Action)
    requires Can(w, a) && Next(w, a).pass.Working?
    ensures w.pass.Asking? ==> (Next(w, a).pass.silent <==> w.status.Gone? || !w.target)
    ensures w.pass.Working? ==> Next(w, a).pass.silent == w.pass.silent
    ensures !w.pass.Idle?
  {
  }

  /** And one that is sends no hint. */
  lemma NoHintForTheDeleted(w: World, a: Action, k: Hint)
    requires Can(w, a) && w.pass.Working? && w.pass.silent
    ensures Count(Next(w, a).sends.hints, k) == Count(w.sends.hints, k)
  {
  }

  /** The wait before another try grows from half a minute to a quarter of an hour and no further. */
  lemma {:induction false} BackoffGrows(n: nat)
    ensures 30_000 <= Backoff(n) <= 900_000 && Backoff(n) <= Backoff(n + 1)
    ensures n >= 6 ==> Backoff(n) == 900_000
  {
    if n > 0 { BackoffGrows(n - 1); }
    if n == 6 { assert Backoff(2) == 60_000 && Backoff(3) == 120_000 && Backoff(4) == 240_000 && Backoff(5) == 480_000; }
  }

  // ----- Which holds a pass takes up -----

  /** How many of the holds are unpublished. */
  function Waiting(b: Book, ops: seq<string>): nat {
    if ops == [] then 0 else (if Unpublished(b, ops[0]) then 1 else 0) + Waiting(b, ops[1..])
  }

  /** An unpublished hold is read exactly when fewer than the bound are older than it and unpublished. */
  lemma {:induction false} ReadExactlyWhen(b: Book, ops: seq<string>, i: nat, most: nat)
    requires Distinct(ops) && i < |ops| && Unpublished(b, ops[i])
    ensures ops[i] in Oldest(b, ops, most) <==> Waiting(b, ops[..i]) < most
  {
    if most > 0 && i > 0 {
      assert ops[..i][1..] == ops[1..][..i - 1] && ops[0] != ops[i];
      ReadExactlyWhen(b, ops[1..], i - 1, if Unpublished(b, ops[0]) then most - 1 else most);
    }
  }

  lemma InDueBoth(a: seq<Captured>, b: seq<Captured>, k: Hint)
    ensures InDue(a + b, k) <==> InDue(a, k) || InDue(b, k)
  {
    var all := a + b;
    if InDue(all, k) {
      var i :| 0 <= i < |all| && all[i].operation == k.operation && all[i].state == k.state;
      if i < |a| { assert a[i] == all[i]; } else { assert b[i - |a|] == all[i]; }
    }
    if InDue(a, k) {
      var i :| 0 <= i < |a| && a[i].operation == k.operation && a[i].state == k.state;
      assert all[i] == a[i];
    }
    if InDue(b, k) {
      var i :| 0 <= i < |b| && b[i].operation == k.operation && b[i].state == k.state;
      assert all[|a| + i] == b[i];
    }
  }

  lemma {:induction false} DueTakesUp(b: Book, kept: Kept, now: int, ops: seq<string>, op: string)
    requires op in b.holds
    ensures InDue(DueOf(b, kept, now, ops), Hint(op, b.holds[op].state)) <==> op in ops && IsDue(b, kept, now, op)
  {
    if ops != [] {
      DueTakesUp(b, kept, now, ops[1..], op);
      var one := if IsDue(b, kept, now, ops[0]) then [Capture(b, kept, ops[0])] else [];
      var k := Hint(op, b.holds[op].state);
      InDueBoth(one, DueOf(b, kept, now, ops[1..]), k);
      assert InDue(one, k) <==> ops[0] == op && IsDue(b, kept, now, op) by {
        if ops[0] == op && IsDue(b, kept, now, op) { assert one[0].operation == op && one[0].state == k.state; }
      }
    }
  }

  /**
   * A pass takes up an unpublished hold exactly when fewer than PASS_ROWS older ones are unpublished and its state was
   * not tried yet or its time has come. So holds that are kept back for their copy's sake can hold up the ones behind.
   */
  lemma TakenUpExactlyWhen(w: World, i: nat)
    requires Reachable(w) && w.pass.Idle? && i < |w.book.order| && Unpublished(w.book, w.book.order[i])
    ensures var op := w.book.order[i];
            InDue(DueNow(Next(w, Start).pass), Hint(op, w.book.holds[op].state))
            <==> Waiting(w.book, w.book.order[..i]) < PASS_ROWS && IsDue(w.book, w.kept, w.now, op)
  {
    var op := w.book.order[i];
    OrderIsDistinct(w);
    assert op in w.book.order;
    ReadExactlyWhen(w.book, w.book.order, i, PASS_ROWS);
    DueTakesUp(w.book, w.kept, w.now, Oldest(w.book, w.book.order, PASS_ROWS), op);
    StartedDue(w);
  }

  lemma OrderIsDistinct(w: World)
    requires Reachable(w)
    ensures Distinct(w.book.order)
  {
    ReachableInv(w);
  }

  lemma StartedDue(w: World)
    ensures DueNow(Next(w, Start).pass) == Due(w)
  {
  }
}
