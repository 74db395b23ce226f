// `publishApprovals` itself: the code between two awaits runs alone, and at each await holds move on, late writes land,
// copies are dropped and the agent is deleted. Every execution is a run of the machine (ApprovalPublish).
module PublishApprovals {
  import opened Wrappers
  import opened ApprovalState
  import opened ApprovalPublish
  import opened ApprovalPublishSafety
  import opened ApprovalPublishTheorems

  predicate ByOthers(a: Action) {
    !ByPass(a)
  }

  ghost predicate OthersRan(w: World, w': World, steps: seq<Action>) {
    IsRun(w, steps) && w' == After(w, steps) && forall i :: 0 <= i < |steps| ==> ByOthers(steps[i])
  }

  /** What the others leave of a pass: its own variables, the tries, and what is published of each hold. */
  ghost predicate LeftAlone(w: World, w': World) {
    && w'.pass == w.pass && w'.kept == w.kept && w'.sends == w.sends
    && (forall op :: op in w.book.holds ==> op in w'.book.holds && w'.book.holds[op].published == w.book.holds[op].published)
  }

  lemma {:induction false} OthersLeaveThePass(w: World, w': World, steps: seq<Action>)
    requires OthersRan(w, w', steps)
    ensures LeftAlone(w, w')
    decreases |steps|
  {
    if steps != [] {
      assert ByOthers(steps[0]);
      OthersLeaveThePass(Next(w, steps[0]), w', steps[1..]);
    }
  }

  lemma {:induction false} RunThen(w: World, steps: seq<Action>, more: seq<Action>)
    requires IsRun(w, steps) && IsRun(After(w, steps), more)
    ensures IsRun(w, steps + more) && After(w, steps + more) == After(After(w, steps), more)
    decreases |steps|
  {
    if steps == [] {
      assert steps + more == more;
    } else {
      assert (steps + more)[1..] == steps[1..] + more;
      RunThen(Next(w, steps[0]), steps[1..], more);
    }
  }

  /** When an unpublished hold is next tried: now, unless a try of its state is waiting. */
  function TryAt(w: World, op: string): int
    requires op in w.book.holds
  {
    if TriedFor(w.kept, op, w.book.holds[op].state) then w.kept[op].nextAt else 0
  }

  predicate PublishedAs(b: Book, c: Captured) {
    c.operation in b.holds && b.holds[c.operation].published == Some(c.state)
  }

  /** A working pass is at a row of a hold that is there, and its rows are of different holds. */
  lemma WorkingIsAtWork(start: int, log: seq<Action>, w: World)
    requires IsRun(Init(start), log) && w == After(Init(start), log)
    ensures w.pass.Working? ==> AtWork(w)
    ensures OneEach(DueNow(w.pass))
  {
    InitInv(start);
    RunInv(Init(start), log);
    if w.pass.Working? { HeadIsKnown(w); }
  }

  class AgentObject {
    var w: World
    ghost var start: int
    ghost var log: seq<Action>

    ghost predicate Ran()
      reads this
    {
      IsRun(Init(start), log) && w == After(Init(start), log)
    }

    constructor (now: int)
      ensures w == Init(now) && start == now && Ran()
    {
      w, start, log := Init(now), now, [];
    }

    method Take(a: Action)
      requires Ran() && Can(w, a)
      modifies this
      ensures Ran() && w == Next(old(w), a) && start == old(start)
    {
      RunThen(Init(start), log, [a]);
      log := log + [a];
      w := Next(w, a);
    }

    /** The others' turn: what they do is not the pass's to choose. */
    method OthersTurn() returns (ghost steps: seq<Action>)
      requires Ran()
      modifies this
      ensures Ran() && start == old(start) && OthersRan(old(w), w, steps)
    {
      steps := [];
    }

    method Await()
      requires Ran()
      modifies this
      ensures Ran() && start == old(start) && LeftAlone(old(w), w)
    {
      ghost var steps := OthersTurn();
      OthersLeaveThePass(old(w), w, steps);
    }

    /** Writes the copy and waits for the answer: it may be refused, or land with its answer lost, now or later. */
    method WriteCopy() returns (ok: bool)
      requires Ran() && w.pass.Working? && w.pass.step.Writing?
      modifies this
      ensures Ran() && start == old(start)
      ensures ok ==> w.pass == old(w.pass).(step := Hinting) && Same(old(w), w)
      ensures !ok ==> OneDone(old(w), w)
    {
      Await();
      var committed: bool := *;
      ok := *;
      if !committed { ok := false; }
      WorkingIsAtWork(start, log, w);
      Take(Wrote(committed, ok));
    }

    /** Sends the hint and waits for the answer, unless the key is malformed. */
    method SendHint() returns (ok: bool)
      requires Ran() && w.pass.Working? && w.pass.step.Hinting? && !w.pass.silent
      modifies this
      ensures Ran() && start == old(start) && OneDone(old(w), w)
      ensures ok ==> PublishedAs(w.book, old(w.pass.due[0]))
    {
      WorkingIsAtWork(start, log, w);
      var keyReads: bool := *;
      if !keyReads {
        Take(KeyFailed);
        return false;
      }
      Take(Send);
      Await();
      ok := *;
      WorkingIsAtWork(start, log, w);
      Take(Answered(ok));
    }

    /** The try block for the first row. */
    method TryHead() returns (ok: bool)
      requires Ran() && w.pass.Working? && !w.pass.step.Sending?
      modifies this
      ensures Ran() && start == old(start) && OneDone(old(w), w)
      ensures ok ==> PublishedAs(w.book, old(w.pass.due[0]))
    {
      if w.pass.step.Writing? {
        ok := WriteCopy();
        if !ok { return; }
      }
      if !w.pass.silent {
        ok := SendHint();
      } else {
        WorkingIsAtWork(start, log, w);
        Take(Finish);
        ok := true;
      }
    }

    /** The pass is at row `done` of those it read, or past the last, and every row before is published but for the bad ones. */
    ghost predicate AtRow(due: seq<Captured>, done: nat, bad: set<nat>)
      reads this
    {
      && !w.pass.Asking? && (w.pass.Working? ==> !w.pass.step.Sending?)
      && done <= |due| && DueNow(w.pass) == due[done..] && (w.pass.Idle? ==> done == |due|)
      && (forall i :: i in bad ==> i < done)
      && forall i :: 0 <= i < done && i !in bad ==> PublishedAs(w.book, due[i])
    }

    method OneRow(ghost due: seq<Captured>, ghost done: nat, ghost bad: set<nat>) returns (ok: bool)
      requires Ran() && w.pass.Working? && OneEach(due) && AtRow(due, done, bad)
      modifies this
      ensures Ran() && start == old(start) && done < |due|
      ensures AtRow(due, done + 1, if ok then bad else bad + {done})
      ensures |DueNow(w.pass)| < old(|DueNow(w.pass)|)
    {
      ghost var before := w;
      WorkingIsAtWork(start, log, w);
      assert due[done..][0] == due[done];
      ok := TryHead();
      HeadGoes(before, w, due, done);
    }

    /** The loop over the rows read: each is published at the state it was read at, or counted as failed. */
    method WorkThrough(ghost due: seq<Captured>) returns (published: nat, failed: nat, ghost bad: set<nat>)
      requires Ran() && OneEach(due) && AtRow(due, 0, {})
      modifies this
      ensures Ran() && start == old(start) && w.pass.Idle? && published + failed == |due|
      ensures |bad| == failed && AtRow(due, |due|, bad)
    {
      published, failed, bad := 0, 0, {};
      while w.pass.Working?
        invariant Ran() && start == old(start) && AtRow(due, published + failed, bad) && |bad| == failed
        decreases |DueNow(w.pass)|
      {
        ghost var done := published + failed;
        var ok := OneRow(due, done, bad);
        if ok {
          published := published + 1;
        } else {
          failed, bad := failed + 1, bad + {done};
        }
      }
    }

    /** Reads the rows and the registry: a pass that goes on, or one that is over. */
    method Open() returns (ghost due: seq<Captured>, answered: bool, owned: bool)
      requires Ran() && w.pass.Idle?
      modifies this
      ensures Ran() && start == old(start) && due == Due(old(w)) && OneEach(due)
      ensures answered && owned ==> AtRow(due, 0, {})
      ensures !answered || !owned ==> w.pass.Idle?
      ensures answered && !owned ==> forall i :: 0 <= i < |due| ==> PublishedAs(w.book, due[i])
    {
      due, answered, owned := Due(w), true, true;
      Take(Start);
      WorkingIsAtWork(start, log, w);
      if w.pass.Idle? { return; }
      Await();
      answered := *;
      if !answered {
        Take(AskFailed);
        return;
      }
      owned := !w.status.NotProvisioned?;
      if !owned { DisownedPublishes(start, log, w); }
      Take(Asked);
    }

    /**
     * One pass. What it reports adds up, every row it read is published at the state it was read at but for those that
     * failed, every hold due among the oldest is one of those rows, and it says when the next is due: never while
     * something is left to publish is that nothing.
     */
    method Publish() returns (published: nat, failed: nat, nextAt: Option<int>, ghost due: seq<Captured>, ghost bad: set<nat>,
                              answered: bool, owned: bool)
      requires Ran() && w.pass.Idle?
      modifies this
      ensures Ran() && start == old(start) && w.pass.Idle? && due == Due(old(w))
      ensures !answered ==> published == 0 && failed == |due| && nextAt == Some(old(w.now) + Backoff(1))
      ensures answered && owned ==> published + failed == |due|
      ensures answered ==> |bad| == failed && forall i :: 0 <= i < |due| && i !in bad ==> PublishedAs(w.book, due[i])
      ensures answered ==> forall i :: 0 <= i < |old(w).book.order| && TakesUp(old(w), i) ==> PublishedUnlessBad(old(w), i, w.book, due, bad)
      ensures answered && owned ==> (nextAt.None? <==> forall op :: op in w.book.order ==> !Unpublished(w.book, op))
      ensures answered && owned && nextAt.Some? ==>
        forall op :: op in w.book.order && Unpublished(w.book, op) ==> nextAt.value <= Max(TryAt(w, op), old(w.now))
    {
      ghost var before := w;
      var now := w.now;
      var rows := |Due(w)|;
      bad := {};
      AllTakenUp(start, log, w);
      due, answered, owned := Open();
      if !answered { return 0, rows, Some(now + Backoff(1)), due, bad, answered, owned; }
      if !owned {
        NoneIsMissed(before, w.book, due, bad);
        return 0, 0, None, due, bad, answered, owned;
      }
      published, failed, bad := WorkThrough(due);
      NoneIsMissed(before, w.book, due, bad);
      nextAt := NextTry(now);
    }

    /** The smallest of the times the unpublished holds are next tried, no earlier than now. */
    method NextTry(now: int) returns (at: Option<int>)
      ensures at.None? <==> forall op :: op in w.book.order ==> !Unpublished(w.book, op)
      ensures at.Some? ==> forall op :: op in w.book.order && Unpublished(w.book, op) ==> at.value <= Max(TryAt(w, op), now)
      ensures at.Some? ==> exists op :: op in w.book.order && Unpublished(w.book, op) && at.value == Max(TryAt(w, op), now)
    {
      var order := w.book.order;
      var least: Option<string> := None;
      for i := 0 to |order|
        invariant least.None? ==> forall j :: 0 <= j < i ==> !Unpublished(w.book, order[j])
        invariant least.Some? ==> least.value in order && Unpublished(w.book, least.value)
        invariant least.Some? ==> forall j :: 0 <= j < i && Unpublished(w.book, order[j]) ==> TryAt(w, least.value) <= TryAt(w, order[j])
      {
        if Unpublished(w.book, order[i]) && (least.None? || TryAt(w, order[i]) < TryAt(w, least.value)) {
          least := Some(order[i]);
        }
      }
      if least.None? { return None; }
      return Some(Max(TryAt(w, least.value), now));
    }
  }

  function Max(a: int, b: int): int {
    if a < b then b else a
  }

  /** The hold is unpublished and due, with fewer than fifty older ones unpublished. */
  predicate TakesUp(w: World, i: nat)
    requires i < |w.book.order|
  {
    var op := w.book.order[i];
    Unpublished(w.book, op) && Waiting(w.book, w.book.order[..i]) < 50 && IsDue(w.book, w.kept, w.now, op)
  }

  /** The hold, as it was, is a row read that is published at that state, or a bad one. */
  predicate PublishedUnlessBad(w: World, i: nat, b: Book, due: seq<Captured>, bad: set<nat>)
    requires i < |w.book.order|
  {
    var op := w.book.order[i];
    op in w.book.holds && exists j :: 0 <= j < |due| && due[j].operation == op && due[j].state == w.book.holds[op].state
                                      && (j in bad || PublishedAs(b, due[j]))
  }

  /** Every hold a pass takes up is a row it reads. */
  ghost predicate TakenUp(w: World) {
    forall i :: 0 <= i < |w.book.order| && TakesUp(w, i) ==> InDue(Due(w), Hint(w.book.order[i], w.book.holds[w.book.order[i]].state))
  }

  lemma AllTakenUp(start: int, log: seq<Action>, w: World)
    requires IsRun(Init(start), log) && w == After(Init(start), log) && w.pass.Idle?
    ensures TakenUp(w)
  {
    assert Reachable(w);
    forall i | 0 <= i < |w.book.order| && TakesUp(w, i)
      ensures InDue(Due(w), Hint(w.book.order[i], w.book.holds[w.book.order[i]].state))
    {
      TakenUpExactlyWhen(w, i);
      StartedDue(w);
    }
  }

  lemma NoneIsMissed(w: World, b: Book, due: seq<Captured>, bad: set<nat>)
    requires TakenUp(w) && due == Due(w) && forall i :: 0 <= i < |due| && i !in bad ==> PublishedAs(b, due[i])
    ensures forall i :: 0 <= i < |w.book.order| && TakesUp(w, i) ==> PublishedUnlessBad(w, i, b, due, bad)
  {
    forall i | 0 <= i < |w.book.order| && TakesUp(w, i) ensures PublishedUnlessBad(w, i, b, due, bad) {
      var op := w.book.order[i];
      var j :| 0 <= j < |due| && due[j].operation == op && due[j].state == w.book.holds[op].state;
      assert j in bad || PublishedAs(b, due[j]);
    }
  }

  /** What is published of each hold stays. */
  ghost predicate Same(w: World, w': World) {
    forall op :: op in w.book.holds ==> op in w'.book.holds && w'.book.holds[op].published == w.book.holds[op].published
  }

  /** The first row of the pass is done with: the others' holds are published as they were, and the pass is at the next. */
  ghost predicate OneDone(w: World, w': World) {
    && w.pass.Working? && w.pass.due != [] && w'.pass == Onward(w.pass)
    && forall op :: op in w.book.holds && op != w.pass.due[0].operation ==>
         op in w'.book.holds && w'.book.holds[op].published == w.book.holds[op].published
  }

  lemma HeadGoes(w: World, w': World, due: seq<Captured>, done: nat)
    requires w.pass.Working? && OneDone(w, w') && OneEach(due)
    requires done < |due| && DueNow(w.pass) == due[done..]
    ensures DueNow(w'.pass) == due[done + 1..]
    ensures forall i :: 0 <= i < done && PublishedAs(w.book, due[i]) ==> PublishedAs(w'.book, due[i])
  {
    assert due[done..][0] == due[done];
  }

  lemma DisownedPublishes(start: int, log: seq<Action>, w: World)
    requires IsRun(Init(start), log) && w == After(Init(start), log) && w.pass.Asking?
    ensures forall i :: 0 <= i < |w.pass.due| ==> PublishedAs(Disowned(w).book, w.pass.due[i])
  {
    InitInv(start);
    RunInv(Init(start), log);
    forall i | 0 <= i < |w.pass.due| ensures PublishedAs(Disowned(w).book, w.pass.due[i]) {
      ReadAsIs(w.pass.due, i);
      assert StillSo(w.book, w.kept, DueNow(w.pass)[i]);
    }
  }
}
