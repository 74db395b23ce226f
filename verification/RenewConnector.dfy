// `renewConnector` itself: the code between two awaits runs alone, and at each await any other renewals, GitHub and
// the world take any number of steps. Every execution of it is a run of the machine, so what the machine's runs keep
// (RenewalTheorems) holds of it.
module RenewConnector {
  import opened Wrappers
  import opened ConnectorRow
  import opened Renewal
  import opened RenewalActs

  /** Not a step of the renewal `r` itself; what GitHub decides of its request is not its own. */
  predicate ByOthers(a: Action, r: Holder) {
    Actor(a) != Some(r) || a.Decide?
  }

  ghost predicate OthersRan(w: World, w': World, r: Holder, steps: seq<Action>) {
    IsRun(w, steps) && w' == After(w, steps) && forall i :: 0 <= i < |steps| ==> ByOthers(steps[i], r)
  }

  /** A call others leave alone, but for GitHub's answer to its request. */
  predicate LeftAlone(c: Call, c': Call) {
    c' == c || (c.phase.Trading? && c.phase.answer.None? && c'.phase.Trading? && c' == c.(phase := c.phase.(answer := c'.phase.answer)))
  }

  lemma DecideLeavesMine(w: World, a: Action, r: Holder)
    requires Can(w, a) && a.Decide? && r in w.calls
    ensures var w' := Next(w, a); r in w'.calls && LeftAlone(w.calls[r], w'.calls[r]) && w.now == w'.now && w'.app == w.app
  {
  }

  lemma WorldLeavesMine(w: World, a: Action, r: Holder)
    requires Can(w, a) && Actor(a).None? && r in w.calls
    ensures var w' := Next(w, a); r in w'.calls && w.calls[r] == w'.calls[r] && w.now <= w'.now && w'.app == w.app
  {
  }

  lemma StepLeavesMine(w: World, a: Action, r: Holder)
    requires Can(w, a) && ByOthers(a, r) && r in w.calls
    ensures var w' := Next(w, a); r in w'.calls && LeftAlone(w.calls[r], w'.calls[r]) && w.now <= w'.now && w'.app == w.app
  {
    if a.Decide? { DecideLeavesMine(w, a, r); } else if Actor(a).None? { WorldLeavesMine(w, a, r); }
  }

  lemma {:induction false} OthersLeaveMine(w: World, w': World, r: Holder, steps: seq<Action>)
    requires OthersRan(w, w', r, steps) && r in w.calls
    ensures r in w'.calls && LeftAlone(w.calls[r], w'.calls[r]) && w.now <= w'.now && w'.app == w.app
    decreases |steps|
  {
    if steps != [] {
      assert ByOthers(steps[0], r);
      StepLeavesMine(w, steps[0], r);
      OthersLeaveMine(Next(w, steps[0]), w', r, steps[1..]);
    }
  }

  lemma {:induction false} RunThen(w: World, steps: seq<Action>, more: seq<Action>)
    requires IsRun(w, steps) && IsRun(After(w, steps), more)
    ensures IsRun(w, steps + more) && After(w, steps + more) == After(After(w, steps), more)
    decreases |steps|
  {
    if steps == [] {
      assert steps + more == more;
    } else {
      assert (steps + more)[1..] == steps[1..] + more;
      RunThen(Next(w, steps[0]), steps[1..], more);
    }
  }

  /** The log has grown by steps none of which is a trade of the renewal. */
  ghost predicate NoTrade(was: seq<Action>, log: seq<Action>, r: Holder) {
    was <= log && forall i :: |was| <= i < |log| ==> log[i] != Trade(r)
  }

  lemma {:induction false} RunSplits(w: World, steps: seq<Action>, more: seq<Action>)
    requires IsRun(w, steps + more) && IsRun(w, steps)
    ensures IsRun(After(w, steps), more) && After(w, steps + more) == After(After(w, steps), more)
    decreases |steps|
  {
    if steps == [] {
      assert steps + more == more;
    } else {
      assert (steps + more)[1..] == steps[1..] + more;
      RunSplits(Next(w, steps[0]), steps[1..], more);
    }
  }

  /** The steps since `was`, from where they led. */
  ghost predicate FoundGoodSince(start: World, was: seq<Action>, log: seq<Action>, r: Holder, access: Pair) {
    was <= log && IsRun(start, was) && IsRun(After(start, was), log[|was|..]) && FoundGood(After(start, was), log[|was|..], r, access)
  }

  lemma GivenSince(start: World, was: seq<Action>, log: seq<Action>, r: Holder, access: Pair)
    requires IsRun(start, was) && IsRun(start, log) && was <= log && r !in After(start, was).calls
    requires r in After(start, log).calls && After(start, log).calls[r].phase == Done(Given(access))
    ensures FoundGoodSince(start, was, log, r, access)
  {
    assert log == was + log[|was|..];
    RunSplits(start, was, log[|was|..]);
    GivenForAReason(After(start, was), log[|was|..], r, access);
  }

  class Deployment {
    var w: World
    ghost var start: World
    ghost var log: seq<Action>

    /** Everything so far is one run of the machine. */
    ghost predicate Ran()
      reads this
    {
      IsRun(start, log) && w == After(start, log)
    }

    constructor (w0: World)
      ensures w == w0 && start == w0 && log == [] && Ran()
    {
      w, start, log := w0, w0, [];
    }

    method Take(a: Action)
      requires Ran() && Can(w, a)
      modifies this
      ensures Ran() && w == Next(old(w), a) && start == old(start) && log == old(log) + [a]
    {
      RunThen(start, log, [a]);
      log := log + [a];
      w := Next(w, a);
    }

    /** The others' turn. What they do is not this renewal's to choose: callers know only that it is a run of theirs. */
    method OthersTurn(r: Holder) returns (ghost steps: seq<Action>)
      requires Ran()
      modifies this
      ensures Ran() && start == old(start) && log == old(log) + steps && OthersRan(old(w), w, r, steps)
    {
      steps := [];
    }

    method Await(r: Holder)
      requires Ran() && r in w.calls
      modifies this
      ensures Ran() && start == old(start) && old(log) <= log && old(w.now) <= w.now && w.app == old(w.app)
      ensures r in w.calls && LeftAlone(old(w.calls[r]), w.calls[r])
      ensures NoTrade(old(log), log, r)
    {
      ghost var steps := OthersTurn(r);
      OthersLeaveMine(old(w), w, r, steps);
    }

    /** An await of D1. A call that throws ends the renewal: only the new pair's own write is guarded against it. */
    method AwaitD1(r: Holder) returns (threw: bool)
      requires Ran() && r in w.calls && Can(w, Throw(r))
      modifies this
      ensures Ran() && start == old(start) && old(log) <= log && old(w.now) <= w.now && w.app == old(w.app) && r in w.calls
      ensures threw ==> w.calls[r] == old(w.calls[r]).(phase := Done(Threw))
      ensures !threw ==> w.calls[r] == old(w.calls[r])
      ensures NoTrade(old(log), log, r)
    {
      Await(r);
      threw := *;
      if threw { Take(Throw(r)); }
    }

    /** Whether GitHub says the token is dead: whatever it answers. */
    method AskGithub(r: Holder) returns (dead: bool)
      requires Ran() && r in w.calls && (w.calls[r].phase.Asking? || w.calls[r].phase.AskingAgain?)
      modifies this
      ensures Ran() && start == old(start) && old(log) <= log && old(w.now) <= w.now && w.app == old(w.app)
      ensures r in w.calls && (w.calls[r].why, w.calls[r].stale) == old((w.calls[r].why, w.calls[r].stale))
      ensures var p := old(w.calls[r].phase); w.calls[r].phase == match p
        case Asking(was, access) => if dead then Renewable(w, r, was) else Done(Given(access))
        case AskingAgain(was, access, until, era) => if dead then Armed(was, until, era) else Releasing(Given(access))
        case _ => p
      ensures NoTrade(old(log), log, r)
    {
      Await(r);
      dead := *;
      Take(Answered(r, dead));
    }

    method GiveBack(r: Holder) returns (out: Outcome)
      requires Ran() && r in w.calls && w.calls[r].phase.Releasing?
      modifies this
      ensures Ran() && start == old(start) && old(log) <= log
      ensures r in w.calls && w.calls[r].phase == Done(out) && (out == old(w.calls[r].phase.next) || out == Threw)
    {
      out := w.calls[r].phase.next;
      var threw := AwaitD1(r);
      if threw { return Threw; }
      Take(Release(r));
    }

    /** One try at the lease, as of when it was asked for: it may be held though the call that took it throws. */
    method TryToLease(r: Holder, was: Pair, deadline: int) returns (won: bool, out: Option<Outcome>)
      requires Ran() && r in w.calls && w.calls[r].phase == Leasing(was, deadline, w.now)
      modifies this
      ensures Ran() && start == old(start) && old(log) <= log && old(w.now) <= w.now && w.app == old(w.app) && r in w.calls
      ensures (w.calls[r].why, w.calls[r].stale) == old((w.calls[r].why, w.calls[r].stale))
      ensures out.Some? ==> w.calls[r].phase == Done(out.value)
      ensures out.None? ==> if won then w.calls[r].phase.Confirming? && w.calls[r].phase.was == was
                            else w.calls[r].phase == Waiting(was, deadline) && w.now <= deadline
    {
      var since := w.now;
      var threw := AwaitD1(r);
      if threw { return false, Some(Threw); }
      won := w.row.Some? && Lease(w.row.value, since, since + LEASE_MS, r).1;
      Take(TryLease(r));
      if !won { return false, if w.now > deadline then Some(LeaseTimeout) else None; }
      threw := AwaitD1(r);
      return true, if threw then Some(Threw) else None;
    }

    /** What whoever holds the lease has made of the connector, read a while later. */
    method LookAgain(r: Holder, was: Pair, deadline: int) returns (out: Option<Outcome>)
      requires Ran() && r in w.calls && w.calls[r].phase == Waiting(was, deadline)
      modifies this
      ensures Ran() && start == old(start) && old(log) <= log && old(w.now) + 250 <= w.now && w.app == old(w.app) && r in w.calls
      ensures (w.calls[r].why, w.calls[r].stale) == old((w.calls[r].why, w.calls[r].stale))
      ensures w.calls[r].phase == if out.Some? then Done(out.value) else Leasing(was, deadline, w.now)
    {
      Take(Tick(250));
      var threw := AwaitD1(r);
      if threw { return Some(Threw); }
      var again := w.Grant(r);
      Take(Poll(r));
      if again.None? { return Some(Gone); }
      if again.value.brokenAt.Some? { return Some(IsBroken); }
      if again.value.Current() != Some(was) { return Some(Given(again.value.access)); }
      return None;
    }

    /** Wins the lease, or gives up: the loop's own clock is the deadline. */
    method WinLease(r: Holder, was: Pair, deadline: int) returns (out: Option<Outcome>)
      requires Ran() && r in w.calls && w.calls[r].phase == Leasing(was, deadline, w.now)
      modifies this
      ensures Ran() && start == old(start) && old(log) <= log && w.app == old(w.app) && r in w.calls
      ensures (w.calls[r].why, w.calls[r].stale) == old((w.calls[r].why, w.calls[r].stale))
      ensures out.None? ==> w.calls[r].phase.Confirming? && w.calls[r].phase.was == was
      ensures out.Some? ==> w.calls[r].phase == Done(out.value)
    {
      while true
        invariant Ran() && start == old(start) && old(log) <= log && w.app == old(w.app) && r in w.calls
        invariant (w.calls[r].why, w.calls[r].stale) == old((w.calls[r].why, w.calls[r].stale))
        invariant w.calls[r].phase == Leasing(was, deadline, w.now)
        decreases deadline - w.now
      {
        var won: bool;
        won, out := TryToLease(r, was, deadline);
        if won || out.Some? { return; }
        out := LookAgain(r, was, deadline);
        if out.Some? { return; }
      }
    }

    /** The new pair's write, tried at most ROTATE_ATTEMPTS times; a write that throws may have landed all the same. */
    method StorePair(r: Holder) returns (out: Outcome)
      requires Ran() && r in w.calls && w.calls[r].phase.Storing? && w.calls[r].phase.attempt == 1
      modifies this
      ensures Ran() && start == old(start) && old(log) <= log && r in w.calls && w.calls[r].phase == Done(out)
      ensures var p := old(w.calls[r].phase); out == Rotated(p.was, p.minted, p.era) || out == Unstored(p.was, p.minted, p.era)
    {
      var p := w.calls[r].phase;
      var attempt := 1;
      while true
        invariant Ran() && start == old(start) && old(log) <= log && r in w.calls
        invariant 1 <= attempt <= ROTATE_ATTEMPTS && w.calls[r].phase == p.(attempt := attempt)
        decreases ROTATE_ATTEMPTS - attempt
      {
        Await(r);
        var committed, threw := *, *;
        if !threw { committed := true; }
        Take(Store(r, committed, threw));
        if !threw { return Rotated(p.was, p.minted, p.era); }
        if attempt >= ROTATE_ATTEMPTS { return Unstored(p.was, p.minted, p.era); }
        attempt := attempt + 1;
      }
    }

    /** GitHub refused the token: broken only if the connector still holds it. */
    method AfterRefusal(r: Holder, was: Pair) returns (out: Outcome)
      requires Ran() && r in w.calls && w.calls[r].phase == Looking(was)
      modifies this
      ensures Ran() && start == old(start) && old(log) <= log && r in w.calls && w.calls[r].phase == Done(out)
    {
      var threw := AwaitD1(r);
      if threw { return Threw; }
      var after := w.Grant(r);
      Take(Look(r));
      if after.Some? && after.value.refresh.Some? && after.value.Current() != Some(was) {
        out := GiveBack(r);
        return;
      }
      out := MarkOrSettle(r, was);
    }

    /** Marked over the token refused; or, where that changed nothing, what the connector holds now. */
    method MarkOrSettle(r: Holder, was: Pair) returns (out: Outcome)
      requires Ran() && r in w.calls && w.calls[r].phase == Marking(was)
      modifies this
      ensures Ran() && start == old(start) && old(log) <= log && r in w.calls && w.calls[r].phase == Done(out)
    {
      var threw := AwaitD1(r);
      if threw { return Threw; }
      var changed := w.row.Some? && MarkBroken(w.row.value, w.now, Some(r), Some(was)).1;
      Take(Mark(r));
      if changed { return IsBroken; }
      threw := AwaitD1(r);
      if threw { return Threw; }
      var now := w.Grant(r);
      Take(Settle(r));
      if now.Some? && now.value.brokenAt.None? && now.value.refresh.Some? && now.value.Current() != Some(was) { return Given(now.value.access); }
      if now.None? { return Gone; }
      return IsBroken;
    }

    /** The connector as it is at first: nothing to renew, or what has to be asked or done. */
    method LookFirst(r: Holder, why: Why, stale: Option<Pair>) returns (out: Option<Outcome>, need: Need, access: Pair)
      requires Ran() && r !in w.calls
      modifies this
      ensures Ran() && start == old(start) && NoTrade(old(log), log, r) && r in w.calls
      ensures (w.calls[r].why, w.calls[r].stale) == (why, stale)
      ensures out.Some? ==> w.calls[r].phase == Done(out.value) && !out.value.Rotated? && !out.value.Unstored?
      ensures out.None? && need.No? ==> w.calls[r].phase == Done(Given(access))
      ensures out.None? && need.Ask? ==> w.calls[r].phase.Asking? && w.calls[r].phase.access == access && !why.Adopt?
      ensures out.None? && need.Yes? ==> !why.Adopt? && if w.app then AtLease(r) else w.calls[r].phase == Done(NoCredentials)
    {
      Take(Begin(r, why, stale));
      access := 0;
      need := No;
      var threw := AwaitD1(r);
      if threw { return Some(Threw), need, access; }
      var k := w.Grant(r);
      need := if k.Some? then Needs(k.value, w.calls[r], w.now) else No;
      Take(Read(r));
      if k.None? { return Some(Gone), need, access; }
      if k.value.brokenAt.Some? { return Some(IsBroken), need, access; }
      return None, need, k.value.access;
    }

    /** About to try for the lease, as of now. */
    predicate AtLease(r: Holder)
      reads this
    {
      r in w.calls && w.calls[r].phase.Leasing? && w.calls[r].phase.since == w.now
    }

    /** The first reading: an answer at once, or the ciphertext to renew over. */
    method ReadFirst(r: Holder, why: Why, stale: Option<Pair>) returns (out: Option<Outcome>)
      requires Ran() && r !in w.calls
      modifies this
      ensures Ran() && start == old(start) && NoTrade(old(log), log, r) && r in w.calls
      ensures (w.calls[r].why, w.calls[r].stale) == (why, stale)
      ensures out.None? ==> AtLease(r) && !why.Adopt?
      ensures out.Some? ==> w.calls[r].phase == Done(out.value) && !out.value.Rotated? && !out.value.Unstored?
    {
      var need, access;
      out, need, access := LookFirst(r, why, stale);
      if out.Some? { return; }
      if need.Ask? {
        var dead := AskGithub(r);
        need := if dead then Yes else No;
      }
      if need.No? { return Some(Given(access)); }
      if !w.app { return Some(NoCredentials); }
      return None;
    }

    /** The reading under the lease: a renewal that finished in between is taken, not repeated. */
    method ReadAgain(r: Holder) returns (out: Option<Outcome>)
      requires Ran() && r in w.calls && w.calls[r].phase.Confirming?
      modifies this
      ensures Ran() && start == old(start) && old(log) <= log && r in w.calls
      ensures out.None? ==> w.calls[r].phase.Armed? && w.calls[r].phase.was == old(w.calls[r].phase.was)
      ensures out.Some? ==> w.calls[r].phase == Done(out.value)
    {
      var was := w.calls[r].phase.was;
      var threw := AwaitD1(r);
      if threw { return Some(Threw); }
      var k := w.Grant(r);
      var need := if k.Some? then Needs(k.value, w.calls[r], w.now) else No;
      Take(Confirm(r));
      if k.Some? && k.value.Current() == Some(was) && need.Ask? {
        var dead := AskGithub(r);
        need := if dead then Yes else No;
      }
      if k.None? || k.value.Current() != Some(was) || need.No? {
        var o := GiveBack(r);
        return Some(o);
      }
      return None;
    }

    /** The request and its answer, none when it did not come in time. */
    method Send(r: Holder) returns (answer: Answer)
      requires Ran() && r in w.calls && w.calls[r].phase.Armed?
      modifies this
      ensures Ran() && start == old(start) && old(log) <= log && r in w.calls
      ensures match answer
        case NewPair(pair, _) => w.calls[r].phase.Storing? && w.calls[r].phase.minted == pair && w.calls[r].phase.attempt == 1
        case Refused => w.calls[r].phase == Looking(old(w.calls[r].phase.was))
        case NoRefreshToken => w.calls[r].phase == Releasing(NotRenewed)
        case Unavailable => w.calls[r].phase == Releasing(NotRenewed)
    {
      Await(r);
      Take(Trade(r));
      Await(r);
      var lost: bool := *;
      if lost || w.calls[r].phase.answer.None? || !Open(w.calls[r].phase, w.now) {
        Take(Lose(r));
        return Unavailable;
      }
      answer := w.calls[r].phase.answer.value;
      Take(Receive(r));
    }

    /** The trade, and what becomes of its answer. */
    method TradeIt(r: Holder) returns (out: Outcome)
      requires Ran() && r in w.calls && w.calls[r].phase.Armed?
      modifies this
      ensures Ran() && start == old(start) && old(log) <= log && r in w.calls && w.calls[r].phase == Done(out)
    {
      var was := w.calls[r].phase.was;
      var answer := Send(r);
      match answer
      case NewPair(_, _) => out := StorePair(r);
      case Refused => out := AfterRefusal(r, was);
      case NoRefreshToken => out := GiveBack(r);
      case Unavailable => out := GiveBack(r);
    }

    /** One renewal, from its first reading to its answer, whatever the others do at each of its awaits. */
    method Renew(r: Holder, why: Why, stale: Option<Pair>) returns (out: Outcome)
      requires Ran() && r !in w.calls
      modifies this
      ensures Ran() && start == old(start) && old(log) <= log && r in w.calls && w.calls[r].phase == Done(out)
      ensures why.Adopt? ==> NoTrade(old(log), log, r) && !out.Rotated? && !out.Unstored?
      // A token is given as it is only where the connector, as read, shows why.
      ensures out.Given? ==> FoundGoodSince(start, old(log), log, r, out.access)
    {
      out := Run(r, why, stale);
      if out.Given? { GivenSince(start, old(log), log, r, out.access); }
    }

    method Run(r: Holder, why: Why, stale: Option<Pair>) returns (out: Outcome)
      requires Ran() && r !in w.calls
      modifies this
      ensures Ran() && start == old(start) && old(log) <= log && r in w.calls && w.calls[r].phase == Done(out)
      ensures why.Adopt? ==> NoTrade(old(log), log, r) && !out.Rotated? && !out.Unstored?
    {
      var stopped := ReadFirst(r, why, stale);
      if stopped.Some? { return stopped.value; }
      var p := w.calls[r].phase;
      stopped := WinLease(r, p.was, p.deadline);
      if stopped.Some? { return stopped.value; }
      stopped := ReadAgain(r);
      if stopped.Some? { return stopped.value; }
      out := TradeIt(r);
    }
  }
}
