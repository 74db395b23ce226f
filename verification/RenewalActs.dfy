// When a renewal has to act: an access token is given as it is only for a reason the row itself shows, and a renewal that
// nothing disturbs trades exactly when the row, the call and GitHub's word on the token ask for it.
module RenewalActs {
  import opened Wrappers
  import opened ConnectorRow
  import opened Renewal

  // ---- a token given as it is

  /** The access token a call gives, or will if GitHub does not call it dead. */
  function Offered(p: Phase): Option<Pair> {
    match p
    case Asking(_, access) => Some(access)
    case AskingAgain(_, access, _, _) => Some(access)
    case Releasing(o) => if o.Given? then Some(o.access) else None
    case Done(o) => if o.Given? then Some(o.access) else None
    case _ => None
  }

  /** The ciphertext a call set out with, once it has read one. */
  function SetOut(p: Phase): Option<Pair> {
    if p.Reading? || p.Releasing? || p.Done? then None else Some(p.was)
  }

  /** By its own fields: nothing renews the row's token, or it has five minutes left. */
  predicate Lasting(k: Row, now: int) {
    k.refresh.None? || k.refresh.value.expiresAt.None? || k.refresh.value.expiresAt.value - now > 5 * 60_000
  }

  /** The step reads the connector and finds this token: one that lasts, or all there is to adopt, or another's new one. */
  predicate FindsGood(w: World, a: Action, r: Holder, access: Pair) {
    && Actor(a) == Some(r) && r in w.calls && r !in w.barred && w.row.Some? && w.row.value.access == access
    && var k, c := w.row.value, w.calls[r];
       if a.Read? then c.why.Adopt? || Lasting(k, w.now)
       else if a.Confirm? then Lasting(k, w.now) || c.why.Adopt? || k.Current() != SetOut(c.phase)
       else (a.Poll? || a.Look? || a.Settle?) && k.Current() != SetOut(c.phase)
  }

  lemma OfferedStep(w: World, a: Action, r: Holder)
    requires Can(w, a) && Actor(a) == Some(r) && r in Next(w, a).calls && Offered(Next(w, a).calls[r].phase).Some?
    ensures var x := Offered(Next(w, a).calls[r].phase);
            (r in w.calls && Offered(w.calls[r].phase) == x) || FindsGood(w, a, r, x.value)
  {
  }

  lemma OthersOffer(w: World, a: Action, r: Holder)
    requires Can(w, a) && Actor(a) != Some(r) && r in Next(w, a).calls
    ensures r in w.calls && w.calls[r] == Next(w, a).calls[r]
  {
  }

  /** Somewhere in the run the call found this token good. */
  ghost predicate FoundGood(w: World, steps: seq<Action>, r: Holder, access: Pair)
    requires IsRun(w, steps)
    decreases |steps|
  {
    steps != [] && (FindsGood(w, steps[0], r, access) || FoundGood(Next(w, steps[0]), steps[1..], r, access))
  }

  lemma {:induction false} OfferedForAReason(w: World, steps: seq<Action>, r: Holder)
    requires IsRun(w, steps) && r in After(w, steps).calls && Offered(After(w, steps).calls[r].phase).Some?
    ensures var x := Offered(After(w, steps).calls[r].phase);
            (r in w.calls && Offered(w.calls[r].phase) == x) || FoundGood(w, steps, r, x.value)
    decreases |steps|
  {
    if steps != [] {
      var w' := Next(w, steps[0]);
      OfferedForAReason(w', steps[1..], r);
      if r in w'.calls && Offered(w'.calls[r].phase) == Offered(After(w, steps).calls[r].phase) {
        if Actor(steps[0]) == Some(r) { OfferedStep(w, steps[0], r); } else { OthersOffer(w, steps[0], r); }
      }
    }
  }

  /**
   * A call that ends with a token given, however the run went, found it good when it read the connector: nothing renews it,
   * it was being adopted, it had more than five minutes left, or it was another pair than the one the call set out with.
   */
  lemma GivenForAReason(w: World, steps: seq<Action>, r: Holder, access: Pair)
    requires r !in w.calls && IsRun(w, steps) && r in After(w, steps).calls && After(w, steps).calls[r].phase == Done(Given(access))
    ensures FoundGood(w, steps, r, access)
  {
    OfferedForAReason(w, steps, r);
  }

  // ---- a renewal nothing disturbs

  /** A healthy connector nobody is renewing, and a deployment that can. */
  predicate Undisturbed(w: World, r: Holder) {
    && r !in w.calls && r !in w.barred && w.app && w.row.Some? && w.row.value.brokenAt.None?
    && (w.row.value.until.None? || w.row.value.until.value <= w.now)
  }

  /** GitHub refused the very token stored, which was not renewed within the last minute. */
  predicate Doubtful(k: Row, why: Why, stale: Option<Pair>, now: int) {
    why.Rejected? && stale == Some(k.access) && (k.refreshedAt.Some? ==> now - k.refreshedAt.value >= 60_000)
  }

  /** By the row's own fields: it has at most five minutes left, or is doubtful and GitHub calls the token dead. */
  predicate Ripe(k: Row, why: Why, stale: Option<Pair>, now: int, dead: bool) {
    && k.refresh.Some? && !why.Adopt?
    && ((k.refresh.value.expiresAt.Some? && k.refresh.value.expiresAt.value - now <= 5 * 60_000) || (Doubtful(k, why, stale, now) && dead))
  }

  /** Nothing but the renewal's own steps, GitHub's word on the token being this. */
  predicate Alone(steps: seq<Action>, r: Holder, dead: bool) {
    forall i :: 0 <= i < |steps| ==> Own(steps[i], r, dead)
  }

  predicate Own(a: Action, r: Holder, dead: bool) {
    Actor(a) == Some(r) && !a.Decide? && (a.Answered? ==> a.dead == dead)
  }

  /** Where such a renewal can be, the connector being as it was but for the lease. */
  predicate PhaseFits(p: Phase, memo: Option<bool>, k: Row, why: Why, stale: Option<Pair>, now: int, dead: bool) {
    var ripe := Ripe(k, why, stale, now, dead);
    var asking := k.refresh.Some? && Lasting(k, now) && Doubtful(k, why, stale, now);
    match p
    case Reading => memo.None?
    case Asking(was, access) => asking && k.Current() == Some(was) && access == k.access
    case Leasing(was, _, since) => ripe && k.Current() == Some(was) && since == now
    case Confirming(was, _) => ripe && k.Current() == Some(was) && (memo.None? ==> !Lasting(k, now))
    case Armed(_, _, _) => ripe
    case Trading(_, _, _, _, answer) => ripe && answer.None?
    case Releasing(o) => EndFits(o, k, ripe)
    case Done(o) => EndFits(o, k, ripe)
    case _ => false
  }

  predicate EndFits(o: Outcome, k: Row, ripe: bool) {
    o.Threw? || if ripe then o.NotRenewed? else o == Given(k.access)
  }

  predicate SameButLease(k: Row, k': Row) {
    k' == k.(until := k'.until, holder := k'.holder)
  }

  predicate Fits(w: World, v: World, r: Holder, why: Why, stale: Option<Pair>, dead: bool)
    requires w.row.Some?
  {
    && v.now == w.now && v.app && r !in v.barred && v.row.Some? && SameButLease(w.row.value, v.row.value) && r in v.calls
    && var c := v.calls[r];
       && (c.why, c.stale) == (why, stale) && (c.dead.Some? ==> c.dead.value == dead)
       && (c.phase.Leasing? && c.dead.None? ==> !Lasting(w.row.value, w.now))
       && (c.phase.Reading? || c.phase.Asking? || c.phase.Leasing? ==> v.row.value.until.None? || v.row.value.until.value <= v.now)
       && PhaseFits(c.phase, c.dead, w.row.value, why, stale, w.now, dead)
  }

  lemma FitsStep(w: World, v: World, a: Action, r: Holder, why: Why, stale: Option<Pair>, dead: bool)
    requires w.row.Some? && w.row.value.brokenAt.None? && Fits(w, v, r, why, stale, dead) && Can(v, a) && Own(a, r, dead)
    ensures Fits(w, Next(v, a), r, why, stale, dead)
  {
  }

  lemma {:induction false} FitsRun(w: World, v: World, steps: seq<Action>, r: Holder, why: Why, stale: Option<Pair>, dead: bool)
    requires w.row.Some? && w.row.value.brokenAt.None? && Fits(w, v, r, why, stale, dead) && IsRun(v, steps) && Alone(steps, r, dead)
    ensures Fits(w, After(v, steps), r, why, stale, dead)
    decreases |steps|
  {
    if steps != [] {
      assert Own(steps[0], r, dead);
      FitsStep(w, v, steps[0], r, why, stale, dead);
      FitsRun(w, Next(v, steps[0]), steps[1..], r, why, stale, dead);
    }
  }

  lemma Begins(w: World, r: Holder, why: Why, stale: Option<Pair>, dead: bool)
    requires Undisturbed(w, r)
    ensures Can(w, Begin(r, why, stale)) && Fits(w, Next(w, Begin(r, why, stale)), r, why, stale, dead)
  {
  }

  /** From its beginning, on its own, the call comes to send its request. */
  ghost predicate Trades(w: World, r: Holder, why: Why, stale: Option<Pair>, dead: bool)
    requires Can(w, Begin(r, why, stale))
  {
    exists steps :: IsRun(Next(w, Begin(r, why, stale)), steps) && Alone(steps, r, dead)
                    && r in After(Next(w, Begin(r, why, stale)), steps).calls
                    && After(Next(w, Begin(r, why, stale)), steps).calls[r].phase.Trading?
  }

  lemma Then(v: World, a: Action, rest: seq<Action>, r: Holder, dead: bool)
    requires Can(v, a) && IsRun(Next(v, a), rest) && Own(a, r, dead) && Alone(rest, r, dead)
    ensures IsRun(v, [a] + rest) && After(v, [a] + rest) == After(Next(v, a), rest) && Alone([a] + rest, r, dead)
  {
    assert ([a] + rest)[1..] == rest;
  }

  /** At the lease, which is free: the lease, the reading under it, the request. */
  lemma FromLease(w: World, v: World, r: Holder, why: Why, stale: Option<Pair>, dead: bool) returns (steps: seq<Action>)
    requires w.row.Some? && w.row.value.brokenAt.None? && Fits(w, v, r, why, stale, dead) && v.calls[r].phase.Leasing?
    ensures IsRun(v, steps) && Alone(steps, r, dead) && r in After(v, steps).calls && After(v, steps).calls[r].phase.Trading?
  {
    var v1 := Next(v, TryLease(r));
    assert v1.calls[r].phase.Confirming?;
    FitsStep(w, v, TryLease(r), r, why, stale, dead);
    var v2 := Next(v1, Confirm(r));
    assert v2.calls[r].phase.Armed?;
    Then(v2, Trade(r), [], r, dead);
    Then(v1, Confirm(r), [Trade(r)] + [], r, dead);
    Then(v, TryLease(r), [Confirm(r)] + ([Trade(r)] + []), r, dead);
    steps := [TryLease(r)] + ([Confirm(r)] + ([Trade(r)] + []));
  }

  lemma RipeTrades(w: World, r: Holder, why: Why, stale: Option<Pair>, dead: bool) returns (steps: seq<Action>)
    requires Undisturbed(w, r) && Ripe(w.row.value, why, stale, w.now, dead)
    ensures IsRun(Next(w, Begin(r, why, stale)), steps) && Alone(steps, r, dead)
    ensures var v := After(Next(w, Begin(r, why, stale)), steps); r in v.calls && v.calls[r].phase.Trading?
  {
    var v0 := Next(w, Begin(r, why, stale));
    Begins(w, r, why, stale, dead);
    var v1 := Next(v0, Read(r));
    FitsStep(w, v0, Read(r), r, why, stale, dead);
    if v1.calls[r].phase.Leasing? {
      var rest := FromLease(w, v1, r, why, stale, dead);
      Then(v0, Read(r), rest, r, dead);
      steps := [Read(r)] + rest;
    } else {
      assert v1.calls[r].phase.Asking?;
      var v2 := Next(v1, Answered(r, dead));
      FitsStep(w, v1, Answered(r, dead), r, why, stale, dead);
      var rest := FromLease(w, v2, r, why, stale, dead);
      Then(v1, Answered(r, dead), rest, r, dead);
      Then(v0, Read(r), [Answered(r, dead)] + rest, r, dead);
      steps := [Read(r)] + ([Answered(r, dead)] + rest);
    }
  }

  /**
   * A renewal that nothing disturbs comes to trade exactly when the token has at most five minutes left, or was refused by
   * GitHub as it is stored, was not renewed within the last minute, and GitHub calls it dead.
   */
  lemma TradesExactlyWhen(w: World, r: Holder, why: Why, stale: Option<Pair>, dead: bool)
    requires Undisturbed(w, r)
    ensures Can(w, Begin(r, why, stale)) && (Trades(w, r, why, stale, dead) <==> Ripe(w.row.value, why, stale, w.now, dead))
  {
    Begins(w, r, why, stale, dead);
    var v0 := Next(w, Begin(r, why, stale));
    if Ripe(w.row.value, why, stale, w.now, dead) {
      var steps := RipeTrades(w, r, why, stale, dead);
    }
    if Trades(w, r, why, stale, dead) {
      var steps :| IsRun(v0, steps) && Alone(steps, r, dead) && r in After(v0, steps).calls && After(v0, steps).calls[r].phase.Trading?;
      FitsRun(w, v0, steps, r, why, stale, dead);
    }
  }

  /** And it never ends otherwise but by a throw: with the token as it is where nothing is to be done, with none where it is. */
  lemma EndsAsItMust(w: World, r: Holder, why: Why, stale: Option<Pair>, dead: bool, steps: seq<Action>)
    requires Undisturbed(w, r) && Can(w, Begin(r, why, stale)) && IsRun(Next(w, Begin(r, why, stale)), steps) && Alone(steps, r, dead)
    ensures var v, k := After(Next(w, Begin(r, why, stale)), steps), w.row.value;
            r in v.calls && (v.calls[r].phase.Done? ==> EndFits(v.calls[r].phase.outcome, k, Ripe(k, why, stale, w.now, dead)))
  {
    Begins(w, r, why, stale, dead);
    FitsRun(w, Next(w, Begin(r, why, stale)), steps, r, why, stale, dead);
  }

  // ---- what comes of the request

  /** The pair GitHub hands out is stored over the one spent, with its expiry and the time, and the call's own lease ends. */
  lemma HandedOutIsStored(w: World, r: Holder)
    requires r in w.calls && Open(w.calls[r].phase, w.now) && w.calls[r].phase.answer.Some? && w.calls[r].phase.answer.value.NewPair?
    requires w.row.Some? && w.row.value.refresh.Some? && w.row.value.refresh.value.pair == w.calls[r].phase.was
    ensures Can(w, Receive(r)) && Can(Next(w, Receive(r)), Store(r, true, false))
    ensures var v, handed := Next(Next(w, Receive(r)), Store(r, true, false)), w.calls[r].phase.answer.value;
            && v.row.Some? && v.row.value.access == handed.pair && v.row.value.refresh == Some(Refresh(handed.pair, Some(handed.expiresAt)))
            && v.row.value.refreshedAt == Some(w.now) && v.row.value.brokenAt.None?
            && (w.row.value.holder == Some(r) ==> v.row.value.until.None? && v.row.value.holder.None?)
            && v.calls[r].phase == Done(Rotated(w.calls[r].phase.was, handed.pair, w.calls[r].phase.era))
  {
  }

  /** A refusal over the token still stored marks the connector broken, and the call's own lease ends. */
  lemma RefusedIsMarked(w: World, r: Holder)
    requires r in w.calls && Open(w.calls[r].phase, w.now) && w.calls[r].phase.answer == Some(Refused) && r !in w.barred
    requires w.row.Some? && w.row.value.brokenAt.None? && w.row.value.refresh.Some? && w.row.value.refresh.value.pair == w.calls[r].phase.was
    ensures Can(w, Receive(r)) && Can(Next(w, Receive(r)), Look(r)) && Can(Next(Next(w, Receive(r)), Look(r)), Mark(r))
    ensures var v := Next(Next(Next(w, Receive(r)), Look(r)), Mark(r));
            && v.row.Some? && v.row.value.brokenAt == Some(w.now) && v.row.value.refresh == w.row.value.refresh
            && (w.row.value.holder == Some(r) ==> v.row.value.until.None? && v.row.value.holder.None?)
            && v.calls[r].phase == Done(IsBroken)
  {
  }

  // ---- the lease, and the ways out

  /** A free lease is taken for half a minute from when it was asked; a held one is waited for, up to the call's deadline. */
  lemma LeaseIsTakenOrWaitedFor(w: World, r: Holder)
    requires Can(w, TryLease(r)) && w.row.Some?
    ensures var (w', k, p) := (Next(w, TryLease(r)), w.row.value, w.calls[r].phase);
            && r in w'.calls
            && (k.until.None? || k.until.value <= p.since ==>
                  w'.row == Some(k.(until := Some(p.since + 30_000), holder := Some(r))) && w'.calls[r].phase == Confirming(p.was, p.since + 30_000))
            && (k.until.Some? && k.until.value > p.since ==>
                  w'.row == w.row && w'.calls[r].phase == if w.now > p.deadline then Done(LeaseTimeout) else Waiting(p.was, p.deadline))
  {
  }

  /** What a waiting call finds: nothing, a broken connector, another's new pair, or the same again to try for. */
  lemma WaitingFinds(w: World, r: Holder)
    requires Can(w, Poll(r))
    ensures var (w', p) := (Next(w, Poll(r)), w.calls[r].phase);
            && w'.row == w.row && r in w'.calls
            && w'.calls[r].phase ==
                 if r in w.barred || w.row.None? then Done(Gone)
                 else if w.row.value.brokenAt.Some? then Done(IsBroken)
                 else if w.row.value.refresh.None? || w.row.value.refresh.value.pair != p.was then Done(Given(w.row.value.access))
                 else Leasing(p.was, p.deadline, w.now)
  {
  }

  /** A write that throws is tried three times; then the call ends with the pair in hand, its lease left as it was. */
  lemma WriteIsTriedThrice(w: World, r: Holder)
    requires Can(w, Store(r, false, true))
    ensures var (w', p) := (Next(w, Store(r, false, true)), w.calls[r].phase);
            && w'.row == w.row && r in w'.calls
            && w'.calls[r].phase == if p.attempt < 3 then p.(attempt := p.attempt + 1) else Done(Unstored(p.was, p.minted, p.era))
  {
  }

  /** No answer, or one with nothing to store, gives the call's own lease back and renews nothing. */
  lemma NoAnswerGivesBack(w: World, r: Holder)
    requires Can(w, Lose(r)) && w.row.Some?
    ensures Can(Next(w, Lose(r)), Release(r))
    ensures var w' := Next(Next(w, Lose(r)), Release(r));
            && r in w'.calls && w'.calls[r].phase == Done(NotRenewed)
            && w'.row == Some(if w.row.value.holder == Some(r) then w.row.value.(until := None, holder := None) else w.row.value)
  {
  }

  /** After a refusal, another's new pair is given, with the call's own lease given back. */
  lemma RefusedFindsTheNew(w: World, r: Holder)
    requires Can(w, Look(r)) && r !in w.barred && w.row.Some? && w.row.value.refresh.Some?
    requires w.row.value.refresh.value.pair != w.calls[r].phase.was
    ensures Can(Next(w, Look(r)), Release(r))
    ensures var w' := Next(Next(w, Look(r)), Release(r)); r in w'.calls && w'.calls[r].phase == Done(Given(w.row.value.access))
  {
  }

  /** When the mark changed nothing: another's new pair is given, a connector gone is gone, and any other is broken. */
  lemma UnmarkedFinds(w: World, r: Holder)
    requires Can(w, Settle(r))
    ensures var (w', p) := (Next(w, Settle(r)), w.calls[r].phase);
            && w'.row == w.row && r in w'.calls
            && w'.calls[r].phase == Done(
                 if r in w.barred || w.row.None? then Gone
                 else if w.row.value.brokenAt.None? && w.row.value.refresh.Some? && w.row.value.refresh.value.pair != p.was
                 then Given(w.row.value.access) else IsBroken)
  {
  }

  /** A first reading that has to renew leads to the lease at once, to be tried for as long as a lease lasts and five seconds. */
  lemma RipeSetsOut(w: World, r: Holder)
    requires Can(w, Read(r)) && r !in w.barred && w.app && w.row.Some? && w.row.value.brokenAt.None? && w.row.value.refresh.Some?
    requires !w.calls[r].why.Adopt? && w.row.value.refresh.value.expiresAt.Some?
    requires w.row.value.refresh.value.expiresAt.value - w.now <= 5 * 60_000
    ensures r in Next(w, Read(r)).calls
    ensures Next(w, Read(r)).calls[r].phase == Leasing(w.row.value.refresh.value.pair, w.now + 35_000, w.now)
  {
  }

  /** An answer is received while it is within the request's time, 25 seconds, and then only. */
  lemma AnswerInTime(w: World, r: Holder)
    requires r in w.calls && w.calls[r].phase.Trading? && w.calls[r].phase.answer.Some?
    ensures Can(w, Receive(r)) <==> w.now - w.calls[r].phase.started <= 25_000
  {
  }
}
