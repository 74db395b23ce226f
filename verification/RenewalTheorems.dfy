/** The promises of the renewal protocol, over every run from a connector just made. */
module RenewalTheorems {
  import opened Wrappers
  import opened ConnectorRow
  import opened Renewal
  import opened RenewalSafety

  ghost predicate Reachable(w: World) {
    exists w0: World, steps :: Init(w0) && IsRun(w0, steps) && w == After(w0, steps)
  }

  lemma ReachableInv(w: World)
    requires Reachable(w)
    ensures Inv(w)
  {
    var w0: World, steps :| Init(w0) && IsRun(w0, steps) && w == After(w0, steps);
    InitInv(w0);
    RunInv(w0, steps);
  }

  // ---- the broken mark

  /** A connector marked broken holds a refresh token GitHub has refused, so never one GitHub still accepts. */
  lemma BrokenOnlyWhenRefused(w: World)
    requires Reachable(w) && w.row.Some? && w.row.value.brokenAt.Some?
    ensures w.Current().Some? && w.Current().value in w.refused && w.Current().value !in w.live
  {
    ReachableInv(w);
  }

  // ---- the chain

  /** Each pair of `path` was traded for the one after it. */
  ghost predicate Trades(w: World, path: seq<Pair>) {
    forall i: nat :: i + 1 < |path| ==> path[i] in w.traded && w.traded[path[i]] == path[i + 1]
  }

  /** The connector holds `pair`, or one reached from it by trades alone. */
  ghost predicate HeldOrTradedOn(w: World, pair: Pair) {
    exists path :: |path| > 0 && path[0] == pair && w.Current() == Some(path[|path| - 1]) && Trades(w, path)
  }

  lemma StoredIsHeld(w: World, pair: Pair)
    requires Chained(w) && InEra(w, pair)
    ensures HeldOrTradedOn(w, pair)
  {
    var i: nat :| w.base <= i < |w.stored| && w.stored[i] == pair;
    var path := w.stored[i..];
    forall j: nat | j + 1 < |path| ensures path[j] in w.traded && w.traded[path[j]] == path[j + 1] {
      assert Linked(w, i + j);
    }
    assert Trades(w, path);
  }

  /** Between reconnects what the connector has held is one chain, no pair twice: each was traded for exactly the next. */
  lemma StoredPairsFormOneChain(w: World)
    requires Reachable(w)
    ensures w.base <= |w.stored| && Trades(w, w.stored[w.base..])
    ensures w.Current().Some? ==> w.base < |w.stored| && w.stored[|w.stored| - 1] == w.Current().value
    ensures forall i, j :: 0 <= i < j < |w.stored| ==> w.stored[i] != w.stored[j]
  {
    ReachableInv(w);
    forall j: nat | j + 1 < |w.stored[w.base..]|
      ensures w.stored[w.base..][j] in w.traded && w.traded[w.stored[w.base..][j]] == w.stored[w.base..][j + 1]
    {
      assert Linked(w, w.base + j);
    }
  }

  // ---- a pair handed out

  /** Where the pair a renewal was handed may be once it has received it. */
  ghost predicate Accounted(w: World, r: Holder, minted: Pair) {
    && r in w.calls
    && match w.calls[r].phase
      case Storing(_, _, m, _, _) => m == minted
      case Done(Unstored(_, m, _)) => m == minted
      case Done(Rotated(_, m, era)) => m == minted && era <= w.era && (era == w.era ==> HeldOrTradedOn(w, minted))
      case _ => false
  }

  /** A step leaves the calls of others where they were. */
  lemma OthersStay(w: World, a: Action, r: Holder)
    requires Can(w, a) && r in w.calls && Actor(a) != Some(r)
    ensures r in Next(w, a).calls && Next(w, a).calls[r] == w.calls[r]
  {
  }

  lemma OwnStoringStays(w: World, a: Action, r: Holder)
    requires Can(w, a) && r in w.calls && Actor(a) == Some(r) && EndOk(w, w.calls[r].phase)
    requires Handed(w.calls[r].phase).Some? && !w.calls[r].phase.Trading?
    ensures var w' := Next(w, a); r in w'.calls && Handed(w'.calls[r].phase) == Handed(w.calls[r].phase) && !w'.calls[r].phase.Trading?
  {
    assert a.Store?;
  }

  lemma StoringStays(w: World, a: Action, r: Holder)
    requires Inv(w) && Can(w, a) && r in w.calls && Handed(w.calls[r].phase).Some? && !w.calls[r].phase.Trading?
    ensures var w' := Next(w, a); r in w'.calls && Handed(w'.calls[r].phase) == Handed(w.calls[r].phase) && !w'.calls[r].phase.Trading?
  {
    if Actor(a) == Some(r) {
      assert EndOk(w, w.calls[r].phase);
      OwnStoringStays(w, a, r);
    } else {
      OthersStay(w, a, r);
    }
  }

  lemma {:induction false} PairStays(w: World, steps: seq<Action>, r: Holder, minted: Pair)
    requires Inv(w) && IsRun(w, steps) && r in w.calls && Handed(w.calls[r].phase) == Some(minted) && !w.calls[r].phase.Trading?
    ensures Accounted(After(w, steps), r, minted)
    decreases |steps|
  {
    if steps == [] {
      var p := w.calls[r].phase;
      assert PhaseOk(w, p) && EndOk(w, p);
      if p.Done? && p.outcome.Rotated? && p.outcome.era == w.era {
        StoredIsHeld(w, minted);
      }
    } else {
      StepInv(w, steps[0]);
      StoringStays(w, steps[0], r);
      PairStays(Next(w, steps[0]), steps[1..], r, minted);
    }
  }

  /**
   * A pair a renewal received is never lost. Whatever else runs, and whichever writes throw before or after committing:
   * its write is still being tried, or the call ended carrying it, or the connector holds it or what it was traded on
   * for, or a reconnect or a removal has come since the renewal read the connector.
   */
  lemma PairNeverLost(w: World, steps: seq<Action>, r: Holder)
    requires Reachable(w) && r in w.calls && w.calls[r].phase.Storing? && IsRun(w, steps)
    ensures Accounted(After(w, steps), r, w.calls[r].phase.minted)
  {
    ReachableInv(w);
    PairStays(w, steps, r, w.calls[r].phase.minted);
  }

  // ---- two trades of one token

  /** The request went out soon enough for its timeout to fall within the lease it was won under. */
  predicate InTime(p: Phase) {
    p.Trading? && p.started < p.until - TOKEN_TIMEOUT_MS
  }

  /** One stored token is never out to GitHub twice at once, when both requests went out in time. */
  lemma TradesNeverOverlap(w: World, r: Holder, s: Holder)
    requires Reachable(w) && r in w.calls && s in w.calls && r != s
    requires InTime(w.calls[r].phase) && Open(w.calls[r].phase, w.now)
    requires InTime(w.calls[s].phase) && Open(w.calls[s].phase, w.now)
    ensures w.calls[r].phase.was != w.calls[s].phase.was
  {
    ReachableInv(w);
    if w.calls[r].phase.was == w.calls[s].phase.was {
      assert Holds(w, r, w.calls[r].phase.was) && Holds(w, s, w.calls[r].phase.was);
      assert false;
    }
  }

  // ---- a renewal overtaken

  /** A renewal that has read the connector: asking about its token, at or waiting for the lease, or past it. */
  predicate Past(p: Phase) {
    !p.Reading?
  }

  /** The connector no longer holds the pair this renewal set out to trade. */
  ghost predicate Overtaken(w: World, r: Holder, was: Pair) {
    && r in w.calls && Past(w.calls[r].phase) && was in w.stored && w.Current() != Some(was)
    && (Was(w.calls[r].phase).Some? ==> Was(w.calls[r].phase) == Some(was))
  }

  lemma StoreGrows(w: World, a: Action)
    requires Inv(w) && Can(w, a) && a.Store?
    ensures var w' := Next(w, a); w.stored <= w'.stored
    ensures var w' := Next(w, a); w'.Current().Some? && w'.Current() != w.Current() ==> w'.Current().value !in w.stored
  {
    assert PhaseOk(w, w.calls[a.r].phase);
  }

  lemma ReconnectGrowsStored(w: World, a: Action)
    requires Bounded(w) && Can(w, a) && a.ReconnectIt?
    ensures var w' := Next(w, a); w.stored <= w'.stored
    ensures var w' := Next(w, a); w'.Current().Some? && w'.Current() != w.Current() ==> w'.Current().value !in w.stored
  {
  }

  lemma OthersStoreNothing(w: World, a: Action)
    requires Can(w, a) && !a.Store? && !a.ReconnectIt?
    ensures var w' := Next(w, a); w.stored == w'.stored && (w'.Current() == w.Current() || w'.Current().None?)
  {
  }

  lemma StoredGrows(w: World, a: Action)
    requires Inv(w) && Can(w, a)
    ensures var w' := Next(w, a); w.stored <= w'.stored
    ensures var w' := Next(w, a); w'.Current().Some? && w'.Current() != w.Current() ==> w'.Current().value !in w.stored
  {
    if a.Store? { StoreGrows(w, a); } else if a.ReconnectIt? { ReconnectGrowsStored(w, a); } else { OthersStoreNothing(w, a); }
  }

  lemma OwnPastStays(w: World, a: Action, r: Holder)
    requires Can(w, a) && r in w.calls && Past(w.calls[r].phase) && Actor(a) == Some(r)
    ensures r in Next(w, a).calls && Past(Next(w, a).calls[r].phase)
    ensures Was(Next(w, a).calls[r].phase).Some? ==> Was(Next(w, a).calls[r].phase) == Was(w.calls[r].phase)
  {
  }

  lemma PastStays(w: World, a: Action, r: Holder)
    requires Can(w, a) && r in w.calls && Past(w.calls[r].phase)
    ensures r in Next(w, a).calls && Past(Next(w, a).calls[r].phase)
    ensures Was(Next(w, a).calls[r].phase).Some? ==> Was(Next(w, a).calls[r].phase) == Was(w.calls[r].phase)
  {
    if Actor(a) == Some(r) { OwnPastStays(w, a, r); } else { OthersStay(w, a, r); }
  }

  lemma OvertakenOneStep(w: World, a: Action, r: Holder, was: Pair)
    requires Inv(w) && Can(w, a) && Overtaken(w, r, was)
    ensures Overtaken(Next(w, a), r, was)
  {
    StoredGrows(w, a);
    PastStays(w, a, r);
    assert was in w.stored ==> was in Next(w, a).stored;
  }

  lemma {:induction false} OvertakenStays(w: World, steps: seq<Action>, r: Holder, was: Pair)
    requires Inv(w) && IsRun(w, steps) && Overtaken(w, r, was)
    ensures Overtaken(After(w, steps), r, was)
    decreases |steps|
  {
    if steps != [] {
      StepInv(w, steps[0]);
      OvertakenOneStep(w, steps[0], r, was);
      OvertakenStays(Next(w, steps[0]), steps[1..], r, was);
    }
  }

  /** What a reader of the connector would be given: the pair and the broken mark. */
  predicate SameConnector(a: Option<Row>, b: Option<Row>) {
    && a.Some? == b.Some?
    && (a.Some? ==> (a.value.access, a.value.refresh) == (b.value.access, b.value.refresh))
    && (a.Some? ==> (a.value.refreshedAt, a.value.brokenAt) == (b.value.refreshedAt, b.value.brokenAt))
  }

  /** The step takes the lease, which is free. */
  predicate WinsLease(w: World, a: Action) {
    && a.TryLease? && Can(w, a) && w.row.Some?
    && var since := w.calls[a.r].phase.since; Lease(w.row.value, since, since + LEASE_MS, a.r).1
  }

  lemma OvertakenStep(w: World, a: Action, r: Holder, was: Pair)
    requires Inv(w) && Can(w, a) && Overtaken(w, r, was) && Actor(a) == Some(r)
    ensures SameConnector(w.row, Next(w, a).row)
    ensures w.row.Some? && w.row.value.holder != Some(r) ==> Next(w, a).row == w.row || WinsLease(w, a)
  {
  }

  /**
   * Once the connector has moved to another pair (a reconnect, a removal), nothing the overtaken renewal still does
   * changes the pair or the broken mark, nor a lease that is not its own or free, however the run goes on.
   */
  lemma OvertakenChangesNothing(w: World, steps: seq<Action>, a: Action, r: Holder, was: Pair)
    requires Reachable(w) && Overtaken(w, r, was) && IsRun(w, steps) && Can(After(w, steps), a) && Actor(a) == Some(r)
    ensures var v := After(w, steps); SameConnector(v.row, Next(v, a).row)
    ensures var v := After(w, steps); v.row.Some? && v.row.value.holder != Some(r) ==> Next(v, a).row == v.row || WinsLease(v, a)
  {
    ReachableInv(w);
    RunInv(w, steps);
    OvertakenStays(w, steps, r, was);
    OvertakenStep(After(w, steps), a, r, was);
  }

  /** Not past the reading under the lease, or ended with nothing traded. */
  predicate Early(p: Phase) {
    match p
    case Reading => true
    case Asking(_, _) => true
    case Leasing(_, _, _) => true
    case Waiting(_, _) => true
    case Confirming(_, _) => true
    case Releasing(o) => OutcomeSpent(o).None?
    case Done(o) => OutcomeSpent(o).None?
    case _ => false
  }

  lemma OwnEarlyStep(w: World, a: Action, r: Holder, was: Pair)
    requires Can(w, a) && Overtaken(w, r, was) && Early(w.calls[r].phase) && Actor(a) == Some(r)
    ensures r in Next(w, a).calls && Early(Next(w, a).calls[r].phase)
  {
  }

  lemma EarlyStep(w: World, a: Action, r: Holder, was: Pair)
    requires Can(w, a) && Overtaken(w, r, was) && Early(w.calls[r].phase)
    ensures r in Next(w, a).calls && Early(Next(w, a).calls[r].phase)
  {
    if Actor(a) == Some(r) { OwnEarlyStep(w, a, r, was); } else { OthersStay(w, a, r); }
  }

  /** One overtaken before it has read the connector under its lease never trades, however the run goes on. */
  lemma {:induction false} OvertakenEarlyNeverTrades(w: World, steps: seq<Action>, r: Holder, was: Pair)
    requires Inv(w) && IsRun(w, steps) && Overtaken(w, r, was) && Early(w.calls[r].phase)
    ensures r in After(w, steps).calls && Early(After(w, steps).calls[r].phase)
    decreases |steps|
  {
    if steps != [] {
      EarlyStep(w, steps[0], r, was);
      StepInv(w, steps[0]);
      OvertakenOneStep(w, steps[0], r, was);
      OvertakenEarlyNeverTrades(Next(w, steps[0]), steps[1..], r, was);
    }
  }

  /** A reconnect overtakes every renewal that has read the connector; one that has not will read the new pair. */
  lemma ReconnectOvertakes(w: World, a: Action, r: Holder)
    requires Reachable(w) && Can(w, a) && a.ReconnectIt? && Next(w, a).era != w.era
    requires r in w.calls && Was(w.calls[r].phase).Some?
    ensures Overtaken(Next(w, a), r, Was(w.calls[r].phase).value)
    ensures Early(w.calls[r].phase) ==> Early(Next(w, a).calls[r].phase)
  {
    ReachableInv(w);
    assert PhaseOk(w, w.calls[r].phase);
    StoredGrows(w, a);
    assert forall t :: t in w.stored ==> t in Next(w, a).stored;
  }
}
