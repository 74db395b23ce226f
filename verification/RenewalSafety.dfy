/** What every run of the renewals of a connector keeps, and what follows for the pairs GitHub hands out. */
module RenewalSafety {
  import opened Wrappers
  import opened ConnectorRow
  import opened Renewal

  // ---- what a phase carries

  function OutcomeSpent(o: Outcome): Option<Pair> {
    match o
    case Rotated(spent, _, _) => Some(spent)
    case Unstored(spent, _, _) => Some(spent)
    case _ => None
  }

  function OutcomeMinted(o: Outcome): Option<Pair> {
    match o
    case Rotated(_, minted, _) => Some(minted)
    case Unstored(_, minted, _) => Some(minted)
    case _ => None
  }

  function OutcomeEra(o: Outcome): Option<nat> {
    match o
    case Rotated(_, _, era) => Some(era)
    case Unstored(_, _, era) => Some(era)
    case _ => None
  }

  /** The pair a renewal found stored and means to trade, or has traded. */
  function Was(p: Phase): Option<Pair> {
    match p
    case Reading => None
    case Releasing(o) => OutcomeSpent(o)
    case Done(o) => OutcomeSpent(o)
    case _ => Some(p.was)
  }

  /** The pair GitHub handed this renewal. */
  function Handed(p: Phase): Option<Pair> {
    match p
    case Trading(_, _, _, _, answer) => if answer.Some? && answer.value.NewPair? then Some(answer.value.pair) else None
    case Storing(_, _, minted, _, _) => Some(minted)
    case Releasing(o) => OutcomeMinted(o)
    case Done(o) => OutcomeMinted(o)
    case _ => None
  }

  /** The connector's era when the renewal read it under its lease. */
  function Era(p: Phase): Option<nat> {
    match p
    case AskingAgain(_, _, _, era) => Some(era)
    case Armed(_, _, era) => Some(era)
    case Trading(_, _, era, _, _) => Some(era)
    case Storing(_, era, _, _, _) => Some(era)
    case Releasing(o) => OutcomeEra(o)
    case Done(o) => OutcomeEra(o)
    case _ => None
  }

  /** The end of the lease a renewal works under. */
  function Window(p: Phase): Option<int> {
    match p
    case Confirming(_, until) => Some(until)
    case AskingAgain(_, _, until, _) => Some(until)
    case Armed(_, until, _) => Some(until)
    case Trading(_, until, _, _, _) => Some(until)
    case _ => None
  }

  predicate SawRefusal(p: Phase) {
    match p
    case Trading(_, _, _, _, answer) => answer == Some(Refused)
    case Looking(_) => true
    case Marking(_) => true
    case Settling(_) => true
    case _ => false
  }

  // ---- the invariant

  /** `pair` has been stored since the last reconnect or removal. */
  ghost predicate InEra(w: World, pair: Pair) {
    exists i: nat :: w.base <= i < |w.stored| && w.stored[i] == pair
  }

  ghost predicate Bounded(w: World) {
    && (forall i :: 0 <= i < |w.stored| ==> w.stored[i] < w.next)
    && (forall t :: t in w.live ==> t < w.next)
    && (forall t :: t in w.traded ==> t < w.next && w.traded[t] < w.next)
  }

  /** The pair stored after the i-th was what the i-th was traded for. */
  ghost predicate Linked(w: World, i: nat)
    requires i + 1 < |w.stored|
  {
    w.stored[i] in w.traded && w.traded[w.stored[i]] == w.stored[i + 1]
  }

  /** The row holds the last pair stored, and each pair of this era was traded for the one stored after it. */
  ghost predicate Chained(w: World) {
    && w.base <= |w.stored|
    && (w.Current().Some? ==> w.base < |w.stored| && w.Current() == Some(w.stored[|w.stored| - 1]))
    && (w.Current().None? ==> w.base == |w.stored|)
    && (forall i, j :: 0 <= i < j < |w.stored| ==> w.stored[i] != w.stored[j])
    && (forall i: nat :: w.base <= i && i + 1 < |w.stored| ==> Linked(w, i))
  }

  /** A refresh token is traded once, and one GitHub refused is never accepted again. */
  ghost predicate SingleUse(w: World) {
    && (forall t :: t in w.traded ==> t !in w.live)
    && (forall t :: t in w.refused ==> t !in w.live && t < w.next)
  }

  ghost predicate BrokenIsRefused(w: World) {
    w.row.Some? && w.row.value.brokenAt.Some? ==> w.Current().Some? && w.Current().value in w.refused
  }

  ghost predicate PhaseOk(w: World, p: Phase) {
    && (Was(p).Some? ==> Was(p).value in w.stored)
    && (Handed(p).Some? ==> Was(p).Some? && Was(p).value in w.traded && w.traded[Was(p).value] == Handed(p).value)
    && (p.Trading? && Handed(p).Some? ==> Handed(p).value !in w.stored)
    && (p.Storing? && w.Current() == Some(p.was) ==> p.minted !in w.stored)
    && (Era(p).Some? ==> Era(p).value <= w.era && Was(p).Some?)
    && (Era(p) == Some(w.era) ==> InEra(w, Was(p).value))
    && (SawRefusal(p) ==> Was(p).value in w.refused)
  }

  ghost predicate Landed(w: World, o: Outcome) {
    o.Rotated? && o.era == w.era ==> InEra(w, o.minted)
  }

  ghost predicate LeaseOk(w: World, r: Holder, p: Phase) {
    Window(p).Some? && w.now < Window(p).value && w.Current().Some? && w.Current() == Was(p)
    ==> w.row.value.holder == Some(r) && w.row.value.until == Window(p)
  }

  ghost predicate CallsOk(w: World) {
    forall r :: r in w.calls ==> PhaseOk(w, w.calls[r].phase)
  }

  ghost predicate EndOk(w: World, p: Phase) {
    && (p.Done? ==> Landed(w, p.outcome))
    && (p.Releasing? ==> OutcomeMinted(p.next).None?)
  }

  ghost predicate OutcomesOk(w: World) {
    forall r :: r in w.calls ==> EndOk(w, w.calls[r].phase)
  }

  ghost predicate LeasesOk(w: World) {
    forall r :: r in w.calls ==> LeaseOk(w, r, w.calls[r].phase)
  }

  /** No pair was handed to two renewals. */
  ghost predicate HandedOnce(w: World) {
    forall r, s :: r in w.calls && s in w.calls && r != s && Handed(w.calls[r].phase).Some?
      ==> Handed(w.calls[r].phase) != Handed(w.calls[s].phase)
  }

  /** A renewal that has read the connector under its own lease, and its lease has not run out. */
  ghost predicate Holds(w: World, r: Holder, pair: Pair) {
    && r in w.calls && Window(w.calls[r].phase).Some? && w.now < Window(w.calls[r].phase).value
    && !w.calls[r].phase.Confirming? && Was(w.calls[r].phase) == Some(pair)
  }

  ghost predicate OneHolder(w: World) {
    forall r, s, pair :: Holds(w, r, pair) && Holds(w, s, pair) ==> r == s
  }

  ghost predicate Inv(w: World) {
    && Bounded(w) && Chained(w) && SingleUse(w) && BrokenIsRefused(w)
    && CallsOk(w) && OutcomesOk(w) && LeasesOk(w) && HandedOnce(w) && OneHolder(w)
  }

  lemma InitInv(w: World)
    requires Init(w)
    ensures Inv(w)
  {
  }


  // ---- one step

  /** The history only grows, by at most one pair, and that one is new to it. */
  ghost predicate Grows(w: World, w': World) {
    && w.next <= w'.next && w.era <= w'.era && w.base <= w'.base && (w.era == w'.era ==> w.base == w'.base)
    && w.refused <= w'.refused
    && (forall t :: t in w.traded ==> t in w'.traded && w'.traded[t] == w.traded[t])
    && (|| (w'.stored == w.stored && (w'.Current() == w.Current() || w'.Current().None?))
        || Appended(w, w'))
  }

  ghost predicate Appended(w: World, w': World) {
    |w'.stored| == |w.stored| + 1 && w'.stored[..|w.stored|] == w.stored
    && w'.stored[|w.stored|] !in w.stored && w'.Current() == Some(w'.stored[|w.stored|])
  }

  lemma InEraKept(w: World, w': World, pair: Pair)
    requires Grows(w, w') && w.era == w'.era && InEra(w, pair)
    ensures InEra(w', pair)
  {
    var i: nat :| w.base <= i < |w.stored| && w.stored[i] == pair;
    assert w'.stored[i] == pair;
  }

  /** A phase stays in order as the world moves on around it. */
  lemma PhaseKept(w: World, w': World, p: Phase)
    requires Grows(w, w') && PhaseOk(w, p)
    requires Appended(w, w') ==> Handed(p) != Some(w'.stored[|w.stored|]) || p.Done?
    ensures PhaseOk(w', p)
  {
    if Appended(w, w') {
      assert forall t :: t in w'.stored ==> t in w.stored || t == w'.stored[|w.stored|];
      assert forall t :: t in w.stored ==> t in w'.stored[..|w.stored|];
    }
    if Era(p) == Some(w'.era) {
      assert w.era == w'.era;
      InEraKept(w, w', Was(p).value);
    }
  }

  lemma EndKept(w: World, w': World, p: Phase)
    requires Grows(w, w') && PhaseOk(w, p) && EndOk(w, p)
    ensures EndOk(w', p)
  {
    if p.Done? && p.outcome.Rotated? && p.outcome.era == w'.era {
      InEraKept(w, w', p.outcome.minted);
    }
  }

  ghost predicate Unmoved(w: World, w': World, s: Holder) {
    s in w.calls && s in w'.calls && w'.calls[s] == w.calls[s]
  }

  /** No renewal still at work, of those that did not move, was handed `pair`. */
  ghost predicate NewTo(w: World, w': World, pair: Pair) {
    forall s :: Unmoved(w, w', s) && !w.calls[s].phase.Done? ==> Handed(w.calls[s].phase) != Some(pair)
  }

  /** The other renewals' phases and ends stay in order. */
  lemma OthersKept(w: World, w': World)
    requires CallsOk(w) && OutcomesOk(w) && Grows(w, w')
    requires Appended(w, w') ==> NewTo(w, w', w'.stored[|w.stored|])
    ensures forall s :: Unmoved(w, w', s) ==> PhaseOk(w', w'.calls[s].phase) && EndOk(w', w'.calls[s].phase)
  {
    forall s | Unmoved(w, w', s)
      ensures PhaseOk(w', w'.calls[s].phase) && EndOk(w', w'.calls[s].phase)
    {
      PhaseKept(w, w', w.calls[s].phase);
      EndKept(w, w', w.calls[s].phase);
    }
  }

  /** A step of the renewal `r` that moves its phase and at most the lease and the broken mark. */
  ghost predicate Quiet(w: World, w': World, r: Holder) {
    && r in w'.calls
    && w' == w.(row := w'.row, calls := w.calls[r := w'.calls[r]])
    && w.row.Some? == w'.row.Some?
    && w.Current() == w'.Current()
    && (Handed(w'.calls[r].phase).None? || (r in w.calls && Handed(w'.calls[r].phase) == Handed(w.calls[r].phase)))
  }

  lemma QuietKeeps(w: World, w': World, r: Holder)
    requires Inv(w) && Quiet(w, w', r)
    requires PhaseOk(w', w'.calls[r].phase) && EndOk(w', w'.calls[r].phase)
    ensures Bounded(w') && Chained(w') && SingleUse(w') && CallsOk(w') && OutcomesOk(w') && HandedOnce(w')
  {
    assert forall i: nat :: i + 1 < |w.stored| && Linked(w, i) ==> Linked(w', i);
    OthersKept(w, w');
    forall s | s in w'.calls
      ensures PhaseOk(w', w'.calls[s].phase) && EndOk(w', w'.calls[s].phase)
    {
      if s != r { assert Unmoved(w, w', s); }
    }
  }

  /** A step that takes no lease and leaves the row alone keeps the leases in order. */
  lemma SameRowLeases(w: World, w': World, r: Holder)
    requires Inv(w) && Quiet(w, w', r) && w'.row == w.row
    requires Window(w'.calls[r].phase).Some? ==>
      r in w.calls && Window(w.calls[r].phase) == Window(w'.calls[r].phase)
      && Was(w.calls[r].phase) == Was(w'.calls[r].phase) && !w.calls[r].phase.Confirming?
    ensures LeasesOk(w') && OneHolder(w') && BrokenIsRefused(w')
  {
    forall s | s in w'.calls ensures LeaseOk(w', s, w'.calls[s].phase) {
      if s in w.calls { assert LeaseOk(w, s, w.calls[s].phase); }
    }
    forall s, t, pair | Holds(w', s, pair) && Holds(w', t, pair) ensures s == t {
      assert Holds(w, s, pair) && Holds(w, t, pair);
    }
  }

  /** A phase carrying nothing of the history is in order in any world. */
  lemma Nothing(w: World, p: Phase)
    requires Was(p).None? && Handed(p).None? && Era(p).None? && !SawRefusal(p)
    ensures PhaseOk(w, p)
  {
  }

  /** What a phase rests on is the history alone. */
  ghost predicate SameHistory(w: World, w': World) {
    && w'.stored == w.stored && w'.base == w.base && w'.era == w.era && w'.traded == w.traded && w'.refused == w.refused
    && w'.Current() == w.Current()
  }

  lemma PhaseElsewhere(w: World, w': World, p: Phase)
    requires SameHistory(w, w') && PhaseOk(w, p) && EndOk(w, p)
    ensures PhaseOk(w', p) && EndOk(w', p)
  {
    assert forall pair :: InEra(w, pair) ==> InEra(w', pair);
  }

  /** A step that only moves the phase of `r`, to `p`, keeping the lease it works under or dropping it. */
  lemma PlainStep(w: World, w': World, r: Holder, p: Phase)
    requires Inv(w) && r in w'.calls && w' == w.(calls := w.calls[r := w'.calls[r]]) && w'.calls[r].phase == p
    requires PhaseOk(w, p) && EndOk(w, p)
    requires Handed(p).None? || (r in w.calls && Handed(p) == Handed(w.calls[r].phase))
    requires Window(p).Some? ==>
      r in w.calls && Window(w.calls[r].phase) == Window(p) && Was(w.calls[r].phase) == Was(p) && !w.calls[r].phase.Confirming?
    ensures Inv(w')
  {
    PhaseElsewhere(w, w', p);
    QuietKeeps(w, w', r);
    SameRowLeases(w, w', r);
  }

  lemma StepBegin(w: World, a: Action)
    requires Inv(w) && Can(w, a) && a.Begin?
    ensures Inv(Next(w, a))
  {
    Nothing(w, Reading);
    PlainStep(w, Next(w, a), a.r, Reading);
  }

  lemma ReadPhase(w: World, r: Holder)
    requires Inv(w) && r in w.calls
    ensures var p := AfterRead(w, r); PhaseOk(w, p) && EndOk(w, p) && Handed(p).None? && Window(p).None?
  {
  }

  lemma StepRead(w: World, a: Action)
    requires Inv(w) && Can(w, a) && a.Read?
    ensures Inv(Next(w, a))
  {
    ReadPhase(w, a.r);
    PlainStep(w, Next(w, a), a.r, AfterRead(w, a.r));
  }

  lemma StepPoll(w: World, a: Action)
    requires Inv(w) && Can(w, a) && a.Poll?
    ensures Inv(Next(w, a))
  {
    var p := w.calls[a.r].phase;
    assert PhaseOk(w, p);
    PlainStep(w, Next(w, a), a.r, AfterPoll(w, a.r, p.was, p.deadline));
  }

  lemma AnsweredPhase(w: World, a: Action)
    requires CallsOk(w) && Can(w, a) && a.Answered?
    ensures var p, p' := w.calls[a.r].phase, Next(w, a).calls[a.r].phase;
            && PhaseOk(w, p') && EndOk(w, p') && Handed(p').None?
            && (Window(p').Some? ==> Window(p) == Window(p') && Was(p) == Was(p') && !p.Confirming?)
  {
    assert PhaseOk(w, w.calls[a.r].phase);
  }

  lemma StepAnswered(w: World, a: Action)
    requires Inv(w) && Can(w, a) && a.Answered?
    ensures Inv(Next(w, a))
  {
    var w' := Next(w, a);
    AnsweredPhase(w, a);
    PlainStep(w, w', a.r, w'.calls[a.r].phase);
  }

  lemma StepTrade(w: World, a: Action)
    requires Inv(w) && Can(w, a) && a.Trade?
    ensures Inv(Next(w, a))
  {
    var p := w.calls[a.r].phase;
    assert PhaseOk(w, p);
    PlainStep(w, Next(w, a), a.r, Trading(p.was, p.until, p.era, w.now, None));
  }

  lemma StepReceive(w: World, a: Action)
    requires Inv(w) && Can(w, a) && a.Receive?
    ensures Inv(Next(w, a))
  {
    assert PhaseOk(w, w.calls[a.r].phase);
    PlainStep(w, Next(w, a), a.r, AfterReceive(w, a.r));
  }

  /** A phase that ends, or is about to, with nothing handed out. */
  lemma EndPhase(w: World, p: Phase)
    requires (p.Done? && OutcomeMinted(p.outcome).None?) || (p.Releasing? && OutcomeMinted(p.next).None?)
    ensures PhaseOk(w, p) && EndOk(w, p) && Handed(p).None? && Window(p).None?
  {
  }

  lemma StepEnding(w: World, a: Action)
    requires Inv(w) && Can(w, a) && (a.Lose? || a.Settle? || a.Throw?)
    ensures Inv(Next(w, a))
  {
    var w' := Next(w, a);
    EndPhase(w, w'.calls[a.r].phase);
    PlainStep(w, w', a.r, w'.calls[a.r].phase);
  }

  lemma StepLook(w: World, a: Action)
    requires Inv(w) && Can(w, a) && a.Look?
    ensures Inv(Next(w, a))
  {
    var w', p := Next(w, a), w.calls[a.r].phase;
    assert PhaseOk(w, p);
    if w'.calls[a.r].phase.Releasing? { EndPhase(w, w'.calls[a.r].phase); }
    PlainStep(w, w', a.r, w'.calls[a.r].phase);
  }

  lemma StepConfirm(w: World, a: Action)
    requires Inv(w) && Can(w, a) && a.Confirm?
    ensures Inv(Next(w, a))
  {
    var r, w' := a.r, Next(w, a);
    var p, p' := w.calls[r].phase, w'.calls[r].phase;
    assert PhaseOk(w, p) && LeaseOk(w, r, p);
    if p'.Releasing? {
      EndPhase(w, p');
      PlainStep(w, w', r, p');
    } else {
      assert w.Current() == Some(p.was);
      assert InEra(w, p.was) by { assert w.stored[|w.stored| - 1] == p.was; }
      PhaseElsewhere(w, w', p');
      QuietKeeps(w, w', r);
      forall s | s in w'.calls ensures LeaseOk(w', s, w'.calls[s].phase) {
        assert LeaseOk(w, s, w.calls[s].phase);
      }
      forall s, t, pair | Holds(w', s, pair) && Holds(w', t, pair) ensures s == t {
        assert LeaseOk(w, s, w.calls[s].phase) && LeaseOk(w, t, w.calls[t].phase);
        assert s != r ==> Holds(w, s, pair);
        assert t != r ==> Holds(w, t, pair);
      }
    }
  }

  /** The row's lease goes to `r`, or is given back by `r`. */
  ghost predicate LeaseMoves(w: World, w': World, r: Holder) {
    && Quiet(w, w', r) && w.row.Some? && w'.row.Some? && r in w.calls
    && w'.row.value == w.row.value.(until := w'.row.value.until, holder := w'.row.value.holder, brokenAt := w'.row.value.brokenAt)
  }

  /** The lease is won: the row was free, so no other renewal holds the pair. */
  lemma LeaseWon(w: World, a: Action)
    requires Inv(w) && Can(w, a) && a.TryLease? && Next(w, a).calls[a.r].phase.Confirming?
    ensures LeasesOk(Next(w, a)) && OneHolder(Next(w, a))
  {
    var w' := Next(w, a);
    forall s | s in w'.calls ensures LeaseOk(w', s, w'.calls[s].phase) {
      assert LeaseOk(w, s, w.calls[s].phase);
    }
    forall s, t, pair | Holds(w', s, pair) && Holds(w', t, pair) ensures s == t {
      assert Holds(w, s, pair) && Holds(w, t, pair);
    }
  }

  lemma StepTryLease(w: World, a: Action)
    requires Inv(w) && Can(w, a) && a.TryLease?
    ensures Inv(Next(w, a))
  {
    var r, w' := a.r, Next(w, a);
    var p, p' := w.calls[r].phase, w'.calls[r].phase;
    assert PhaseOk(w, p);
    if !p'.Confirming? {
      PlainStep(w, w', r, p');
    } else {
      PhaseElsewhere(w, w', p');
      QuietKeeps(w, w', r);
      LeaseWon(w, a);
    }
  }

  /** Giving back one's own lease leaves every other renewal's in order. */
  lemma GivenBack(w: World, w': World, r: Holder)
    requires Inv(w) && LeaseMoves(w, w', r) && Window(w'.calls[r].phase).None?
    requires var k := Unlease(w.row.value, r); w'.row.value.until == k.until && w'.row.value.holder == k.holder
    ensures LeasesOk(w') && OneHolder(w')
  {
    forall s | s in w'.calls ensures LeaseOk(w', s, w'.calls[s].phase) {
      assert LeaseOk(w, s, w.calls[s].phase);
    }
    forall s, t, pair | Holds(w', s, pair) && Holds(w', t, pair) ensures s == t {
      assert Holds(w, s, pair) && Holds(w, t, pair);
    }
  }

  lemma StepRelease(w: World, a: Action)
    requires Inv(w) && Can(w, a) && a.Release?
    ensures Inv(Next(w, a))
  {
    var r, w' := a.r, Next(w, a);
    assert EndOk(w, w.calls[r].phase);
    EndPhase(w, w'.calls[r].phase);
    if w.row.None? {
      PlainStep(w, w', r, w'.calls[r].phase);
    } else {
      EndPhase(w', w'.calls[r].phase);
      QuietKeeps(w, w', r);
      GivenBack(w, w', r);
    }
  }

  lemma StepMark(w: World, a: Action)
    requires Inv(w) && Can(w, a) && a.Mark?
    ensures Inv(Next(w, a))
  {
    var r, w' := a.r, Next(w, a);
    var p, p' := w.calls[r].phase, w'.calls[r].phase;
    assert PhaseOk(w, p);
    if p'.Done? {
      EndPhase(w', p');
      QuietKeeps(w, w', r);
      GivenBack(w, w', r);
    } else {
      PlainStep(w, w', r, p');
    }
  }

  /** Every renewal works under the lease it had, or none. */
  ghost predicate SameWindows(w: World, w': World) {
    forall s :: s in w'.calls ==> s in w.calls && SameWindow(w.calls[s].phase, w'.calls[s].phase)
  }

  predicate SameWindow(p: Phase, p': Phase) {
    Window(p').Some? ==> Window(p) == Window(p') && Was(p) == Was(p') && (p.Confirming? <==> p'.Confirming?)
  }

  /** The lease is where it was, or the row has moved to a pair no renewal under a lease has read. */
  lemma LeasesKept(w: World, w': World)
    requires CallsOk(w) && LeasesOk(w) && OneHolder(w) && SameWindows(w, w') && w.now <= w'.now
    requires w'.row == w.row || w'.Current().None? || w'.Current().value !in w.stored
    ensures LeasesOk(w') && OneHolder(w')
  {
    forall s | s in w'.calls ensures LeaseOk(w', s, w'.calls[s].phase) {
      assert LeaseOk(w, s, w.calls[s].phase) && PhaseOk(w, w.calls[s].phase);
    }
    forall s, t, pair | Holds(w', s, pair) && Holds(w', t, pair) ensures s == t {
      assert Holds(w, s, pair) && Holds(w, t, pair);
    }
  }

  lemma HandedBounded(w: World)
    requires Bounded(w) && CallsOk(w)
    ensures forall s :: s in w.calls && Handed(w.calls[s].phase).Some? ==> Handed(w.calls[s].phase).value < w.next
  {
    forall s | s in w.calls && Handed(w.calls[s].phase).Some? ensures Handed(w.calls[s].phase).value < w.next {
      assert PhaseOk(w, w.calls[s].phase);
    }
  }

  ghost predicate OnlyMoves(w: World, w': World, r: Holder) {
    r in w.calls && r in w'.calls && w'.calls == w.calls[r := w'.calls[r]]
  }

  lemma HandedKept(w: World, w': World, r: Holder)
    requires Bounded(w) && CallsOk(w) && HandedOnce(w) && OnlyMoves(w, w', r)
    requires Handed(w'.calls[r].phase).None? || Handed(w'.calls[r].phase) == Handed(w.calls[r].phase) || Handed(w'.calls[r].phase).value >= w.next
    ensures HandedOnce(w')
  {
    HandedBounded(w);
  }

  lemma MovedCallsOk(w: World, w': World, r: Holder)
    requires CallsOk(w) && OutcomesOk(w) && Grows(w, w') && OnlyMoves(w, w', r)
    requires Appended(w, w') ==> NewTo(w, w', w'.stored[|w.stored|])
    requires PhaseOk(w', w'.calls[r].phase) && EndOk(w', w'.calls[r].phase)
    ensures CallsOk(w') && OutcomesOk(w')
  {
    OthersKept(w, w');
    forall s | s in w'.calls ensures PhaseOk(w', w'.calls[s].phase) && EndOk(w', w'.calls[s].phase) {
      if s != r { assert Unmoved(w, w', s); }
    }
  }

  lemma DecideHistory(w: World, a: Action)
    requires Inv(w) && Can(w, a) && a.Decide?
    ensures var w' := Next(w, a); Grows(w, w') && Chained(w')
  {
    var w' := Next(w, a);
    assert PhaseOk(w, w.calls[a.r].phase);
    assert forall i: nat :: i + 1 < |w.stored| && Linked(w, i) ==> Linked(w', i);
  }

  lemma DecideBounds(w: World, a: Action)
    requires Bounded(w) && CallsOk(w) && BrokenIsRefused(w) && Can(w, a) && a.Decide?
    ensures var w' := Next(w, a); Bounded(w') && BrokenIsRefused(w')
  {
    assert PhaseOk(w, w.calls[a.r].phase);
  }

  lemma DecideOnce(w: World, a: Action)
    requires Bounded(w) && SingleUse(w) && CallsOk(w) && Can(w, a) && a.Decide?
    ensures SingleUse(Next(w, a))
  {
    assert PhaseOk(w, w.calls[a.r].phase);
  }

  lemma DecideGrows(w: World, a: Action)
    requires Inv(w) && Can(w, a) && a.Decide?
    ensures var w' := Next(w, a); Grows(w, w') && Bounded(w') && Chained(w') && SingleUse(w') && BrokenIsRefused(w')
  {
    DecideHistory(w, a);
    DecideBounds(w, a);
    DecideOnce(w, a);
  }

  /** A request's phase with GitHub's decision on it. */
  lemma DecidedPhaseOk(w: World, w': World, p: Phase, answer: Answer)
    requires Grows(w, w') && w'.era == w.era && w'.stored == w.stored && p.Trading? && p.answer.None? && PhaseOk(w, p)
    requires answer.NewPair? ==> p.was in w'.traded && w'.traded[p.was] == answer.pair && answer.pair !in w'.stored
    requires answer.Refused? ==> p.was in w'.refused
    ensures PhaseOk(w', p.(answer := Some(answer))) && EndOk(w', p.(answer := Some(answer)))
  {
    if Era(p) == Some(w.era) { InEraKept(w, w', p.was); }
  }

  lemma DecidedPhase(w: World, a: Action)
    requires Inv(w) && Can(w, a) && a.Decide?
    ensures var w' := Next(w, a); PhaseOk(w', w'.calls[a.r].phase) && EndOk(w', w'.calls[a.r].phase)
  {
    var p := w.calls[a.r].phase;
    assert PhaseOk(w, p);
    DecideHistory(w, a);
    DecidedPhaseOk(w, Next(w, a), p, a.answer);
  }

  lemma DecidedCalls(w: World, a: Action)
    requires Inv(w) && Can(w, a) && a.Decide?
    ensures CallsOk(Next(w, a)) && OutcomesOk(Next(w, a))
  {
    DecideHistory(w, a);
    DecidedPhase(w, a);
    MovedCallsOk(w, Next(w, a), a.r);
  }

  lemma DecidedWindows(w: World, a: Action)
    requires Can(w, a) && a.Decide?
    ensures var w' := Next(w, a); SameWindows(w, w') && w'.now == w.now && w'.row == w.row
  {
  }

  lemma DecidedHanded(w: World, a: Action)
    requires Can(w, a) && a.Decide?
    ensures var w' := Next(w, a);
            OnlyMoves(w, w', a.r) && (Handed(w'.calls[a.r].phase).None? || Handed(w'.calls[a.r].phase).value >= w.next)
  {
  }

  lemma DecidedLeases(w: World, a: Action)
    requires Inv(w) && Can(w, a) && a.Decide?
    ensures LeasesOk(Next(w, a)) && OneHolder(Next(w, a)) && HandedOnce(Next(w, a))
  {
    DecidedWindows(w, a);
    DecidedHanded(w, a);
    LeasesKept(w, Next(w, a));
    HandedKept(w, Next(w, a), a.r);
  }

  lemma StepDecide(w: World, a: Action)
    requires Inv(w) && Can(w, a) && a.Decide?
    ensures Inv(Next(w, a))
  {
    DecideGrows(w, a);
    DecidedCalls(w, a);
    DecidedLeases(w, a);
  }

  /** What the history says of a pair whose write is being tried: the row still holds the pair it was traded for, or it is in. */
  lemma StoredOrCurrent(w: World, p: Phase)
    requires Chained(w) && PhaseOk(w, p) && p.Storing? && p.era == w.era && w.Current() != Some(p.was)
    ensures InEra(w, p.minted)
  {
    var i: nat :| w.base <= i < |w.stored| && w.stored[i] == p.was;
    assert i + 1 < |w.stored|;
    assert Linked(w, i);
    assert w.stored[i + 1] == p.minted;
  }

  /** A write that changed nothing. */
  lemma StepStoreMissed(w: World, a: Action)
    requires Inv(w) && Can(w, a) && a.Store? && !(a.committed && w.Current() == Some(w.calls[a.r].phase.was))
    ensures Inv(Next(w, a))
  {
    var r, w' := a.r, Next(w, a);
    var p, p' := w.calls[r].phase, w'.calls[r].phase;
    assert PhaseOk(w, p);
    if p.era == w.era && !a.threw { StoredOrCurrent(w, p); }
    PlainStep(w, w', r, p');
  }

  lemma StoreAppends(w: World, a: Action)
    requires Inv(w) && Can(w, a) && a.Store? && a.committed && w.Current() == Some(w.calls[a.r].phase.was)
    ensures var w' := Next(w, a); Appended(w, w') && Grows(w, w') && Bounded(w') && Chained(w') && SingleUse(w') && BrokenIsRefused(w')
  {
    var w', p := Next(w, a), w.calls[a.r].phase;
    assert PhaseOk(w, p);
    assert w'.stored == w.stored + [p.minted];
    forall i: nat | w'.base <= i && i + 1 < |w'.stored| ensures Linked(w', i) {
      if i + 1 < |w.stored| { assert Linked(w, i); }
    }
  }

  lemma StoredPhase(w: World, a: Action)
    requires Inv(w) && Can(w, a) && a.Store? && a.committed && w.Current() == Some(w.calls[a.r].phase.was)
    ensures var w' := Next(w, a); PhaseOk(w', w'.calls[a.r].phase) && EndOk(w', w'.calls[a.r].phase)
  {
    var w', p := Next(w, a), w.calls[a.r].phase;
    assert PhaseOk(w, p);
    StoreAppends(w, a);
    assert w'.stored == w.stored + [p.minted];
    if p.era == w.era { InEraKept(w, w', p.was); }
    assert InEra(w', p.minted) by { assert w'.stored[|w.stored|] == p.minted; }
  }

  lemma StoredIsNew(w: World, a: Action)
    requires Inv(w) && Can(w, a) && a.Store? && a.committed && w.Current() == Some(w.calls[a.r].phase.was)
    ensures var w' := Next(w, a); NewTo(w, w', w'.stored[|w.stored|]) && w'.Current().Some? && w'.Current().value !in w.stored
  {
    assert PhaseOk(w, w.calls[a.r].phase);
  }

  lemma StoredLeases(w: World, a: Action)
    requires Inv(w) && Can(w, a) && a.Store? && a.committed && w.Current() == Some(w.calls[a.r].phase.was)
    ensures LeasesOk(Next(w, a)) && OneHolder(Next(w, a)) && HandedOnce(Next(w, a))
  {
    StoredIsNew(w, a);
    LeasesKept(w, Next(w, a));
    HandedKept(w, Next(w, a), a.r);
  }

  /** A write that landed. */
  lemma StepStoreLanded(w: World, a: Action)
    requires Inv(w) && Can(w, a) && a.Store? && a.committed && w.Current() == Some(w.calls[a.r].phase.was)
    ensures Inv(Next(w, a))
  {
    var w' := Next(w, a);
    StoreAppends(w, a);
    StoredPhase(w, a);
    StoredIsNew(w, a);
    StoredLeases(w, a);
    MovedCallsOk(w, w', a.r);
  }

  /** The world moving on with no renewal taking a step. */
  lemma StepWorld(w: World, a: Action)
    requires Inv(w) && Can(w, a) && (a.Tick? || a.Revoke? || a.Bar? || a.RemoveIt?)
    ensures Inv(Next(w, a))
  {
    var w' := Next(w, a);
    assert forall i: nat :: i + 1 < |w.stored| && Linked(w, i) ==> Linked(w', i);
    OthersKept(w, w');
    forall s | s in w'.calls ensures PhaseOk(w', w'.calls[s].phase) && EndOk(w', w'.calls[s].phase) {
      assert Unmoved(w, w', s);
    }
    LeasesKept(w, w');
  }

  lemma ReconnectHistory(w: World, a: Action)
    requires Inv(w) && Can(w, a) && a.ReconnectIt?
    ensures var w' := Next(w, a); Grows(w, w') && Chained(w')
  {
    var w' := Next(w, a);
    assert forall i: nat :: i + 1 < |w.stored| && Linked(w, i) ==> Linked(w', i);
  }

  lemma ReconnectBounds(w: World, a: Action)
    requires Bounded(w) && Chained(w) && BrokenIsRefused(w) && Can(w, a) && a.ReconnectIt?
    ensures var w' := Next(w, a); Bounded(w') && BrokenIsRefused(w')
  {
  }

  lemma ReconnectOnce(w: World, a: Action)
    requires Bounded(w) && SingleUse(w) && Can(w, a) && a.ReconnectIt?
    ensures SingleUse(Next(w, a))
  {
  }

  lemma ReconnectGrows(w: World, a: Action)
    requires Inv(w) && Can(w, a) && a.ReconnectIt?
    ensures var w' := Next(w, a); Grows(w, w') && Bounded(w') && Chained(w') && SingleUse(w') && BrokenIsRefused(w')
  {
    ReconnectHistory(w, a);
    ReconnectBounds(w, a);
    ReconnectOnce(w, a);
  }

  lemma StepReconnect(w: World, a: Action)
    requires Inv(w) && Can(w, a) && a.ReconnectIt?
    ensures Inv(Next(w, a))
  {
    var w' := Next(w, a);
    HandedBounded(w);
    ReconnectGrows(w, a);
    OthersKept(w, w');
    forall s | s in w'.calls ensures PhaseOk(w', w'.calls[s].phase) && EndOk(w', w'.calls[s].phase) {
      assert Unmoved(w, w', s);
    }
    LeasesKept(w, w');
  }

  /** Every step of any renewal and of the world around them keeps the invariant. */
  lemma StepInv(w: World, a: Action)
    requires Inv(w) && Can(w, a)
    ensures Inv(Next(w, a))
  {
    match a
    case Tick(_) => StepWorld(w, a);
    case Revoke(_) => StepWorld(w, a);
    case ReconnectIt(_, _, _) => StepReconnect(w, a);
    case RemoveIt => StepWorld(w, a);
    case Bar(_) => StepWorld(w, a);
    case Begin(_, _, _) => StepBegin(w, a);
    case Read(_) => StepRead(w, a);
    case Answered(_, _) => StepAnswered(w, a);
    case TryLease(_) => StepTryLease(w, a);
    case Poll(_) => StepPoll(w, a);
    case Confirm(_) => StepConfirm(w, a);
    case Trade(_) => StepTrade(w, a);
    case Decide(_, _) => StepDecide(w, a);
    case Receive(_) => StepReceive(w, a);
    case Lose(_) => StepEnding(w, a);
    case Store(r, committed, threw) =>
      if committed && w.Current() == Some(w.calls[r].phase.was) { StepStoreLanded(w, a); } else { StepStoreMissed(w, a); }
    case Look(_) => StepLook(w, a);
    case Mark(_) => StepMark(w, a);
    case Settle(_) => StepEnding(w, a);
    case Release(_) => StepRelease(w, a);
    case Throw(_) => StepEnding(w, a);
  }

  lemma {:induction false} RunInv(w: World, steps: seq<Action>)
    requires Inv(w) && IsRun(w, steps)
    ensures Inv(After(w, steps))
    decreases |steps|
  {
    if steps != [] {
      StepInv(w, steps[0]);
      RunInv(Next(w, steps[0]), steps[1..]);
    }
  }
}
