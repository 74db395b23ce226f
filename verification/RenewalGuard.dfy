// The stored guard of one mount's renewal (`oauth_refreshing`): what keeps two runtimes of one object from renewing at
// once. It is taken for LEASE_MS, waited for by another runtime until then, and deleted by the mount's name, whoever
// holds it.
module RenewalGuard {
  import opened Wrappers
  import Renewal

  type Runtime = nat

  datatype Held = Held(until: int, owner: Runtime)

  /** `started`: the renewals running, one at most for each runtime (its calls are chained). */
  datatype Guard = Guard(now: int, row: Option<Held>, started: map<Runtime, int>)

  datatype Move = Tick(ms: nat) | Enter(o: Runtime) | Leave(o: Runtime) | Die(o: Runtime)

  predicate Can(g: Guard, m: Move) {
    match m
    case Tick(_) => true
    case Enter(o) => o !in g.started && (g.row.None? || g.row.value.owner == o || g.row.value.until <= g.now)
    case Leave(o) => o in g.started
    case Die(o) => o in g.started
  }

  function Next(g: Guard, m: Move): Guard
    requires Can(g, m)
  {
    match m
    case Tick(ms) => g.(now := g.now + ms)
    case Enter(o) => g.(row := Some(Held(g.now + Renewal.LEASE_MS, o)), started := g.started[o := g.now])
    case Leave(o) => g.(row := None, started := g.started - {o})
    case Die(o) => g.(started := g.started - {o})
  }

  /** The renewal of `o` has run its time out. */
  predicate Outlasted(g: Guard, o: Runtime) {
    o in g.started && g.started[o] + Renewal.LEASE_MS <= g.now
  }

  /** No renewal has run longer than its guard, here or at any later point of the run. */
  ghost predicate Timely(g: Guard, moves: seq<Move>)
    decreases |moves|
  {
    && (forall o :: !Outlasted(g, o))
    && (moves != [] ==> Can(g, moves[0]) && Timely(Next(g, moves[0]), moves[1..]))
  }

  ghost function After(g: Guard, moves: seq<Move>): Guard
    requires Timely(g, moves)
    decreases |moves|
  {
    if moves == [] then g else After(Next(g, moves[0]), moves[1..])
  }

  ghost predicate Exclusive(g: Guard) {
    && (forall o, p :: o in g.started && p in g.started ==> o == p)
    && (forall o :: o in g.started ==> g.row == Some(Held(g.started[o] + Renewal.LEASE_MS, o)))
  }

  /** While no renewal outlasts its guard, one runs at a time, even if a runtime dies in the middle of one. */
  lemma {:induction false} OneAtATime(g: Guard, moves: seq<Move>)
    requires Exclusive(g) && Timely(g, moves)
    ensures Exclusive(After(g, moves))
    decreases |moves|
  {
    if moves != [] {
      assert forall o :: o in g.started ==> !Outlasted(g, o);
      OneAtATime(Next(g, moves[0]), moves[1..]);
    }
  }

  // ----- Exactly when it fails

  ghost predicate IsRun(g: Guard, moves: seq<Move>)
    decreases |moves|
  {
    moves != [] ==> Can(g, moves[0]) && IsRun(Next(g, moves[0]), moves[1..])
  }

  predicate TwoRun(g: Guard) {
    exists o, p :: o in g.started && p in g.started && o != p
  }

  /** At some point of the run two renewals are running. */
  ghost predicate TwoEverRun(g: Guard, moves: seq<Move>)
    requires IsRun(g, moves)
    decreases |moves|
  {
    TwoRun(g) || (moves != [] && TwoEverRun(Next(g, moves[0]), moves[1..]))
  }

  /** A runtime starts while another's renewal has outlasted its guard. */
  predicate JoinsTheOutlasted(g: Guard, m: Move) {
    m.Enter? && exists o :: o in g.started && o != m.o && Outlasted(g, o)
  }

  /** At some point of the run one does. */
  ghost predicate OutlastedIsEverJoined(g: Guard, moves: seq<Move>)
    requires IsRun(g, moves)
    decreases |moves|
  {
    moves != [] && (JoinsTheOutlasted(g, moves[0]) || OutlastedIsEverJoined(Next(g, moves[0]), moves[1..]))
  }

  /** Beside a renewal that holds its guard, another can start exactly when that one has outlasted it. */
  lemma EntersBeside(g: Guard, o: Runtime, p: Runtime)
    requires Exclusive(g) && o in g.started && p != o
    ensures Can(g, Enter(p)) <==> Outlasted(g, o)
  {
    assert p !in g.started;
  }

  lemma EntersAlone(g: Guard, p: Runtime)
    requires Exclusive(g) && Can(g, Enter(p))
    ensures JoinsTheOutlasted(g, Enter(p)) || forall o :: o !in g.started
  {
    if o :| o in g.started {
      EntersBeside(g, o, p);
      assert Outlasted(g, o);
    }
  }

  lemma ExclusiveStep(g: Guard, m: Move)
    requires Exclusive(g) && Can(g, m) && !JoinsTheOutlasted(g, m)
    ensures Exclusive(Next(g, m)) && !TwoRun(Next(g, m))
  {
    if m.Enter? { EntersAlone(g, m.o); }
  }

  /** From a point at which renewals exclude each other, two come to run exactly when an outlasted one is joined. */
  lemma {:induction false} TwoRunExactlyWhen(g: Guard, moves: seq<Move>)
    requires Exclusive(g) && IsRun(g, moves)
    ensures TwoEverRun(g, moves) <==> OutlastedIsEverJoined(g, moves)
    decreases |moves|
  {
    if moves != [] {
      var g' := Next(g, moves[0]);
      if JoinsTheOutlasted(g, moves[0]) {
        var o :| o in g.started && o != moves[0].o && Outlasted(g, o);
        assert o in g'.started && moves[0].o in g'.started;
        assert TwoRun(g');
      } else {
        ExclusiveStep(g, moves[0]);
        TwoRunExactlyWhen(g', moves[1..]);
      }
    }
  }

  /**
   * From an object nobody renews in, whatever guard a runtime that died left there: a run comes to two renewals at once
   * exactly when, at some point of it, a runtime starts while another's renewal has outlasted its guard.
   */
  lemma JoinedExactlyWhen(g: Guard, moves: seq<Move>)
    requires g.started == map[] && IsRun(g, moves)
    ensures TwoEverRun(g, moves) <==> OutlastedIsEverJoined(g, moves)
  {
    TwoRunExactlyWhen(g, moves);
  }

  /**
   * The guard is deleted by name: once a renewal outlasts it, its end frees the one that took over, so a third starts
   * while the second still has all of its own time left.
   */
  lemma OutlastedLetsAThirdIn(g: Guard, o: Runtime, p: Runtime, q: Runtime)
    requires o != p && p != q && o != q && p !in g.started && q !in g.started
    requires g.row == Some(Held(g.now, o)) && g.started == map[o := g.now - Renewal.LEASE_MS]
    ensures Outlasted(g, o) && Can(g, Enter(p))
    ensures var g2 := Next(g, Enter(p)); !Can(g2, Enter(q)) && Can(g2, Leave(o))
    ensures var g3 := Next(Next(g, Enter(p)), Leave(o)); Can(g3, Enter(q)) && p in Next(g3, Enter(q)).started && q in Next(g3, Enter(q)).started
  {
  }
}
