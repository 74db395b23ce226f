// What a pass has to do with each row: try it, keep a failed try for its time, publish what was accepted, and give up only
// after enough failures.
module ApprovalPublishActs {
  import opened Wrappers
  import opened ApprovalState
  import opened ApprovalPublish
  import opened ApprovalPublishSafety
  import opened ApprovalPublishTheorems

  // ----- One step -----

  /** How often this very state has been tried and failed, by what is kept. */
  function TriesSoFar(kept: Kept, k: Hint): nat {
    if k.operation in kept && kept[k.operation].forState == k.state then kept[k.operation].attempts else 0
  }

  predicate HintFails(a: Action) {
    a.KeyFailed? || (a.Answered? && !a.ok)
  }

  predicate WriteFails(a: Action) {
    a.Wrote? && !a.answered
  }

  /** What becomes of a pass's other holds: nothing. */
  ghost predicate OthersAsWere(w: World, w': World, op: string) {
    && (forall o :: o in w.book.holds && o != op ==> o in w'.book.holds && w'.book.holds[o] == w.book.holds[o])
    && (forall o :: o != op ==> (o in w'.kept <==> o in w.kept) && (o in w.kept ==> w'.kept[o] == w.kept[o]))
  }

  lemma HeadHasItsTries(w: World)
    requires Reachable(w) && w.pass.Working?
    ensures AtWork(w) && w.pass.due[0].attempts == TriesSoFar(w.kept, Head(w.pass))
    ensures Unpublished(w.book, Head(w.pass).operation)
  {
    ReachableInv(w);
    HeadIsKnown(w);
    var k := Head(w.pass);
    assert StillSo(w.book, w.kept, w.pass.due[0]);
    assert Chain(w.book.been[k.operation], w.book.holds[k.operation].state);
  }

  /**
   * A hint that fails with fewer than five failed tries before it leaves the hold as published as it was, and keeps one try
   * more, its copy written, due the backoff of that number after the pass began.
   */
  lemma FailedHintIsKept(w: World, a: Action)
    requires Reachable(w) && Can(w, a) && HintFails(a) && w.pass.due != [] && TriesSoFar(w.kept, Head(w.pass)) < 5
    ensures var k, w' := Head(w.pass), Next(w, a);
            && k.operation in w.book.holds && k.operation in w'.book.holds && w'.book.holds[k.operation] == w.book.holds[k.operation]
            && k.operation in w'.kept && w'.kept[k.operation].forState == k.state && w'.kept[k.operation].indexed
            && w'.kept[k.operation].attempts == TriesSoFar(w.kept, k) + 1
            && w'.kept[k.operation].nextAt == w.pass.at + Backoff(TriesSoFar(w.kept, k) + 1)
            && OthersAsWere(w, w', k.operation) && DueNow(w'.pass) == w.pass.due[1..]
  {
    HeadHasItsTries(w);
  }

  /** And with five or more it is given up: marked published at the state read, and its tries forgotten. */
  lemma FailedHintIsGivenUp(w: World, a: Action)
    requires Reachable(w) && Can(w, a) && HintFails(a) && w.pass.due != [] && TriesSoFar(w.kept, Head(w.pass)) >= 5
    ensures var k, w' := Head(w.pass), Next(w, a);
            && k.operation in w'.book.holds && w'.book.holds[k.operation].published == Some(k.state) && k.operation !in w'.kept
            && OthersAsWere(w, w', k.operation) && DueNow(w'.pass) == w.pass.due[1..]
  {
    HeadHasItsTries(w);
  }

  /** A write that fails is kept likewise, however many have failed, and never given up. */
  lemma FailedWriteIsKept(w: World, a: Action)
    requires Reachable(w) && Can(w, a) && WriteFails(a) && w.pass.due != []
    ensures var k, w' := Head(w.pass), Next(w, a);
            && k.operation in w.book.holds && k.operation in w'.book.holds && w'.book.holds[k.operation] == w.book.holds[k.operation]
            && k.operation in w'.kept && w'.kept[k.operation].forState == k.state && !w'.kept[k.operation].indexed
            && w'.kept[k.operation].attempts == TriesSoFar(w.kept, k) + 1
            && w'.kept[k.operation].nextAt == w.pass.at + Backoff(TriesSoFar(w.kept, k) + 1)
            && OthersAsWere(w, w', k.operation) && DueNow(w'.pass) == w.pass.due[1..]
  {
    HeadHasItsTries(w);
  }

  /** A hint accepted, or not to be sent, publishes the row at the state it was read at. */
  lemma AcceptedIsPublished(w: World, a: Action)
    requires Reachable(w) && Can(w, a) && w.pass.Working? && w.pass.due != [] && (a.Finish? || a == Answered(true))
    ensures var k, w' := Head(w.pass), Next(w, a);
            && k.operation in w'.book.holds && w'.book.holds[k.operation].published == Some(k.state) && k.operation !in w'.kept
            && OthersAsWere(w, w', k.operation) && DueNow(w'.pass) == w.pass.due[1..]
  {
    HeadHasItsTries(w);
  }

  /** A copy written leads on to the hint, and a hint sent is counted. */
  lemma WrittenIsHinted(w: World, a: Action)
    requires Reachable(w) && Can(w, a) && w.pass.Working? && w.pass.due != [] && (a == Wrote(true, true) || a.Send?)
    ensures Next(w, a).pass == w.pass.(step := if a.Send? then Sending else Hinting)
    ensures a.Wrote? ==> Covers(Next(w, a).d1.copy, Head(w.pass)) && Next(w, a).sends == w.sends
    ensures a.Send? ==> Count(Next(w, a).sends.hints, Head(w.pass)) == Count(w.sends.hints, Head(w.pass)) + 1
    ensures Next(w, a).book == w.book && Next(w, a).kept == w.kept
  {
    HeadHasItsTries(w);
  }

  /** The time a pass counts from is when it began. */
  lemma PassKeepsItsTime(w: World, a: Action)
    requires Can(w, a) && !Next(w, a).pass.Idle?
    ensures Next(w, a).pass.at == if w.pass.Idle? then w.now else w.pass.at
  {
  }

  /**
   * The ways a hold comes to be published at another state: a hint accepted, nowhere to send one, six failed tries of that
   * state with the copy written, or an agent without a registry row.
   */
  lemma PublishedOnlyBy(w: World, a: Action, op: string)
    requires Reachable(w) && Can(w, a) && op in w.book.holds && op in Next(w, a).book.holds
    requires Next(w, a).book.holds[op].published != w.book.holds[op].published
    ensures (a.Asked? && w.status.NotProvisioned?)
            || (AtWork(w) && Head(w.pass).operation == op && Next(w, a).book.holds[op].published == Some(Head(w.pass).state)
                && (a == Answered(true) || (a.Finish? && w.pass.silent) || (HintFails(a) && TriesSoFar(w.kept, Head(w.pass)) + 1 >= 6)))
  {
    if w.pass.Working? { HeadHasItsTries(w); }
  }

  /** Half a minute, then twice as long each time, and a quarter of an hour from the sixth on. */
  lemma BackoffIs(n: nat)
    ensures Backoff(1) == 30_000 && Backoff(2) == 60_000 && Backoff(3) == 120_000 && Backoff(4) == 240_000 && Backoff(5) == 480_000
    ensures n >= 6 ==> Backoff(n) == 900_000
  {
    BackoffGrows(n);
    assert Backoff(2) == 60_000 && Backoff(3) == 120_000 && Backoff(4) == 240_000;
  }

  /** A hold is decided or expires once, and runs once after an approval. */
  lemma HoldsMove(s: State, to: State)
    ensures Follows(s, to) <==> (s.Pending? && (to.Approved? || to.Denied? || to.Expired?)) || (s.Approved? && (to.Executed? || to.Failed?))
  {
  }

  // ----- What is kept is what failed -----

  predicate Fails(w: World, a: Action, k: Hint) {
    (HintFails(a) || WriteFails(a)) && w.pass.Working? && w.pass.due != [] && Head(w.pass) == k
  }

  /** How many tries of a state have failed in the run. */
  function FailuresOf(w: World, actions: seq<Action>, k: Hint): nat
    decreases |actions|
  {
    if actions == [] then 0
    else (if Fails(w, actions[0], k) then 1 else 0) + FailuresOf(Next(w, actions[0]), actions[1..], k)
  }

  lemma FewerTries(kept: Kept, ops: set<string>, k: Hint)
    ensures TriesSoFar(kept - ops, k) <= TriesSoFar(kept, k)
  {
  }

  lemma FailTries(w: World, indexed: bool, k: Hint)
    requires AtWork(w) && w.pass.due[0].attempts <= TriesSoFar(w.kept, Head(w.pass))
    ensures TriesSoFar(Fail(w, indexed).kept, k) <= TriesSoFar(w.kept, k) + if Head(w.pass) == k then 1 else 0
  {
    assert k == Hint(k.operation, k.state);
  }

  /** A step that fails no try forgets tries at the most. */
  lemma OthersForget(w: World, a: Action) returns (ops: set<string>)
    requires Can(w, a) && !HintFails(a) && !WriteFails(a)
    ensures Next(w, a).kept == w.kept - ops
  {
    ops := if a.Asked? && w.status.NotProvisioned? then Operations(w.pass.due)
           else if AtWork(w) && (a.Finish? || a == Answered(true)) then {Head(w.pass).operation} else {};
    assert w.kept - {} == w.kept;
  }

  lemma FailingStep(w: World, a: Action, k: Hint)
    requires Inv(w) && Can(w, a) && (HintFails(a) || WriteFails(a))
    ensures TriesSoFar(Next(w, a).kept, k) <= TriesSoFar(w.kept, k) + if Fails(w, a, k) then 1 else 0
  {
    HeadIsKnown(w);
    if WriteFails(a) {
      var d' := if a.committed then Merge(w.d1, Head(w.pass)) else Hung(w.d1, Head(w.pass));
      FailTries(w.(d1 := d'), false, k);
    } else {
      FailTries(w, true, k);
    }
  }

  lemma TriesStep(w: World, a: Action, k: Hint)
    requires Inv(w) && Can(w, a)
    ensures TriesSoFar(Next(w, a).kept, k) <= TriesSoFar(w.kept, k) + if Fails(w, a, k) then 1 else 0
  {
    if HintFails(a) || WriteFails(a) {
      FailingStep(w, a, k);
    } else {
      var ops := OthersForget(w, a);
      FewerTries(w.kept, ops, k);
    }
  }

  lemma {:induction false} TriesAreFailures(w: World, actions: seq<Action>, k: Hint)
    requires Inv(w) && IsRun(w, actions)
    ensures TriesSoFar(After(w, actions).kept, k) <= TriesSoFar(w.kept, k) + FailuresOf(w, actions, k)
    decreases |actions|
  {
    if actions != [] {
      TriesStep(w, actions[0], k);
      StepInv(w, actions[0]);
      TriesAreFailures(Next(w, actions[0]), actions[1..], k);
    }
  }

  /** A hold published though its hint failed has seen that state fail six times over the run, this once included. */
  lemma GivenUpAfterSix(now: int, actions: seq<Action>, a: Action, op: string)
    requires IsRun(Init(now), actions) && Can(After(Init(now), actions), a) && HintFails(a)
    requires var w := After(Init(now), actions);
             op in w.book.holds && op in Next(w, a).book.holds && Next(w, a).book.holds[op].published != w.book.holds[op].published
    ensures var w := After(Init(now), actions);
            Next(w, a).book.holds[op].published.Some?
            && FailuresOf(Init(now), actions, Hint(op, Next(w, a).book.holds[op].published.value)) + 1 >= 6
  {
    var w := After(Init(now), actions);
    assert Reachable(w);
    PublishedOnlyBy(w, a, op);
    InitInv(now);
    TriesAreFailures(Init(now), actions, Head(w.pass));
  }

  // ----- Failed writes count too -----

  /** One hold of a live agent, its state never written, with this many failed writes kept. */
  predicate OnlyWrites(w: World, op: string, n: nat) {
    && w.status.Live? && w.target && w.pass.Idle? && w.book.order == [op] && op in w.book.holds && w.book.holds[op] == Hold(Pending, None)
    && (if n == 0 then op !in w.kept else op in w.kept && w.kept[op].forState == Pending && !w.kept[op].indexed && w.kept[op].attempts == n)
    && Count(w.sends.hints, Hint(op, Pending)) == 0
  }

  function Later(a: int, b: int): int {
    if a < b then b else a
  }

  lemma Joined(w: World, a: Action, rest: seq<Action>)
    requires Can(w, a) && IsRun(Next(w, a), rest)
    ensures IsRun(w, [a] + rest) && After(w, [a] + rest) == After(Next(w, a), rest)
  {
    assert ([a] + rest)[1..] == rest;
  }

  /** When its time has come, a pass begins with the hold. */
  lemma TakesItUp(w: World, op: string, n: nat) returns (steps: seq<Action>)
    requires OnlyWrites(w, op, n)
    ensures IsRun(w, steps) && forall s :: s in steps ==> !s.Send?
    ensures var v := After(w, steps);
            v.pass == Working([Captured(op, Pending, n, false)], v.now, false, Writing) && v == w.(now := v.now, pass := v.pass)
  {
    var tick := Tick(if n == 0 then w.now else Later(w.now, w.kept[op].nextAt));
    var w1 := Next(w, tick);
    assert Oldest(w1.book, [op], PASS_ROWS) == [op] + Oldest(w1.book, [op][1..], PASS_ROWS - 1) == [op];
    assert DueOf(w1.book, w1.kept, w1.now, [op]) == [Capture(w1.book, w1.kept, op)] + DueOf(w1.book, w1.kept, w1.now, [op][1..]);
    assert Due(w1) == [Captured(op, Pending, n, false)];
    var w2 := Next(w1, Start);
    var w3 := Next(w2, Asked);
    Joined(w2, Asked, []);
    Joined(w1, Start, [Asked] + []);
    Joined(w, tick, [Start] + ([Asked] + []));
    steps := [tick] + ([Start] + ([Asked] + []));
  }

  lemma {:induction false} Append(w: World, steps: seq<Action>, more: seq<Action>)
    requires IsRun(w, steps) && IsRun(After(w, steps), more)
    ensures IsRun(w, steps + more) && After(w, steps + more) == After(After(w, steps), more)
    decreases |steps|
  {
    if steps == [] {
      assert steps + more == more;
    } else {
      assert (steps + more)[1..] == steps[1..] + more;
      Append(Next(w, steps[0]), steps[1..], more);
    }
  }

  lemma {:induction false} WritesFail(w: World, op: string, n: nat) returns (steps: seq<Action>)
    requires OnlyWrites(w, op, 0)
    ensures IsRun(w, steps) && OnlyWrites(After(w, steps), op, n) && forall s :: s in steps ==> !s.Send?
  {
    steps := [];
    if n > 0 {
      var before := WritesFail(w, op, n - 1);
      var v := After(w, before);
      var more := TakesItUp(v, op, n - 1);
      Append(w, before, more);
      var u := After(v, more);
      Joined(u, Wrote(false, false), []);
      Append(w, before + more, [Wrote(false, false)] + []);
      steps := before + more + ([Wrote(false, false)] + []);
    }
  }

  /**
   * The six failed tries need not be hints: after five failed writes, one hint refused is the only one there ever is.
   */
  lemma OneHintCanBeAll(now: int, op: string) returns (steps: seq<Action>)
    ensures IsRun(Init(now), steps)
    ensures var w := After(Init(now), steps);
            && op in w.book.holds && w.book.holds[op] == Hold(Pending, Some(Pending)) && w.status.Live?
            && Count(w.sends.hints, Hint(op, Pending)) == 1
  {
    var w0 := Init(now);
    var w1 := Next(w0, NewHold(op));
    var w2 := Next(w1, Provision);
    var w3 := Next(w2, Retarget(true));
    Joined(w2, Retarget(true), []);
    Joined(w1, Provision, [Retarget(true)] + []);
    Joined(w0, NewHold(op), [Provision] + ([Retarget(true)] + []));
    var opening := [NewHold(op)] + ([Provision] + ([Retarget(true)] + []));
    assert OnlyWrites(w3, op, 0);
    var writes := WritesFail(w3, op, 5);
    Append(w0, opening, writes);
    var v := After(w3, writes);
    var taking := TakesItUp(v, op, 5);
    Append(w0, opening + writes, taking);
    var u := After(v, taking);
    var ending := LastTry(u, op);
    Append(w0, opening + writes + taking, ending);
    steps := opening + writes + taking + ending;
  }

  lemma LastTry(u: World, op: string) returns (steps: seq<Action>)
    requires u.pass == Working([Captured(op, Pending, 5, false)], u.now, false, Writing) && u.status.Live?
    requires op in u.book.holds && u.book.holds[op] == Hold(Pending, None) && Count(u.sends.hints, Hint(op, Pending)) == 0
    ensures IsRun(u, steps)
    ensures var w := After(u, steps);
            op in w.book.holds && w.book.holds[op] == Hold(Pending, Some(Pending)) && w.status.Live?
            && Count(w.sends.hints, Hint(op, Pending)) == 1
  {
    var u1 := Next(u, Wrote(true, true));
    var u2 := Next(u1, Send);
    var u3 := Next(u2, Answered(false));
    Joined(u2, Answered(false), []);
    Joined(u1, Send, [Answered(false)] + []);
    Joined(u, Wrote(true, true), [Send] + ([Answered(false)] + []));
    steps := [Wrote(true, true)] + ([Send] + ([Answered(false)] + []));
  }
}
