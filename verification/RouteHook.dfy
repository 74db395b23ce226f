// `routeHook` itself: the code between two awaits runs alone, and at each await anything else may happen. Every execution
// is a run of the machine (HookRoute), so what the machine promises of every route holds of the one returned.
module RouteHook {
  import opened Wrappers
  import opened HookRoute
  import opened HookRouteActs

  ghost predicate OthersRan(w: World, w': World, c: nat, steps: seq<Action>) {
    IsRun(w, steps) && w' == After(w, steps) && forall i :: 0 <= i < |steps| ==> Actor(steps[i]) != Some(c)
  }

  /** The others leave a call where it was; the clock moves on and routes returned stay returned. */
  ghost predicate LeftAlone(w: World, w': World, c: nat) {
    c in w.calls && c in w'.calls && w'.calls[c] == w.calls[c] && w.now <= w'.now && w.routed <= w'.routed
  }

  lemma {:induction false} OthersLeaveMine(w: World, w': World, c: nat, steps: seq<Action>)
    requires OthersRan(w, w', c, steps) && c in w.calls
    ensures LeftAlone(w, w', c)
    decreases |steps|
  {
    if steps != [] {
      assert Actor(steps[0]) != Some(c);
      StepLeavesMine(w, steps[0], c);
      OthersLeaveMine(Next(w, steps[0]), w', c, steps[1..]);
    }
  }

  lemma StepLeavesMine(w: World, a: Action, c: nat)
    requires Can(w, a) && Actor(a) != Some(c) && c in w.calls
    ensures LeftAlone(w, Next(w, a), c)
  {
  }

  lemma {:induction false} RunSplits(w: World, steps: seq<Action>, more: seq<Action>)
    requires IsRun(w, steps + more)
    ensures IsRun(w, steps) && IsRun(After(w, steps), more) && After(w, steps + more) == After(After(w, steps), more)
    decreases |steps|
  {
    if steps == [] {
      assert steps + more == more;
    } else {
      assert (steps + more)[1..] == steps[1..] + more;
      RunSplits(Next(w, steps[0]), steps[1..], more);
    }
  }

  lemma NoHookSince(start: int, was: seq<Action>, log: seq<Action>, c: nat)
    requires IsRun(Init(start), log) && was <= log && c !in After(Init(start), was).calls
    requires c in After(Init(start), log).calls && After(Init(start), log).calls[c].phase == Done(NoHook)
    ensures FoundNone(After(Init(start), was), log[|was|..], c)
  {
    assert log == was + log[|was|..];
    RunSplits(Init(start), was, log[|was|..]);
    NoHookForAReason(After(Init(start), was), log[|was|..], c);
  }

  class Worker {
    var w: World
    ghost var start: int
    ghost var log: seq<Action>

    ghost predicate Ran()
      reads this
    {
      IsRun(Init(start), log) && w == After(Init(start), log)
    }

    constructor (now: int)
      ensures Ran() && w == Init(now)
    {
      w, start, log := Init(now), now, [];
    }

    method Take(a: Action)
      requires Ran() && Can(w, a)
      modifies this
      ensures Ran() && w == Next(old(w), a) && start == old(start) && old(log) <= log
    {
      RunThen(Init(start), log, [a]);
      log := log + [a];
      w := Next(w, a);
    }

    /** The others' turn: what they do is not this call's to choose. */
    method OthersTurn(c: nat) returns (ghost steps: seq<Action>)
      requires Ran()
      modifies this
      ensures Ran() && start == old(start) && old(log) <= log && OthersRan(old(w), w, c, steps)
    {
      steps := [];
    }

    method Await(c: nat)
      requires Ran() && c in w.calls
      modifies this
      ensures Ran() && start == old(start) && old(log) <= log && LeftAlone(old(w), w, c)
    {
      ghost var steps := OthersTurn(c);
      OthersLeaveMine(old(w), w, c, steps);
    }

    /** The colo's cache, asked: it may answer an entry ever written to it, nothing, or fail. */
    method AskCache(c: nat) returns (got: Option<Route>)
      requires Ran() && c in w.calls && w.calls[c].phase.Matching?
      modifies this
      ensures Ran() && start == old(start) && old(log) <= log && c in w.calls && w.calls[c].hookId == old(w.calls[c].hookId)
      ensures got.Some? ==> Routed(w.calls[c].hookId, got.value, w.now) in w.routed && w.calls[c].phase == Done(Found(got.value, Cache))
      ensures got.None? ==> w.calls[c].phase.Looking?
    {
      Await(c);
      var hit: Option<Entry> := *;
      if hit.Some? && Cached(w.calls[c].colo, w.calls[c].hookId, hit.value) !in w.caches { hit := None; }
      Take(Matched(c, hit));
      Await(c);
      var read: bool := *;
      var id := w.calls[c].hookId;
      if read && hit.Some? && Fresh(hit.value, id, w.now) {
        Take(Parsed(c, read));
        return Some(hit.value.route);
      }
      Take(Parsed(c, read));
      return None;
    }

    /** The index, asked: its answer may come late, or not at all. */
    method AskIndex(c: nat) returns (answer: Answer)
      requires Ran() && c in w.calls && w.calls[c].phase.Looking?
      modifies this
      ensures Ran() && start == old(start) && old(log) <= log && c in w.calls && w.calls[c].hookId == old(w.calls[c].hookId)
      ensures w.calls[c].phase == Done(answer)
      ensures answer.Found? ==> answer.source == Index && Routed(w.calls[c].hookId, answer.route, w.now) in w.routed
    {
      Await(c);
      Take(Read(c));
      Await(c);
      var row := w.calls[c].phase.row;
      var ok: bool := *;
      Take(Answered(c, ok));
      if !ok { return Failed; }
      if row.None? { return NoHook; }
      return Found(row.value, Index);
    }

    /** The call's own write waited for: it may land, fail, or be overtaken by whatever else happens. */
    method AwaitWrite(c: nat, write: Cached)
      requires Ran() && c in w.calls
      modifies this
      ensures Ran() && start == old(start) && old(log) <= log && LeftAlone(old(w), w, c)
    {
      Await(c);
      var lands: bool := *;
      if lands && write in w.deferred {
        StepLeavesMine(w, WriteLands(write), c);
        Take(WriteLands(write));
      }
    }

    /**
     * Memory, then the colo's cache, then the index. What it returns it had at `at`, and is the index's row for that id:
     * now, unless it has waited since for its own write to the cache, which a call that can defer it does not.
     */
    method Route(c: nat, isolate: nat, colo: nat, hookId: string, hasCache: bool, defers: bool)
      returns (answer: Answer, ghost from: Option<Lookup>, ghost at: int)
      requires Ran() && c !in w.calls
      modifies this
      ensures Ran() && start == old(start) && old(log) <= log && at <= w.now
      ensures answer.Found? ==> from.Some? && from.value.route == answer.route && WasLive(w.index, answer.route, from.value.readAt)
      ensures answer.Found? ==> from.Some? && from.value.answeredAt <= at < from.value.answeredAt + HOOK_ROUTE_TTL_MS
      ensures answer.Found? ==> hookId in w.index && w.index[hookId].route == answer.route
      ensures answer.Found? && (defers || !hasCache || !answer.source.Index?) ==> at == w.now
      // No hook is said of it only where the index, as the call read it, has none live.
      ensures c in w.calls && w.calls[c].phase == Done(answer)
      ensures answer.NoHook? ==> old(log) <= log && FoundNone(old(w), log[|old(log)|..], c)
    {
      ghost var was, before := w, log;
      from, at := None, w.now;
      var k := Held(isolate, hookId);
      if k in w.memory && Fresh(w.memory[k], hookId, w.now) {
        answer := Found(w.memory[k].route, Memory);
        Take(Begin(c, isolate, colo, hookId, hasCache));
      } else {
        Take(Begin(c, isolate, colo, hookId, hasCache));
        var got: Option<HookRoute.Route> := None;
        if hasCache { got := AskCache(c); }
        if got.Some? {
          answer := Found(got.value, Cache);
        } else {
          answer := AskIndex(c);
        }
      }
      at := w.now;
      if answer.Found? {
        if hasCache && !defers && answer.source.Index? {
          AwaitWrite(c, Cached(colo, hookId, Entry(answer.route, w.now + HOOK_ROUTE_TTL_MS)));
        }
        ghost var l := EveryRouteWasFoundLive(start, log, Routed(hookId, answer.route, at));
        from := Some(l);
      }
      if answer.NoHook? { NoHookSince(start, before, log, c); }
    }

    /** Forgets the route in this isolate; the cache's own copy is bounded by its expiry whether or not it is deleted. */
    method ForgetHookRoute(isolate: nat, hookId: string)
      requires Ran()
      modifies this
      ensures Ran() && Held(isolate, hookId) !in w.memory && w == old(w).(memory := old(w.memory) - {Held(isolate, hookId)})
    {
      Take(Forget(isolate, hookId));
    }
  }
}
