// What a push has to be answered: where a live hook's route comes from, and that none is refused that the index had.
module HookRouteActs {
  import opened Wrappers
  import opened HookRoute

  // ----- One step -----

  /** A copy of the hook's route with time left. */
  predicate Current(e: Entry, id: string, now: int) {
    e.route.hookId == id && now < e.until
  }

  /** A copy in the isolate's memory answers at once; without one it is forgotten, and the cache is asked, or the index. */
  lemma MemoryAnswers(w: World, c: nat, isolate: nat, colo: nat, id: string, hasCache: bool)
    requires c !in w.calls
    ensures var (w', k) := (Next(w, Begin(c, isolate, colo, id, hasCache)), Held(isolate, id));
            && c in w'.calls
            && (k in w.memory && Current(w.memory[k], id, w.now) ==>
                  w'.calls[c].phase == Done(Found(w.memory[k].route, Memory)) && w'.memory == w.memory)
            && (!(k in w.memory && Current(w.memory[k], id, w.now)) ==>
                  w'.calls[c].phase == (if hasCache then Matching else Looking) && k !in w'.memory)
  {
  }

  /** A copy in the colo's cache answers, and is kept in memory with its own expiry; an old one, or none, leads to the index. */
  lemma CacheAnswers(w: World, c: nat, hit: Option<Entry>, read: bool)
    requires Can(w, Matched(c, hit))
    ensures Can(Next(w, Matched(c, hit)), Parsed(c, read))
    ensures var (w', call) := (Next(Next(w, Matched(c, hit)), Parsed(c, read)), w.calls[c]);
            && c in w'.calls
            && (read && hit.Some? && Current(hit.value, call.hookId, w.now) ==>
                  w'.calls[c].phase == Done(Found(hit.value.route, Cache)) && w'.memory == w.memory[Held(call.isolate, call.hookId) := hit.value])
            && (!(read && hit.Some? && Current(hit.value, call.hookId, w.now)) ==>
                  w'.calls[c].phase == Looking && w'.memory == w.memory)
  {
  }

  /** The index is read as it is: its row while that is live. */
  lemma IndexIsRead(w: World, c: nat)
    requires Can(w, Read(c))
    ensures var (w', id) := (Next(w, Read(c)), w.calls[c].hookId);
            c in w'.calls && w'.calls[c].phase ==
              Reading(if id in w.index && w.index[id].revokedAt.None? then Some(w.index[id].route) else None, w.now)
  {
  }

  /** A row read is answered, and kept in memory and for the cache an hour from now; none read is no hook. */
  lemma IndexAnswers(w: World, c: nat)
    requires Can(w, Answered(c, true))
    ensures var (w', call) := (Next(w, Answered(c, true)), w.calls[c]);
            && c in w'.calls
            && (call.phase.row.None? ==> w'.calls[c].phase == Done(NoHook) && w'.memory == w.memory && w'.deferred == w.deferred)
            && (call.phase.row.Some? ==>
                  var e := Entry(call.phase.row.value, w.now + 60 * 60_000);
                  && w'.calls[c].phase == Done(Found(call.phase.row.value, Index))
                  && w'.memory == w.memory[Held(call.isolate, call.hookId) := e]
                  && w'.deferred == w.deferred + {Cached(call.colo, call.hookId, e)})
  {
  }

  // ----- A call nothing disturbs -----

  lemma Then(w: World, a: Action, rest: seq<Action>)
    requires Can(w, a) && IsRun(Next(w, a), rest)
    ensures IsRun(w, [a] + rest) && After(w, [a] + rest) == After(Next(w, a), rest)
  {
    assert ([a] + rest)[1..] == rest;
  }

  lemma FromIndex(w: World, c: nat) returns (steps: seq<Action>)
    requires c in w.calls && w.calls[c].phase.Looking?
    ensures IsRun(w, steps)
    ensures var (v, id) := (After(w, steps), w.calls[c].hookId);
            c in v.calls && v.calls[c].phase ==
              Done(if id in w.index && w.index[id].revokedAt.None? then Found(w.index[id].route, Index) else NoHook)
  {
    IndexIsRead(w, c);
    var w1 := Next(w, Read(c));
    IndexAnswers(w1, c);
    Then(w1, Answered(c, true), []);
    Then(w, Read(c), [Answered(c, true)] + []);
    steps := [Read(c)] + ([Answered(c, true)] + []);
  }

  /**
   * With no copy in its isolate and none answered by its colo's cache, a call whose read of the index is answered finds the
   * hook exactly when the index has it live.
   */
  lemma FindsTheLive(w: World, c: nat, isolate: nat, colo: nat, id: string, hasCache: bool) returns (steps: seq<Action>)
    requires c !in w.calls && Held(isolate, id) !in w.memory
    ensures IsRun(w, steps)
    ensures var v := After(w, steps);
            c in v.calls && v.calls[c].phase ==
              Done(if id in w.index && w.index[id].revokedAt.None? then Found(w.index[id].route, Index) else NoHook)
  {
    var begin := Begin(c, isolate, colo, id, hasCache);
    var w1 := Next(w, begin);
    if hasCache {
      CacheAnswers(w1, c, None, true);
      var w2 := Next(w1, Matched(c, None));
      var w3 := Next(w2, Parsed(c, true));
      var rest := FromIndex(w3, c);
      Then(w2, Parsed(c, true), rest);
      Then(w1, Matched(c, None), [Parsed(c, true)] + rest);
      Then(w, begin, [Matched(c, None)] + ([Parsed(c, true)] + rest));
      steps := [begin] + ([Matched(c, None)] + ([Parsed(c, true)] + rest));
    } else {
      var rest := FromIndex(w1, c);
      Then(w, begin, rest);
      steps := [begin] + rest;
    }
  }

  // ----- No hook, only for a reason -----

  predicate SaysNoHook(p: Phase) {
    p == Done(NoHook) || (p.Reading? && p.row.None?)
  }

  /** The call reads the index, which has no such hook, or has it revoked. */
  predicate FindsNone(w: World, a: Action, c: nat) {
    a == Read(c) && c in w.calls && (w.calls[c].hookId !in w.index || w.index[w.calls[c].hookId].revokedAt.Some?)
  }

  lemma NoneStep(w: World, a: Action, c: nat)
    requires Can(w, a) && c in Next(w, a).calls && SaysNoHook(Next(w, a).calls[c].phase)
    ensures (c in w.calls && SaysNoHook(w.calls[c].phase)) || FindsNone(w, a, c)
  {
  }

  ghost predicate FoundNone(w: World, steps: seq<Action>, c: nat)
    decreases |steps|
  {
    steps != [] && (FindsNone(w, steps[0], c) || FoundNone(Next(w, steps[0]), steps[1..], c))
  }

  lemma {:induction false} NoHookSaid(w: World, steps: seq<Action>, c: nat)
    requires IsRun(w, steps) && c in After(w, steps).calls && SaysNoHook(After(w, steps).calls[c].phase)
    ensures (c in w.calls && SaysNoHook(w.calls[c].phase)) || FoundNone(w, steps, c)
    decreases |steps|
  {
    if steps != [] {
      NoHookSaid(Next(w, steps[0]), steps[1..], c);
      if c in Next(w, steps[0]).calls && SaysNoHook(Next(w, steps[0]).calls[c].phase) { NoneStep(w, steps[0], c); }
    }
  }

  /** However a run goes, a call is told there is no such hook only when its own reading of the index found none live. */
  lemma NoHookForAReason(w: World, steps: seq<Action>, c: nat)
    requires c !in w.calls && IsRun(w, steps) && c in After(w, steps).calls && After(w, steps).calls[c].phase == Done(NoHook)
    ensures FoundNone(w, steps, c)
  {
    NoHookSaid(w, steps, c);
  }
}
