// How long a revoked hook can still be routed: exactly what it takes.
module HookRouteBound {
  import opened Wrappers
  import opened HookRoute

  predicate Revoked(w: World, id: string) {
    id in w.index && w.index[id].revokedAt.Some?
  }

  /** The step returns a route of the hook. */
  predicate Returns(w: World, a: Action, id: string) {
    && Actor(a).Some? && Actor(a).value in Next(w, a).calls
    && var call := Next(w, a).calls[Actor(a).value]; call.hookId == id && call.phase.Done? && call.phase.answer.Found?
  }

  /** Somewhere in the run a route of the hook is returned, no earlier than the bound. */
  predicate RoutesFrom(w: World, steps: seq<Action>, id: string, bound: int)
    decreases |steps|
  {
    steps != [] && ((w.now >= bound && Returns(w, steps[0], id)) || RoutesFrom(Next(w, steps[0]), steps[1..], id, bound))
  }

  // ----- From any state: what still can be routed

  /** The entry lasts past the bound, and past now. */
  predicate Lasts(w: World, e: Entry, bound: int) {
    e.until > bound && e.until > w.now
  }

  predicate InMemory(w: World, id: string, bound: int) {
    exists k :: k in w.memory && k.hookId == id && Lasts(w, w.memory[k], bound)
  }

  predicate InCache(w: World, id: string, bound: int) {
    exists e :: e in w.caches && e.hookId == id && Lasts(w, e.entry, bound)
  }

  predicate OnItsWay(w: World, id: string, bound: int) {
    exists e :: e in w.deferred && e.hookId == id && Lasts(w, e.entry, bound)
  }

  /** A call has an entry from the cache in hand, or a live row whose answer it has not had. */
  predicate InHand(w: World, id: string, bound: int) {
    exists c :: c in w.calls && w.calls[c].hookId == id && HasInHand(w, w.calls[c].phase, bound)
  }

  predicate HasInHand(w: World, p: Phase, bound: int) {
    match p
    case Parsing(hit) => hit.Some? && Lasts(w, hit.value, bound)
    case Reading(row, _) => row.Some?
    case _ => false
  }

  predicate StillRoutable(w: World, id: string, bound: int) {
    InMemory(w, id, bound) || InCache(w, id, bound) || OnItsWay(w, id, bound) || InHand(w, id, bound)
  }

  // ----- Nothing left: no route

  lemma RevokedStays(w: World, a: Action, id: string)
    requires Can(w, a) && Revoked(w, id)
    ensures Revoked(Next(w, a), id) && Next(w, a).index[id].revokedAt == w.index[id].revokedAt
  {
  }

  lemma NoneInMemory(w: World, a: Action, id: string, bound: int)
    requires Can(w, a) && Revoked(w, id) && !StillRoutable(w, id, bound)
    ensures !InMemory(Next(w, a), id, bound)
  {
    var w' := Next(w, a);
    forall k | k in w'.memory && k.hookId == id ensures !Lasts(w', w'.memory[k], bound) {
      if k in w.memory && w'.memory[k] == w.memory[k] { assert !Lasts(w, w.memory[k], bound); }
    }
  }

  lemma NoneInCaches(w: World, a: Action, id: string, bound: int)
    requires Can(w, a) && Revoked(w, id) && !StillRoutable(w, id, bound)
    ensures !InCache(Next(w, a), id, bound) && !OnItsWay(Next(w, a), id, bound)
  {
    var w' := Next(w, a);
    forall e | e in w'.caches && e.hookId == id ensures !Lasts(w', e.entry, bound) {
      assert !Lasts(w, e.entry, bound);
    }
    forall e | e in w'.deferred && e.hookId == id ensures !Lasts(w', e.entry, bound) {
      assert !Lasts(w, e.entry, bound);
    }
  }

  lemma NoneInHand(w: World, a: Action, id: string, bound: int)
    requires Can(w, a) && Revoked(w, id) && !StillRoutable(w, id, bound)
    ensures !InHand(Next(w, a), id, bound)
  {
    var w' := Next(w, a);
    forall c | c in w'.calls && w'.calls[c].hookId == id ensures !HasInHand(w', w'.calls[c].phase, bound) {
      if c in w.calls { assert w.calls[c].hookId == id ==> !HasInHand(w, w.calls[c].phase, bound); }
      if a.Matched? && a.call == c && a.hit.Some? {
        assert Cached(w.calls[c].colo, id, a.hit.value) in w.caches;
        assert !Lasts(w, a.hit.value, bound);
      }
    }
  }

  lemma BeginReturns(w: World, a: Action, id: string)
    requires Can(w, a) && a.Begin? && Returns(w, a, id)
    ensures a.hookId == id && Held(a.isolate, id) in w.memory && w.memory[Held(a.isolate, id)].until > w.now
  {
  }

  /** Another step returns what its call had in hand. */
  lemma CallReturns(w: World, a: Action, id: string)
    requires Can(w, a) && !a.Begin? && Returns(w, a, id)
    ensures (a.Parsed? || a.Answered?) && w.calls[a.call].hookId == id
    ensures a.Parsed? ==> w.calls[a.call].phase.hit.Some? && w.calls[a.call].phase.hit.value.until > w.now
    ensures a.Answered? ==> w.calls[a.call].phase.row.Some?
  {
  }

  /** What is returned past the bound was routable. */
  lemma ReturnedWasLeft(w: World, a: Action, id: string, bound: int)
    requires Can(w, a) && Returns(w, a, id) && w.now >= bound
    ensures StillRoutable(w, id, bound)
  {
    if a.Begin? {
      BeginReturns(w, a, id);
      var k := Held(a.isolate, id);
      assert k in w.memory && k.hookId == id && Lasts(w, w.memory[k], bound);
    } else {
      CallReturns(w, a, id);
      assert a.call in w.calls && w.calls[a.call].hookId == id && HasInHand(w, w.calls[a.call].phase, bound);
    }
  }

  lemma StillNothingLeft(w: World, a: Action, id: string, bound: int)
    requires Can(w, a) && Revoked(w, id) && !StillRoutable(w, id, bound)
    ensures !StillRoutable(Next(w, a), id, bound)
  {
    NoneInMemory(w, a, id, bound);
    NoneInCaches(w, a, id, bound);
    NoneInHand(w, a, id, bound);
  }

  lemma {:induction false} NothingLeftNoRoute(w: World, steps: seq<Action>, id: string, bound: int)
    requires IsRun(w, steps) && Revoked(w, id) && !StillRoutable(w, id, bound)
    ensures !RoutesFrom(w, steps, id, bound)
    decreases |steps|
  {
    if steps != [] {
      var a := steps[0];
      if w.now >= bound && Returns(w, a, id) { ReturnedWasLeft(w, a, id, bound); }
      RevokedStays(w, a, id);
      StillNothingLeft(w, a, id, bound);
      NothingLeftNoRoute(Next(w, a), steps[1..], id, bound);
    }
  }

  // ----- Something left: a route

  lemma {:induction false} Above(s: set<nat>) returns (n: nat)
    ensures forall x :: x in s ==> x < n
  {
    if s == {} {
      n := 0;
    } else {
      var x :| x in s;
      var m := Above(s - {x});
      n := if x < m then m else x + 1;
      forall y | y in s ensures y < n {
        assert y == x || y in s - {x};
      }
    }
  }

  lemma FreshCall(w: World) returns (c: nat)
    ensures c !in w.calls
  {
    c := Above(w.calls.Keys);
    assert c !in w.calls.Keys;
  }

  function Max(a: int, b: int): int {
    if a < b then b else a
  }

  /** A step, then a run. */
  lemma Then(w: World, a: Action, rest: seq<Action>, id: string, bound: int)
    requires Can(w, a) && IsRun(Next(w, a), rest)
    requires (w.now >= bound && Returns(w, a, id)) || RoutesFrom(Next(w, a), rest, id, bound)
    ensures IsRun(w, [a] + rest) && RoutesFrom(w, [a] + rest, id, bound)
  {
    Prefix(w, a, rest);
    assert ([a] + rest)[1..] == rest;
  }

  lemma FromMemory(w: World, k: Held, bound: int) returns (steps: seq<Action>)
    requires Inv(w) && k in w.memory && Lasts(w, w.memory[k], bound)
    ensures IsRun(w, steps) && RoutesFrom(w, steps, k.hookId, bound)
  {
    var c := FreshCall(w);
    var tick := Tick(Max(w.now, bound));
    var push := Begin(c, k.isolate, 0, k.hookId, false);
    assert Backed(w.lookups, k.hookId, w.memory[k]);
    Then(Next(w, tick), push, [], k.hookId, bound);
    Then(w, tick, [push] + [], k.hookId, bound);
    steps := [tick] + ([push] + []);
  }

  lemma FromCache(w: World, e: Cached, bound: int) returns (steps: seq<Action>)
    requires Inv(w) && e in w.caches && Lasts(w, e.entry, bound)
    ensures IsRun(w, steps) && RoutesFrom(w, steps, e.hookId, bound)
  {
    var c := FreshCall(w);
    var drop, tick := Drop(0), Tick(Max(w.now, bound));
    var push, hit, parsed := Begin(c, 0, e.colo, e.hookId, true), Matched(c, Some(e.entry)), Parsed(c, true);
    assert Backed(w.lookups, e.hookId, e.entry);
    var w1 := Next(w, drop);
    var w2 := Next(w1, tick);
    assert Held(0, e.hookId) !in w2.memory;
    var w3 := Next(w2, push);
    assert w3.calls[c] == Call(0, e.colo, e.hookId, Matching);
    var w4 := Next(w3, hit);
    Then(w4, parsed, [], e.hookId, bound);
    Then(w3, hit, [parsed] + [], e.hookId, bound);
    Then(w2, push, [hit] + ([parsed] + []), e.hookId, bound);
    Then(w1, tick, [push] + ([hit] + ([parsed] + [])), e.hookId, bound);
    Then(w, drop, [tick] + ([push] + ([hit] + ([parsed] + []))), e.hookId, bound);
    steps := [drop] + ([tick] + ([push] + ([hit] + ([parsed] + []))));
  }

  lemma FromDeferred(w: World, e: Cached, bound: int) returns (steps: seq<Action>)
    requires Inv(w) && e in w.deferred && Lasts(w, e.entry, bound)
    ensures IsRun(w, steps) && RoutesFrom(w, steps, e.hookId, bound)
  {
    var lands := WriteLands(e);
    StepInv(w, lands);
    var rest := FromCache(Next(w, lands), e, bound);
    Then(w, lands, rest, e.hookId, bound);
    steps := [lands] + rest;
  }

  lemma FromHand(w: World, c: nat, bound: int) returns (steps: seq<Action>)
    requires Inv(w) && c in w.calls && HasInHand(w, w.calls[c].phase, bound)
    ensures IsRun(w, steps) && RoutesFrom(w, steps, w.calls[c].hookId, bound)
  {
    var tick := Tick(Max(w.now, bound));
    var last := if w.calls[c].phase.Parsing? then Parsed(c, true) else Answered(c, true);
    assert PhaseOk(w.index, w.lookups, w.now, w.calls[c]);
    Then(Next(w, tick), last, [], w.calls[c].hookId, bound);
    Then(w, tick, [last] + [], w.calls[c].hookId, bound);
    steps := [tick] + ([last] + []);
  }

  lemma SomethingLeftRoutes(w: World, id: string, bound: int) returns (steps: seq<Action>)
    requires Inv(w) && StillRoutable(w, id, bound)
    ensures IsRun(w, steps) && RoutesFrom(w, steps, id, bound)
  {
    if InMemory(w, id, bound) {
      var k :| k in w.memory && k.hookId == id && Lasts(w, w.memory[k], bound);
      steps := FromMemory(w, k, bound);
    } else if InCache(w, id, bound) {
      var e :| e in w.caches && e.hookId == id && Lasts(w, e.entry, bound);
      steps := FromCache(w, e, bound);
    } else if OnItsWay(w, id, bound) {
      var e :| e in w.deferred && e.hookId == id && Lasts(w, e.entry, bound);
      steps := FromDeferred(w, e, bound);
    } else {
      var c :| c in w.calls && w.calls[c].hookId == id && HasInHand(w, w.calls[c].phase, bound);
      steps := FromHand(w, c, bound);
    }
  }

  ghost predicate Reachable(w: World) {
    exists now, actions :: IsRun(Init(now), actions) && w == After(Init(now), actions)
  }

  lemma ReachableInv(w: World)
    requires Reachable(w)
    ensures Inv(w)
  {
    var now, actions :| IsRun(Init(now), actions) && w == After(Init(now), actions);
    RunInv(Init(now), actions);
  }

  ghost predicate CanRoutePast(w: World, id: string, bound: int) {
    exists steps :: IsRun(w, steps) && RoutesFrom(w, steps, id, bound)
  }

  /**
   * From any reachable state, and for any bound: a revoked hook can still be routed at or past it exactly when an entry
   * that lasts past it is in a memory, in a cache or on its way to one, or a call has one in hand, or has read the row
   * while it was live and not had its answer.
   */
  lemma RoutedPastExactlyWhen(w: World, id: string, bound: int)
    requires Reachable(w) && Revoked(w, id)
    ensures CanRoutePast(w, id, bound) <==> StillRoutable(w, id, bound)
  {
    ReachableInv(w);
    if StillRoutable(w, id, bound) {
      var steps := SomethingLeftRoutes(w, id, bound);
    } else {
      forall steps | IsRun(w, steps) ensures !RoutesFrom(w, steps, id, bound) {
        NothingLeftNoRoute(w, steps, id, bound);
      }
    }
  }

  // ----- Over runs: the read that straddles the revocation

  /** A read that found the row before the hook was revoked, and was answered after. */
  predicate Straddles(l: Lookup, id: string, revokedAt: int) {
    l.route.hookId == id && l.readAt <= revokedAt < l.answeredAt
  }

  /** Every route past the TTL of the revocation comes of such a read. */
  lemma PastTheTtlIsStraddled(now: int, actions: seq<Action>, r: Routed) returns (l: Lookup)
    requires IsRun(Init(now), actions) && r in After(Init(now), actions).routed && Revoked(After(Init(now), actions), r.hookId)
    requires r.at >= After(Init(now), actions).index[r.hookId].revokedAt.value + HOOK_ROUTE_TTL_MS
    ensures var w := After(Init(now), actions);
            && l in w.lookups && l.route == r.route && l.answeredAt <= r.at < l.answeredAt + HOOK_ROUTE_TTL_MS
            && r.hookId in w.index && w.index[r.hookId].revokedAt.Some? && Straddles(l, r.hookId, w.index[r.hookId].revokedAt.value)
  {
    l := EveryRouteWasFoundLive(now, actions, r);
  }

  /** A hook is revoked once, and no earlier than now where it is not revoked yet. */
  lemma {:induction false} RevokedOnce(w: World, steps: seq<Action>, id: string)
    requires IsRun(w, steps) && Revoked(After(w, steps), id)
    ensures Revoked(w, id) ==> w.index[id].revokedAt == After(w, steps).index[id].revokedAt
    ensures !Revoked(w, id) ==> After(w, steps).index[id].revokedAt.value >= w.now
    decreases |steps|
  {
    if steps != [] {
      if Revoked(w, id) { RevokedStays(w, steps[0], id); }
      RevokedOnce(Next(w, steps[0]), steps[1..], id);
    }
  }

  /** A lookup is made by the step that answers it: a call has the row, read when it says, and it is the answer's time. */
  lemma AnsweredBy(w: World, a: Action, l: Lookup)
    requires Can(w, a) && l !in w.lookups && l in Next(w, a).lookups
    ensures a.Answered? && a.ok && w.now == l.answeredAt
    ensures a.call in w.calls && w.calls[a.call].phase == Reading(Some(l.route), l.readAt)
  {
  }

  /** Conversely, where such a read was made, the run it was made in could have gone on to a route past the TTL. */
  lemma {:induction false} StraddlingReadCanRoutePast(w: World, actions: seq<Action>, l: Lookup, id: string, revokedAt: int)
      returns (i: nat, more: seq<Action>)
    requires Inv(w) && IsRun(w, actions) && l !in w.lookups && l in After(w, actions).lookups
    requires Revoked(After(w, actions), id) && After(w, actions).index[id].revokedAt == Some(revokedAt) && Straddles(l, id, revokedAt)
    ensures i <= |actions| && IsRun(w, actions[..i])
    ensures var u := After(w, actions[..i]);
            && Revoked(u, id) && u.index[id].revokedAt == Some(revokedAt)
            && IsRun(u, more) && RoutesFrom(u, more, id, revokedAt + HOOK_ROUTE_TTL_MS)
    decreases |actions|
  {
    var a := actions[0];
    if l in Next(w, a).lookups {
      i := 0;
      AnsweredBy(w, a, l);
      RevokedOnce(w, actions, id);
      assert PhaseOk(w.index, w.lookups, w.now, w.calls[a.call]);
      more := FromHand(w, a.call, revokedAt + HOOK_ROUTE_TTL_MS);
    } else {
      StepInv(w, a);
      var j, rest := StraddlingReadCanRoutePast(Next(w, a), actions[1..], l, id, revokedAt);
      i, more := j + 1, rest;
      assert actions[..i] == [a] + actions[1..][..j];
      Prefix(w, a, actions[1..][..j]);
    }
  }
}
