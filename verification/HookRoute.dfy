// Hook routes kept in isolates' memories and colos' caches. A cache may answer any entry ever written to it, forgotten
// or not, or nothing; writes to it are deferred and land whenever they do; isolates come and go.
module HookRoute {
  import opened Wrappers

  const HOOK_ROUTE_TTL_MS: int := 3_600_000

  datatype Route = Route(hookId: string, tenant: string, agent: string, alias: string)
  datatype Row = Row(route: Route, revokedAt: Option<int>)
  datatype Entry = Entry(route: Route, until: int)
  /** A live row read from the index: when it was read, and when its answer was had. */
  datatype Lookup = Lookup(route: Route, readAt: int, answeredAt: int)
  datatype Source = Memory | Cache | Index
  datatype Answer = Found(route: Route, source: Source) | NoHook | Failed
  datatype Phase = Matching | Parsing(hit: Option<Entry>) | Looking | Reading(row: Option<Route>, readAt: int) | Done(answer: Answer)
  datatype Call = Call(isolate: nat, colo: nat, hookId: string, phase: Phase)
  datatype Held = Held(isolate: nat, hookId: string)
  datatype Cached = Cached(colo: nat, hookId: string, entry: Entry)
  /** A route answered to a push, and when. */
  datatype Routed = Routed(hookId: string, route: Route, at: int)

  datatype World = World(now: int, index: map<string, Row>, memory: map<Held, Entry>, caches: set<Cached>, deferred: set<Cached>,
                         calls: map<nat, Call>, lookups: set<Lookup>, routed: set<Routed>)

  datatype Action =
    | Tick(now: int) | Create(route: Route) | Revoke(hookId: string) | WriteLands(write: Cached)
    | Forget(isolate: nat, hookId: string) | Drop(isolate: nat)
    | Begin(call: nat, isolate: nat, colo: nat, hookId: string, hasCache: bool)
    | Matched(call: nat, hit: Option<Entry>) | Parsed(call: nat, read: bool) | Read(call: nat) | Answered(call: nat, ok: bool)

  function Actor(a: Action): Option<nat> {
    match a
    case Begin(c, _, _, _, _) => Some(c)
    case Matched(c, _) => Some(c)
    case Parsed(c, _) => Some(c)
    case Read(c) => Some(c)
    case Answered(c, _) => Some(c)
    case _ => None
  }

  predicate Can(w: World, a: Action) {
    match a
    case Tick(now) => w.now <= now
    case Create(route) => route.hookId !in w.index
    case Revoke(id) => id in w.index && w.index[id].revokedAt.None?
    case WriteLands(write) => write in w.deferred
    case Forget(_, _) => true
    case Drop(_) => true
    case Begin(c, _, _, _, _) => c !in w.calls
    case Matched(c, hit) =>
      c in w.calls && w.calls[c].phase.Matching? && (hit.Some? ==> Cached(w.calls[c].colo, w.calls[c].hookId, hit.value) in w.caches)
    case Parsed(c, _) => c in w.calls && w.calls[c].phase.Parsing?
    case Read(c) => c in w.calls && w.calls[c].phase.Looking?
    case Answered(c, _) => c in w.calls && w.calls[c].phase.Reading?
  }

  function At(w: World, c: nat, p: Phase): map<nat, Call>
    requires c in w.calls
  {
    w.calls[c := w.calls[c].(phase := p)]
  }

  predicate Fresh(e: Entry, id: string, now: int) {
    e.until > now && e.route.hookId == id
  }

  /** The answer is had: the route is returned now. */
  function Return(w: World, c: nat, route: Route, source: Source): World
    requires c in w.calls
  {
    w.(calls := At(w, c, Done(Found(route, source))), routed := w.routed + {Routed(w.calls[c].hookId, route, w.now)})
  }

  function Began(w: World, c: nat, isolate: nat, colo: nat, id: string, hasCache: bool): World {
    var k := Held(isolate, id);
    if k in w.memory && Fresh(w.memory[k], id, w.now) then
      Return(w.(calls := w.calls[c := Call(isolate, colo, id, Looking)]), c, w.memory[k].route, Memory)
    else
      w.(memory := w.memory - {k}, calls := w.calls[c := Call(isolate, colo, id, if hasCache then Matching else Looking)])
  }

  function AfterHit(w: World, c: nat, hit: Option<Entry>, read: bool): World
    requires c in w.calls
  {
    var call := w.calls[c];
    if read && hit.Some? && Fresh(hit.value, call.hookId, w.now) then
      Return(w.(memory := w.memory[Held(call.isolate, call.hookId) := hit.value]), c, hit.value.route, Cache)
    else w.(calls := At(w, c, Looking))
  }

  /** The live row of an id, as the index has it now. */
  function LiveRow(w: World, id: string): Option<Route> {
    if id in w.index && w.index[id].revokedAt.None? then Some(w.index[id].route) else None
  }

  function AfterLookup(w: World, c: nat, row: Option<Route>, readAt: int): World
    requires c in w.calls
  {
    if row.None? then w.(calls := At(w, c, Done(NoHook)))
    else
      var call := w.calls[c];
      var e := Entry(row.value, w.now + HOOK_ROUTE_TTL_MS);
      Return(w.(memory := w.memory[Held(call.isolate, call.hookId) := e], deferred := w.deferred + {Cached(call.colo, call.hookId, e)},
                lookups := w.lookups + {Lookup(row.value, readAt, w.now)}), c, row.value, Index)
  }

  function Next(w: World, a: Action): World {
    match a
    case Tick(now) => w.(now := now)
    case Create(route) => w.(index := w.index[route.hookId := Row(route, None)])
    case Revoke(id) => if id in w.index then w.(index := w.index[id := w.index[id].(revokedAt := Some(w.now))]) else w
    case WriteLands(write) => w.(caches := w.caches + {write}, deferred := w.deferred - {write})
    case Forget(isolate, id) => w.(memory := w.memory - {Held(isolate, id)})
    case Drop(isolate) => w.(memory := map k | k in w.memory && k.isolate != isolate :: w.memory[k])
    case Begin(c, isolate, colo, id, hasCache) => Began(w, c, isolate, colo, id, hasCache)
    case Matched(c, hit) => if c in w.calls then w.(calls := At(w, c, Parsing(hit))) else w
    case Parsed(c, read) => if c in w.calls && w.calls[c].phase.Parsing? then AfterHit(w, c, w.calls[c].phase.hit, read) else w
    case Read(c) => if c in w.calls then w.(calls := At(w, c, Reading(LiveRow(w, w.calls[c].hookId), w.now))) else w
    case Answered(c, ok) =>
      if c !in w.calls || !w.calls[c].phase.Reading? then w
      else if !ok then w.(calls := At(w, c, Done(Failed)))
      else AfterLookup(w, c, w.calls[c].phase.row, w.calls[c].phase.readAt)
  }

  predicate IsRun(w: World, actions: seq<Action>)
    decreases |actions|
  {
    actions == [] || (Can(w, actions[0]) && IsRun(Next(w, actions[0]), actions[1..]))
  }

  function After(w: World, actions: seq<Action>): World
    decreases |actions|
  {
    if actions == [] then w else After(Next(w, actions[0]), actions[1..])
  }

  function Init(now: int): World {
    World(now, map[], map[], {}, {}, map[], {}, {})
  }

  // ----- The invariant -----

  /** The row is the index's, whose route never changes, and was live then. */
  predicate WasLive(index: map<string, Row>, route: Route, at: int) {
    route.hookId in index && index[route.hookId].route == route
    && (index[route.hookId].revokedAt.Some? ==> at <= index[route.hookId].revokedAt.value)
  }

  predicate LookupOk(index: map<string, Row>, now: int, l: Lookup) {
    WasLive(index, l.route, l.readAt) && l.readAt <= l.answeredAt <= now
  }

  /** The entry is one lookup's, with that lookup's expiry. */
  predicate Backed(lookups: set<Lookup>, id: string, e: Entry) {
    e.route.hookId == id && exists l :: l in lookups && l.route == e.route && e.until == l.answeredAt + HOOK_ROUTE_TTL_MS
  }

  /** The route was returned within the TTL of a lookup's answer. */
  predicate RoutedOk(lookups: set<Lookup>, r: Routed) {
    r.route.hookId == r.hookId && exists l :: l in lookups && l.route == r.route && l.answeredAt <= r.at < l.answeredAt + HOOK_ROUTE_TTL_MS
  }

  predicate PhaseOk(index: map<string, Row>, lookups: set<Lookup>, now: int, c: Call) {
    match c.phase
    case Parsing(hit) => hit.Some? ==> Backed(lookups, c.hookId, hit.value)
    case Reading(row, readAt) => row.Some? ==> row.value.hookId == c.hookId && WasLive(index, row.value, readAt) && readAt <= now
    case _ => true
  }

  ghost predicate IndexOk(w: World) {
    forall id :: id in w.index ==> w.index[id].route.hookId == id && (w.index[id].revokedAt.Some? ==> w.index[id].revokedAt.value <= w.now)
  }

  ghost predicate LookupsOk(w: World) {
    forall l :: l in w.lookups ==> LookupOk(w.index, w.now, l)
  }

  ghost predicate EntriesOk(w: World) {
    && (forall k :: k in w.memory ==> Backed(w.lookups, k.hookId, w.memory[k]))
    && (forall e :: e in w.caches ==> Backed(w.lookups, e.hookId, e.entry))
    && (forall e :: e in w.deferred ==> Backed(w.lookups, e.hookId, e.entry))
  }

  ghost predicate CallsOk(w: World) {
    forall c :: c in w.calls ==> PhaseOk(w.index, w.lookups, w.now, w.calls[c])
  }

  ghost predicate RoutedAllOk(w: World) {
    forall r :: r in w.routed ==> RoutedOk(w.lookups, r)
  }

  ghost predicate Inv(w: World) {
    IndexOk(w) && LookupsOk(w) && EntriesOk(w) && CallsOk(w) && RoutedAllOk(w)
  }

  lemma BackedMore(lookups: set<Lookup>, more: set<Lookup>, id: string, e: Entry)
    requires Backed(lookups, id, e) && lookups <= more
    ensures Backed(more, id, e)
  {
    var l :| l in lookups && l.route == e.route && e.until == l.answeredAt + HOOK_ROUTE_TTL_MS;
    assert l in more;
  }

  lemma RoutedMore(lookups: set<Lookup>, more: set<Lookup>, r: Routed)
    requires RoutedOk(lookups, r) && lookups <= more
    ensures RoutedOk(more, r)
  {
    var l :| l in lookups && l.route == r.route && l.answeredAt <= r.at < l.answeredAt + HOOK_ROUTE_TTL_MS;
    assert l in more;
  }

  /** More lookups, later, change nothing said of what there was. */
  lemma MoreLookups(w: World, more: set<Lookup>)
    requires Inv(w) && w.lookups <= more && forall l :: l in more ==> LookupOk(w.index, w.now, l)
    ensures Inv(w.(lookups := more))
  {
    var w' := w.(lookups := more);
    forall k | k in w.memory ensures Backed(more, k.hookId, w.memory[k]) { BackedMore(w.lookups, more, k.hookId, w.memory[k]); }
    forall e | e in w.caches ensures Backed(more, e.hookId, e.entry) { BackedMore(w.lookups, more, e.hookId, e.entry); }
    forall e | e in w.deferred ensures Backed(more, e.hookId, e.entry) { BackedMore(w.lookups, more, e.hookId, e.entry); }
    forall r | r in w.routed ensures RoutedOk(more, r) { RoutedMore(w.lookups, more, r); }
    forall c | c in w.calls ensures PhaseOk(w.index, more, w.now, w.calls[c]) {
      assert PhaseOk(w.index, w.lookups, w.now, w.calls[c]);
      if w.calls[c].phase.Parsing? && w.calls[c].phase.hit.Some? { BackedMore(w.lookups, more, w.calls[c].hookId, w.calls[c].phase.hit.value); }
    }
  }

  /** Time passes, hooks are made and revoked: what was live then still was. */
  lemma IndexMoves(w: World, a: Action)
    requires Inv(w) && Can(w, a) && (a.Tick? || a.Create? || a.Revoke?)
    ensures Inv(Next(w, a))
  {
    var w' := Next(w, a);
    assert forall route, at :: WasLive(w.index, route, at) && at <= w.now ==> WasLive(w'.index, route, at);
    forall l | l in w.lookups ensures LookupOk(w'.index, w'.now, l) {
      assert LookupOk(w.index, w.now, l);
    }
    forall c | c in w.calls ensures PhaseOk(w'.index, w.lookups, w'.now, w.calls[c]) {
      assert PhaseOk(w.index, w.lookups, w.now, w.calls[c]);
    }
  }

  /** A fresh backed entry may be returned. */
  lemma ReturnKeeps(w: World, c: nat, e: Entry, source: Source)
    requires Inv(w) && c in w.calls && Backed(w.lookups, w.calls[c].hookId, e) && e.until > w.now
    ensures Inv(Return(w, c, e.route, source))
  {
    var l :| l in w.lookups && l.route == e.route && e.until == l.answeredAt + HOOK_ROUTE_TTL_MS;
    assert LookupOk(w.index, w.now, l);
    assert RoutedOk(w.lookups, Routed(w.calls[c].hookId, e.route, w.now));
  }

  lemma MemoryKeeps(w: World, memory: map<Held, Entry>)
    requires Inv(w) && forall k :: k in memory ==> Backed(w.lookups, k.hookId, memory[k])
    ensures Inv(w.(memory := memory))
  {
  }

  lemma BeganKeeps(w: World, c: nat, isolate: nat, colo: nat, id: string, hasCache: bool)
    requires Inv(w) && c !in w.calls
    ensures Inv(Began(w, c, isolate, colo, id, hasCache))
  {
    var k := Held(isolate, id);
    if k in w.memory && Fresh(w.memory[k], id, w.now) {
      var mid := w.(calls := w.calls[c := Call(isolate, colo, id, Looking)]);
      assert Inv(mid);
      ReturnKeeps(mid, c, w.memory[k], Memory);
    }
  }

  lemma AfterHitKeeps(w: World, c: nat, hit: Option<Entry>, read: bool)
    requires Inv(w) && c in w.calls && (hit.Some? ==> Backed(w.lookups, w.calls[c].hookId, hit.value))
    ensures Inv(AfterHit(w, c, hit, read))
  {
    var call := w.calls[c];
    if read && hit.Some? && Fresh(hit.value, call.hookId, w.now) {
      var memory := w.memory[Held(call.isolate, call.hookId) := hit.value];
      MemoryKeeps(w, memory);
      ReturnKeeps(w.(memory := memory), c, hit.value, Cache);
    }
  }

  lemma AfterLookupKeeps(w: World, c: nat, row: Option<Route>, readAt: int)
    requires Inv(w) && c in w.calls
    requires row.Some? ==> row.value.hookId == w.calls[c].hookId && WasLive(w.index, row.value, readAt) && readAt <= w.now
    ensures Inv(AfterLookup(w, c, row, readAt))
  {
    if row.Some? {
      var call := w.calls[c];
      var e := Entry(row.value, w.now + HOOK_ROUTE_TTL_MS);
      var l := Lookup(row.value, readAt, w.now);
      var more := w.lookups + {l};
      MoreLookups(w, more);
      assert l in more && Backed(more, call.hookId, e);
      var memory := w.memory[Held(call.isolate, call.hookId) := e];
      MemoryKeeps(w.(lookups := more), memory);
      var mid := w.(memory := memory, deferred := w.deferred + {Cached(call.colo, call.hookId, e)}, lookups := more);
      assert Inv(mid);
      ReturnKeeps(mid, c, e, Index);
    }
  }

  lemma StepInv(w: World, a: Action)
    requires Inv(w) && Can(w, a)
    ensures Inv(Next(w, a))
  {
    match a
    case Tick(_) => IndexMoves(w, a);
    case Create(_) => IndexMoves(w, a);
    case Revoke(_) => IndexMoves(w, a);
    case WriteLands(write) =>
    case Forget(_, _) =>
    case Drop(_) =>
    case Begin(c, isolate, colo, id, hasCache) => BeganKeeps(w, c, isolate, colo, id, hasCache);
    case Matched(c, hit) =>
    case Parsed(c, read) =>
      assert PhaseOk(w.index, w.lookups, w.now, w.calls[c]);
      AfterHitKeeps(w, c, w.calls[c].phase.hit, read);
    case Read(c) =>
    case Answered(c, ok) =>
      assert PhaseOk(w.index, w.lookups, w.now, w.calls[c]);
      if ok { AfterLookupKeeps(w, c, w.calls[c].phase.row, w.calls[c].phase.readAt); }
  }

  lemma {:induction false} RunInv(w: World, actions: seq<Action>)
    requires Inv(w) && IsRun(w, actions)
    ensures Inv(After(w, actions))
    decreases |actions|
  {
    if actions != [] {
      StepInv(w, actions[0]);
      RunInv(Next(w, actions[0]), actions[1..]);
    }
  }

  // ----- What every run promises -----

  /**
   * Every route returned is its hook's row in the index, and some read of the index found that row live whose answer came
   * less than the TTL before.
   */
  lemma EveryRouteWasFoundLive(now: int, actions: seq<Action>, r: Routed) returns (l: Lookup)
    requires IsRun(Init(now), actions) && r in After(Init(now), actions).routed
    ensures var w := After(Init(now), actions);
            && r.route.hookId == r.hookId && r.hookId in w.index && w.index[r.hookId].route == r.route
            && l in w.lookups && l.route == r.route && WasLive(w.index, l.route, l.readAt)
            && l.readAt <= l.answeredAt <= r.at < l.answeredAt + HOOK_ROUTE_TTL_MS
  {
    var w := After(Init(now), actions);
    RunInv(Init(now), actions);
    assert RoutedOk(w.lookups, r);
    l :| l in w.lookups && l.route == r.route && l.answeredAt <= r.at < l.answeredAt + HOOK_ROUTE_TTL_MS;
    assert LookupOk(w.index, w.now, l);
  }

  /** The entry of the hook is in an isolate's memory, a colo's cache, a write on its way to one, or a call's hand. */
  predicate HeldAnywhere(w: World, id: string, e: Entry) {
    || (exists k :: k in w.memory && k.hookId == id && w.memory[k] == e)
    || (exists c :: c in w.caches && c.hookId == id && c.entry == e)
    || (exists c :: c in w.deferred && c.hookId == id && c.entry == e)
    || (exists c :: c in w.calls && w.calls[c].hookId == id && w.calls[c].phase.Parsing? && w.calls[c].phase.hit == Some(e))
  }

  lemma HeldIsBacked(w: World, id: string, e: Entry)
    requires EntriesOk(w) && CallsOk(w) && HeldAnywhere(w, id, e)
    ensures Backed(w.lookups, id, e)
  {
    if c :| c in w.calls && w.calls[c].hookId == id && w.calls[c].phase.Parsing? && w.calls[c].phase.hit == Some(e) {
      assert PhaseOk(w.index, w.lookups, w.now, w.calls[c]);
    }
  }

  /** Every entry held anywhere carries the expiry of a read of the index: no copy, from cache to memory or late, extends it. */
  lemma NoCopyExtends(now: int, actions: seq<Action>, id: string, e: Entry) returns (l: Lookup)
    requires IsRun(Init(now), actions) && HeldAnywhere(After(Init(now), actions), id, e)
    ensures var w := After(Init(now), actions);
            e.route.hookId == id && l in w.lookups && l.route == e.route && e.until == l.answeredAt + HOOK_ROUTE_TTL_MS && l.answeredAt <= w.now
  {
    var w := After(Init(now), actions);
    RunInv(Init(now), actions);
    HeldIsBacked(w, id, e);
    l :| l in w.lookups && l.route == e.route && e.until == l.answeredAt + HOOK_ROUTE_TTL_MS;
    assert LookupOk(w.index, w.now, l);
  }

  /** Where no read of the index waits longer than `latency` for its answer, a revoked hook is routed less than that and the TTL longer. */
  lemma RevokedIsRoutedNoLonger(now: int, actions: seq<Action>, r: Routed, latency: int)
    requires IsRun(Init(now), actions) && r in After(Init(now), actions).routed
    requires forall l :: l in After(Init(now), actions).lookups ==> l.answeredAt - l.readAt <= latency
    ensures var w := After(Init(now), actions);
            r.hookId in w.index
            && (w.index[r.hookId].revokedAt.Some? ==> r.at < w.index[r.hookId].revokedAt.value + latency + HOOK_ROUTE_TTL_MS)
  {
    var l := EveryRouteWasFoundLive(now, actions, r);
  }

  /** The read was slow: the row was revoked at 1, while its answer was had at 10. */
  lemma SlowRead(route: Route) returns (actions: seq<Action>)
    ensures IsRun(Init(0), actions)
    ensures var w := After(Init(0), actions);
            && w.now == 10 && route.hookId in w.index && w.index[route.hookId].revokedAt == Some(1) && w.calls.Keys == {0}
            && Held(0, route.hookId) in w.memory && w.memory[Held(0, route.hookId)] == Entry(route, 10 + HOOK_ROUTE_TTL_MS)
  {
    var id := route.hookId;
    var w0 := Init(0);
    var w1 := Next(w0, Create(route));
    var w2 := Next(w1, Begin(0, 0, 0, id, false));
    assert w2.calls[0] == Call(0, 0, id, Looking);
    var w3 := Next(w2, Read(0));
    assert w3.calls[0].phase == Reading(Some(route), 0);
    var w4 := Next(w3, Tick(1));
    var w5 := Next(w4, Revoke(id));
    var w6 := Next(w5, Tick(10));
    assert w6.calls[0].phase == Reading(Some(route), 0);
    var w7 := Next(w6, Answered(0, true));
    Prefix(w6, Answered(0, true), []);
    var a6 := [Answered(0, true)] + [];
    Prefix(w5, Tick(10), a6);
    var a5 := [Tick(10)] + a6;
    Prefix(w4, Revoke(id), a5);
    var a4 := [Revoke(id)] + a5;
    Prefix(w3, Tick(1), a4);
    var a3 := [Tick(1)] + a4;
    Prefix(w2, Read(0), a3);
    var a2 := [Read(0)] + a3;
    Prefix(w1, Begin(0, 0, 0, id, false), a2);
    var a1 := [Begin(0, 0, 0, id, false)] + a2;
    Prefix(w0, Create(route), a1);
    actions := [Create(route)] + a1;
  }

  /**
   * The bound is from the answer, not from the read: a hook revoked one tick after a slow read found it live is still
   * routed more than the TTL after the revocation.
   */
  lemma SlowReadOutlastsTheTtl(route: Route) returns (actions: seq<Action>)
    ensures IsRun(Init(0), actions)
    ensures var w := After(Init(0), actions);
            && route.hookId in w.index && w.index[route.hookId].revokedAt == Some(1)
            && Routed(route.hookId, route, HOOK_ROUTE_TTL_MS + 5) in w.routed
  {
    var first := SlowRead(route);
    var w := After(Init(0), first);
    var late := Tick(HOOK_ROUTE_TTL_MS + 5);
    var again := Begin(1, 0, 0, route.hookId, false);
    var w1 := Next(w, late);
    Prefix(w1, again, []);
    Prefix(w, late, [again] + []);
    actions := first + ([late] + ([again] + []));
    RunThen(Init(0), first, [late] + ([again] + []));
  }

  lemma Prefix(w: World, a: Action, rest: seq<Action>)
    ensures IsRun(w, [a] + rest) <==> Can(w, a) && IsRun(Next(w, a), rest)
    ensures After(w, [a] + rest) == After(Next(w, a), rest)
  {
    assert ([a] + rest)[1..] == rest;
  }

  lemma {:induction false} RunThen(w: World, steps: seq<Action>, more: seq<Action>)
    requires IsRun(w, steps) && IsRun(After(w, steps), more)
    ensures IsRun(w, steps + more) && After(w, steps + more) == After(After(w, steps), more)
    decreases |steps|
  {
    if steps == [] {
      assert steps + more == more;
    } else {
      assert (steps + more)[1..] == steps[1..] + more;
      RunThen(Next(w, steps[0]), steps[1..], more);
    }
  }
}
