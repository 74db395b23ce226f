// Renewing a shared connector, as a machine whose every step is one await of one renewal (or one move of the world).
//
// Any number of renewals run over one connector row: leases expire, the person reconnects, the connector is removed,
// GitHub ends tokens on its own, answers are lost, and any call to the database may throw. Each renewal's phase says
// which await it is at.
module Renewal {
  import opened Wrappers
  import opened ConnectorRow

  const LEASE_MS := 30_000
  const TOKEN_TIMEOUT_MS := 25_000
  const RECENT_MS := 60_000
  const REFRESH_SKEW_MS := 300_000
  const ROTATE_ATTEMPTS := 3

  datatype Why = Expiring | Rejected | Adopt

  /** What the token endpoint says of a refresh token (the refusals are those of section 5.2 of RFC 6749, and GitHub's own). */
  datatype Answer = NewPair(pair: Pair, expiresAt: int) | NoRefreshToken | Refused | Unavailable

  /** `spent` is the pair traded, `minted` the one GitHub handed out for it, `era` the connector's when it was read. */
  datatype Outcome =
    | Given(access: Pair)
    | Gone
    | IsBroken
    | NoCredentials
    | LeaseTimeout
    | NotRenewed
    | Rotated(spent: Pair, minted: Pair, era: nat)
    | Unstored(spent: Pair, minted: Pair, era: nat)
    | Threw

  /** The await a renewal is at. `until` is the end of its own lease, `since` when a lease request's times were read. */
  datatype Phase =
    | Reading
    | Asking(was: Pair, access: Pair)
    | Leasing(was: Pair, deadline: int, since: int)
    | Waiting(was: Pair, deadline: int)
    | Confirming(was: Pair, until: int)
    | AskingAgain(was: Pair, access: Pair, until: int, era: nat)
    | Armed(was: Pair, until: int, era: nat)
    | Trading(was: Pair, until: int, era: nat, started: int, answer: Option<Answer>)
    | Storing(was: Pair, era: nat, minted: Pair, expiresAt: int, attempt: nat)
    | Looking(was: Pair)
    | Marking(was: Pair)
    | Settling(was: Pair)
    | Releasing(next: Outcome)
    | Done(outcome: Outcome)

  datatype Call = Call(why: Why, stale: Option<Pair>, dead: Option<bool>, phase: Phase)

  datatype World = World(
    now: int,
    row: Option<Row>,
    era: nat,                   // reconnects and removals so far
    stored: seq<Pair>,          // every pair the row has held with a refresh token, oldest first
    base: nat,                  // where in `stored` this era begins
    live: set<Pair>,            // refresh tokens GitHub accepts
    refused: set<Pair>,         // refresh tokens GitHub has refused
    traded: map<Pair, Pair>,    // what each spent refresh token was traded for
    next: Pair,                 // the next pair GitHub hands out
    barred: set<Holder>,        // renewals whose agent `grant` no longer answers
    app: bool,                  // the deployment has App credentials
    calls: map<Holder, Call>)
  {
    function Current(): Option<Pair> {
      if row.Some? then row.value.Current() else None
    }

    /** What `grant` answers the renewal `r`. */
    function Grant(r: Holder): Option<Row> {
      if r in barred then None else row
    }
  }

  datatype Action =
    | Tick(ms: nat)
    | Revoke(pair: Pair)
    | ReconnectIt(expiresAt: Option<int>, accountId: nat, login: string)
    | RemoveIt
    | Bar(r: Holder)
    | Begin(r: Holder, why: Why, stale: Option<Pair>)
    | Read(r: Holder)
    | Answered(r: Holder, dead: bool)
    | TryLease(r: Holder)
    | Poll(r: Holder)
    | Confirm(r: Holder)
    | Trade(r: Holder)
    | Decide(r: Holder, answer: Answer)
    | Receive(r: Holder)
    | Lose(r: Holder)
    | Store(r: Holder, committed: bool, threw: bool)
    | Look(r: Holder)
    | Mark(r: Holder)
    | Settle(r: Holder)
    | Release(r: Holder)
    | Throw(r: Holder)

  function Actor(a: Action): Option<Holder> {
    match a
    case Tick(_) => None
    case Revoke(_) => None
    case ReconnectIt(_, _, _) => None
    case RemoveIt => None
    case Bar(_) => None
    case _ => Some(a.r)
  }

  function Fresh(expiresAt: Option<int>, now: int): bool {
    expiresAt.None? || expiresAt.value - now > REFRESH_SKEW_MS
  }

  datatype Need = Yes | No | Ask

  /** `needs`: whether the connector read has to be renewed, must not be, or GitHub has to be asked about the token first. */
  function Needs(k: Row, c: Call, now: int): Need {
    if k.refresh.None? || c.why.Adopt? then No
    else if !Fresh(k.refresh.value.expiresAt, now) then Yes
    else if !c.why.Rejected? || c.stale.None? then No
    else if k.refreshedAt.Some? && now - k.refreshedAt.value < RECENT_MS then No
    else if Some(k.access) != c.stale then No
    else if c.dead.None? then Ask
    else if c.dead.value then Yes else No
  }

  /** A request is open until its timeout: an answer after it is not received. */
  predicate Open(p: Phase, now: int) {
    p.Trading? && now <= p.started + TOKEN_TIMEOUT_MS
  }

  /** GitHub trades only a refresh token it accepts, and refuses only one it does not. */
  predicate GithubMay(w: World, spent: Pair, answer: Answer) {
    match answer
    case NewPair(pair, _) => spent in w.live && pair == w.next
    case NoRefreshToken => spent in w.live
    case Refused => spent !in w.live
    case Unavailable => true
  }

  /** When a step can happen. */
  predicate Can(w: World, a: Action) {
    match a
    case Tick(_) => true
    case Revoke(_) => true
    case ReconnectIt(_, _, _) => w.row.Some?
    case RemoveIt => w.row.Some?
    case Bar(_) => true
    case Begin(r, _, _) => r !in w.calls
    case Read(r) => r in w.calls && w.calls[r].phase.Reading?
    case Answered(r, _) => r in w.calls && (w.calls[r].phase.Asking? || w.calls[r].phase.AskingAgain?)
    case TryLease(r) => r in w.calls && w.calls[r].phase.Leasing? && w.calls[r].phase.since <= w.now
    case Poll(r) => r in w.calls && w.calls[r].phase.Waiting?
    case Confirm(r) => r in w.calls && w.calls[r].phase.Confirming?
    case Trade(r) => r in w.calls && w.calls[r].phase.Armed?
    case Decide(r, answer) =>
      r in w.calls && w.calls[r].phase.Trading? && w.calls[r].phase.answer.None? && GithubMay(w, w.calls[r].phase.was, answer)
    case Receive(r) => r in w.calls && Open(w.calls[r].phase, w.now) && w.calls[r].phase.answer.Some?
    case Lose(r) => r in w.calls && w.calls[r].phase.Trading?
    case Store(r, committed, threw) => r in w.calls && w.calls[r].phase.Storing? && (committed || threw)
    case Look(r) => r in w.calls && w.calls[r].phase.Looking?
    case Mark(r) => r in w.calls && w.calls[r].phase.Marking?
    case Settle(r) => r in w.calls && w.calls[r].phase.Settling?
    case Release(r) => r in w.calls && w.calls[r].phase.Releasing?
    case Throw(r) => r in w.calls && !w.calls[r].phase.Trading? && !w.calls[r].phase.Storing? && !w.calls[r].phase.Done?
  }

  function To(w: World, r: Holder, p: Phase): World
    requires r in w.calls
  {
    w.(calls := w.calls[r := w.calls[r].(phase := p)])
  }

  /** After the first reading of the connector, `was` being the ciphertext it held. */
  function Renewable(w: World, r: Holder, was: Pair): Phase {
    if w.app then Leasing(was, w.now + LEASE_MS + 5_000, w.now) else Done(NoCredentials)
  }

  function AfterRead(w: World, r: Holder): Phase
    requires r in w.calls
  {
    var k := w.Grant(r);
    if k.None? then Done(Gone)
    else if k.value.brokenAt.Some? then Done(IsBroken)
    else match Needs(k.value, w.calls[r], w.now)
      case No => Done(Given(k.value.access))
      case Ask => if k.value.refresh.Some? then Asking(k.value.refresh.value.pair, k.value.access) else Done(Given(k.value.access))
      case Yes => if k.value.refresh.Some? then Renewable(w, r, k.value.refresh.value.pair) else Done(Given(k.value.access))
  }

  /** A lost lease: what whoever holds it has made of the connector since. */
  function AfterPoll(w: World, r: Holder, was: Pair, deadline: int): Phase {
    var again := w.Grant(r);
    if again.None? then Done(Gone)
    else if again.value.brokenAt.Some? then Done(IsBroken)
    else if again.value.Current() != Some(was) then Done(Given(again.value.access))
    else Leasing(was, deadline, w.now)
  }

  /** The reading under the lease. */
  function AfterConfirm(w: World, r: Holder, was: Pair, until: int): Phase
    requires r in w.calls
  {
    var k := w.Grant(r);
    if k.None? || k.value.refresh.None? then Releasing(Gone)
    else if k.value.Current() != Some(was) then Releasing(Given(k.value.access))
    else match Needs(k.value, w.calls[r], w.now)
      case No => Releasing(Given(k.value.access))
      case Ask => AskingAgain(was, k.value.access, until, w.era)
      case Yes => Armed(was, until, w.era)
  }

  /** Whether GitHub said the token is dead decides the rest; it is asked at most once. */
  function AfterAnswer(w: World, r: Holder, dead: bool): World
    requires r in w.calls && (w.calls[r].phase.Asking? || w.calls[r].phase.AskingAgain?)
  {
    var w' := w.(calls := w.calls[r := w.calls[r].(dead := Some(dead))]);
    match w.calls[r].phase
    case Asking(was, access) =>
      To(w', r, if dead then Renewable(w, r, was) else Done(Given(access)))
    case AskingAgain(was, access, until, era) =>
      To(w', r, if dead then Armed(was, until, era) else Releasing(Given(access)))
  }

  /** GitHub's side of a trade: the old pair dies as the new one is handed out. */
  function AfterDecide(w: World, r: Holder, answer: Answer): World
    requires r in w.calls && w.calls[r].phase.Trading?
  {
    var was := w.calls[r].phase.was;
    var w' := To(w, r, w.calls[r].phase.(answer := Some(answer)));
    match answer
    case NewPair(pair, _) => w'.(live := w.live - {was} + {pair}, traded := w.traded[was := pair], next := w.next + 1)
    case NoRefreshToken => w'.(live := w.live - {was})
    case Refused => w'.(refused := w.refused + {was})
    case Unavailable => w'
  }

  function AfterReceive(w: World, r: Holder): Phase
    requires r in w.calls && w.calls[r].phase.Trading? && w.calls[r].phase.answer.Some?
  {
    var p := w.calls[r].phase;
    match p.answer.value
    case NewPair(pair, expiresAt) => Storing(p.was, p.era, pair, expiresAt, 1)
    case NoRefreshToken => Releasing(NotRenewed)
    case Refused => Looking(p.was)
    case Unavailable => Releasing(NotRenewed)
  }

  /** The write of a new pair: it may throw having committed or not; three throws hand the pair back unstored. */
  function AfterStore(w: World, r: Holder, committed: bool, threw: bool): World
    requires r in w.calls && w.calls[r].phase.Storing?
  {
    var p := w.calls[r].phase;
    var w' := if committed && w.row.Some? && w.Current() == Some(p.was)
      then w.(row := Some(Rotate(w.row.value, Refresh(p.minted, Some(p.expiresAt)), w.now, p.was, r).0), stored := w.stored + [p.minted])
      else w;
    To(w', r,
      if !threw then Done(Rotated(p.was, p.minted, p.era))
      else if p.attempt >= ROTATE_ATTEMPTS then Done(Unstored(p.was, p.minted, p.era))
      else p.(attempt := p.attempt + 1))
  }

  function AfterMark(w: World, r: Holder): World
    requires r in w.calls && w.calls[r].phase.Marking?
  {
    var was := w.calls[r].phase.was;
    if w.row.None? then To(w, r, Settling(was))
    else
      var (row, changed) := MarkBroken(w.row.value, w.now, Some(r), Some(was));
      To(w.(row := Some(row)), r, if changed then Done(IsBroken) else Settling(was))
  }

  function AfterSettle(w: World, r: Holder, was: Pair): Outcome {
    var k := w.Grant(r);
    if k.None? then Gone
    else if k.value.brokenAt.None? && k.value.refresh.Some? && k.value.Current() != Some(was) then Given(k.value.access)
    else IsBroken
  }

  function AfterReconnect(w: World, expiresAt: Option<int>, accountId: nat, login: string): World
    requires w.row.Some?
  {
    var pair := w.next;
    var refresh := if expiresAt.Some? then Some(Refresh(pair, expiresAt)) else None;
    var (row, written) := Reconnect(w.row.value, Reconnected(pair, refresh, accountId, login, w.now));
    var w' := w.(next := w.next + 1, live := w.live + {pair});
    if !written then w'
    else w'.(row := Some(row), era := w.era + 1, base := |w.stored|,
             stored := if refresh.Some? then w.stored + [pair] else w.stored)
  }

  function Next(w: World, a: Action): World
    requires Can(w, a)
  {
    match a
    case Tick(ms) => w.(now := w.now + ms)
    case Revoke(pair) => w.(live := w.live - {pair})
    case ReconnectIt(expiresAt, accountId, login) => AfterReconnect(w, expiresAt, accountId, login)
    case RemoveIt => w.(row := None, era := w.era + 1, base := |w.stored|)
    case Bar(r) => w.(barred := w.barred + {r})
    case Begin(r, why, stale) => w.(calls := w.calls[r := Call(why, stale, None, Reading)])
    case Read(r) => To(w, r, AfterRead(w, r))
    case Answered(r, dead) => AfterAnswer(w, r, dead)
    case TryLease(r) =>
      var p := w.calls[r].phase;
      if w.row.Some? && Lease(w.row.value, p.since, p.since + LEASE_MS, r).1
      then To(w.(row := Some(Lease(w.row.value, p.since, p.since + LEASE_MS, r).0)), r, Confirming(p.was, p.since + LEASE_MS))
      else To(w, r, if w.now > p.deadline then Done(LeaseTimeout) else Waiting(p.was, p.deadline))
    case Poll(r) => To(w, r, AfterPoll(w, r, w.calls[r].phase.was, w.calls[r].phase.deadline))
    case Confirm(r) => To(w, r, AfterConfirm(w, r, w.calls[r].phase.was, w.calls[r].phase.until))
    case Trade(r) => var p := w.calls[r].phase; To(w, r, Trading(p.was, p.until, p.era, w.now, None))
    case Decide(r, answer) => AfterDecide(w, r, answer)
    case Receive(r) => To(w, r, AfterReceive(w, r))
    case Lose(r) => To(w, r, Releasing(NotRenewed))
    case Store(r, committed, threw) => AfterStore(w, r, committed, threw)
    case Look(r) =>
      var after := w.Grant(r);
      To(w, r, if after.Some? && after.value.refresh.Some? && after.value.Current() != Some(w.calls[r].phase.was)
               then Releasing(Given(after.value.access)) else Marking(w.calls[r].phase.was))
    case Mark(r) => AfterMark(w, r)
    case Settle(r) => To(w, r, Done(AfterSettle(w, r, w.calls[r].phase.was)))
    case Release(r) =>
      To(w.(row := if w.row.Some? then Some(Unlease(w.row.value, r)) else None), r, Done(w.calls[r].phase.next))
    case Throw(r) => To(w, r, Done(Threw))
  }

  /** A connector just made, holding one pair, before anything renews it. */
  ghost predicate Init(w: World) {
    && w.row.Some? && w.row.value.refresh.Some? && w.row.value.brokenAt.None?
    && w.row.value.until.None? && w.row.value.holder.None?
    && w.row.value.refresh.value.pair < w.next && w.row.value.access == w.row.value.refresh.value.pair
    && w.stored == [w.row.value.refresh.value.pair] && w.base == 0
    && (forall t | t in w.live :: t < w.next)
    && w.refused == {} && w.traded == map[] && w.calls == map[]
  }

  ghost predicate IsRun(w: World, steps: seq<Action>)
    decreases |steps|
  {
    steps == [] || (Can(w, steps[0]) && IsRun(Next(w, steps[0]), steps[1..]))
  }

  ghost function After(w: World, steps: seq<Action>): World
    requires IsRun(w, steps)
    decreases |steps|
  {
    if steps == [] then w else After(Next(w, steps[0]), steps[1..])
  }
}
