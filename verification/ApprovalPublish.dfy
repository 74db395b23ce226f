// Publishing an agent's holds: the object's own rows and tries, the provider-wide copy, the hints sent to Raft, and
// passes whose awaits let holds change, agents be deleted, late writes land and the object be cut off.
module ApprovalPublish {
  import opened Wrappers
  import opened ApprovalState

  const HINT_ATTEMPTS: nat := 6
  const PASS_ROWS: nat := 50

  datatype Hold = Hold(state: State, published: Option<State>)
  /** The object's holds, oldest first, and (for the proofs) every state each has had. */
  datatype Book = Book(order: seq<string>, holds: map<string, Hold>, been: map<string, set<State>>)
  /** The tries kept for a hold: of which state, whether its copy is written, how many failed, when to try again. */
  datatype Tries = Tries(forState: State, indexed: bool, attempts: nat, nextAt: int)
  type Kept = map<string, Tries>
  datatype Hint = Hint(operation: string, state: State)
  /**
   * The copy's states and the writes whose answer was lost and may still land; and, of the states no copy has reached
   * since, those the retention rule took the copy of, and those marked while the agent had no registry row.
   */
  datatype D1 = D1(copy: map<string, State>, late: set<Hint>, dropped: set<Hint>, unowned: set<Hint>)
  /** The hints sent, and how often the object was cut off with one unanswered. */
  datatype Sends = Sends(hints: map<Hint, nat>, cut: map<Hint, nat>)
  datatype Status = NotProvisioned | Live | Gone
  /** A row as a pass read it. */
  datatype Captured = Captured(operation: string, state: State, attempts: nat, indexed: bool)
  datatype Step = Writing | Hinting | Sending
  /** A pass is silent when the agent it read is deleted or there is nowhere to send its hints. */
  datatype Pass = Idle | Asking(due: seq<Captured>, at: int) | Working(due: seq<Captured>, at: int, silent: bool, step: Step)

  datatype World = World(now: int, status: Status, book: Book, kept: Kept, d1: D1, pass: Pass, sends: Sends, target: bool)

  datatype Action =
    | Tick(now: int) | NewHold(operation: string) | Move(operation: string, to: State)
    | Provision | Delete | Retarget(target: bool) | DropCopy(operation: string) | LateWrite(hint: Hint)
    | Start | AskFailed | Asked
    | Wrote(committed: bool, answered: bool) | Finish | KeyFailed | Send | Answered(ok: bool) | CutOff

  predicate ByPass(a: Action) {
    a.Start? || a.AskFailed? || a.Asked? || a.Wrote? || a.Finish? || a.KeyFailed? || a.Send? || a.Answered? || a.CutOff?
  }

  /** The ways a hold moves on: decided or expired once, and run once after an approval. */
  predicate Follows(s: State, to: State) {
    if s.Pending? then to.Approved? || to.Denied? || to.Expired? else s.Approved? && (to.Executed? || to.Failed?)
  }

  function Min(a: int, b: int): int {
    if a < b then a else b
  }

  /** 30 seconds, doubling, up to 15 minutes. */
  function Backoff(attempts: nat): int {
    if attempts <= 1 then 30_000 else Min(900_000, 2 * Backoff(attempts - 1))
  }

  function Count(m: map<Hint, nat>, k: Hint): nat {
    if k in m then m[k] else 0
  }

  // ----- What a pass reads -----

  predicate Unpublished(b: Book, op: string) {
    op in b.holds && b.holds[op].published != Some(b.holds[op].state)
  }

  /** The oldest unpublished holds, up to a bound. */
  function Oldest(b: Book, ops: seq<string>, most: nat): (rows: seq<string>)
    ensures |rows| <= most && forall op :: op in rows ==> op in ops && Unpublished(b, op)
  {
    if ops == [] || most == 0 then []
    else if Unpublished(b, ops[0]) then [ops[0]] + Oldest(b, ops[1..], most - 1)
    else Oldest(b, ops[1..], most)
  }

  predicate TriedFor(kept: Kept, op: string, s: State) {
    op in kept && kept[op].forState == s
  }

  function Capture(b: Book, kept: Kept, op: string): Captured
    requires op in b.holds
  {
    var s := b.holds[op].state;
    if TriedFor(kept, op, s) then Captured(op, s, kept[op].attempts, kept[op].indexed) else Captured(op, s, 0, false)
  }

  /** Its state is new to the tries, or its time has come. */
  predicate IsDue(b: Book, kept: Kept, now: int, op: string) {
    op in b.holds && (TriedFor(kept, op, b.holds[op].state) ==> kept[op].nextAt <= now)
  }

  function DueOf(b: Book, kept: Kept, now: int, ops: seq<string>): seq<Captured> {
    if ops == [] then []
    else (if IsDue(b, kept, now, ops[0]) then [Capture(b, kept, ops[0])] else []) + DueOf(b, kept, now, ops[1..])
  }

  function Due(w: World): seq<Captured> {
    DueOf(w.book, w.kept, w.now, Oldest(w.book, w.book.order, PASS_ROWS))
  }

  function Operations(due: seq<Captured>): set<string> {
    set c | c in due :: c.operation
  }

  /** The state a row was read at. */
  function ReadAs(due: seq<Captured>, op: string): State
    requires op in Operations(due)
  {
    if due[0].operation == op then due[0].state else ReadAs(due[1..], op)
  }

  // ----- One step -----

  function Begin(due: seq<Captured>, at: int, silent: bool): Pass {
    if due == [] then Idle else Working(due, at, silent, if due[0].indexed then Hinting else Writing)
  }

  function Publish(b: Book, op: string, s: State): Book
    requires op in b.holds
  {
    b.(holds := b.holds[op := b.holds[op].(published := Some(s))])
  }

  /** Every row marked published at the state it was read at. */
  function PublishAll(b: Book, due: seq<Captured>): Book {
    b.(holds := map op | op in b.holds :: if op in Operations(due) then b.holds[op].(published := Some(ReadAs(due, op))) else b.holds[op])
  }

  predicate AtWork(w: World) {
    w.pass.Working? && w.pass.due != [] && w.pass.due[0].operation in w.book.holds
  }

  function Head(p: Pass): Hint
    requires p.Working? && p.due != []
  {
    Hint(p.due[0].operation, p.due[0].state)
  }

  function Onward(p: Pass): Pass
    requires p.Working? && p.due != []
  {
    Begin(p.due[1..], p.at, p.silent)
  }

  /** The first row is published at the state it was read at, its tries forgotten, and the pass goes on. */
  function PublishHead(w: World): World
    requires AtWork(w)
  {
    var k := Head(w.pass);
    w.(book := Publish(w.book, k.operation, k.state), kept := w.kept - {k.operation}, pass := Onward(w.pass))
  }

  function TriedAgain(p: Pass, indexed: bool): Tries
    requires p.Working? && p.due != []
  {
    var n := p.due[0].attempts + 1;
    Tries(p.due[0].state, indexed, n, p.at + Backoff(n))
  }

  /** The first row is kept with when to try again, and the pass goes on. */
  function RetryHead(w: World, indexed: bool): World
    requires AtWork(w)
  {
    w.(kept := w.kept[Head(w.pass).operation := TriedAgain(w.pass, indexed)], pass := Onward(w.pass))
  }

  /** The catch: given up once the copy is written and enough tries failed, kept otherwise. */
  function Fail(w: World, indexed: bool): World
    requires AtWork(w)
  {
    if indexed && w.pass.due[0].attempts + 1 >= HINT_ATTEMPTS then PublishHead(w) else RetryHead(w, indexed)
  }

  /** The copy is at the state or past it. */
  predicate Covers(copy: map<string, State>, k: Hint) {
    k.operation in copy && Rank(copy[k.operation]) >= Rank(k.state)
  }

  /** The copy's upsert: forward only. */
  function Merged(copy: map<string, State>, k: Hint): map<string, State> {
    if Covers(copy, k) then copy else copy[k.operation := k.state]
  }

  /** What the copy reaches is no longer among what it has not. */
  function Merge(d: D1, k: Hint): D1 {
    var copy := Merged(d.copy, k);
    D1(copy, d.late, set h | h in d.dropped && !Covers(copy, h), set h | h in d.unowned && !Covers(copy, h))
  }

  function Dropped(d: D1, op: string): D1
    requires op in d.copy
  {
    d.(copy := d.copy - {op}, dropped := d.dropped + set s: State | Rank(s) <= Rank(d.copy[op]) :: Hint(op, s))
  }

  function Excused(d: D1, due: seq<Captured>): D1 {
    d.(unowned := d.unowned + set c | c in due && !Covers(d.copy, Hint(c.operation, c.state)) :: Hint(c.operation, c.state))
  }

  function Hung(d: D1, k: Hint): D1 {
    d.(late := d.late + {k})
  }

  function OneMore(m: map<Hint, nat>, k: Hint): map<Hint, nat> {
    m[k := Count(m, k) + 1]
  }

  /** No registry row: nothing to publish to, so the rows are marked and no copy is written. */
  function Disowned(w: World): World
    requires w.pass.Asking?
  {
    var due := w.pass.due;
    w.(book := PublishAll(w.book, due), kept := w.kept - Operations(due), pass := Idle, d1 := Excused(w.d1, due))
  }

  /** Whether a pass that reads the registry now sends no hint. */
  predicate Silent(w: World) {
    w.status.Gone? || !w.target
  }

  function CutShort(w: World): World {
    if !AtWork(w) then w.(pass := Idle)
    else
      var k := Head(w.pass);
      match w.pass.step
      case Sending => w.(pass := Idle, sends := w.sends.(cut := OneMore(w.sends.cut, k)))
      case Writing => w.(pass := Idle, d1 := Hung(w.d1, k))
      case Hinting => w.(pass := Idle)
  }

  predicate Can(w: World, a: Action) {
    match a
    case Tick(now) => w.now <= now
    case NewHold(op) => op !in w.book.holds
    case Move(op, to) => op in w.book.holds && Follows(w.book.holds[op].state, to)
    case Provision => w.status.NotProvisioned?
    case Delete => w.status.Live?
    case Retarget(_) => true
    case DropCopy(op) => op in w.d1.copy && (Ended(w.d1.copy[op]) || w.status.Gone?)
    case LateWrite(k) => k in w.d1.late
    case Start => w.pass.Idle?
    case AskFailed => w.pass.Asking?
    case Asked => w.pass.Asking?
    case Wrote(committed, answered) => w.pass.Working? && w.pass.step.Writing? && (answered ==> committed)
    case Finish => w.pass.Working? && w.pass.step.Hinting? && w.pass.silent
    case KeyFailed => w.pass.Working? && w.pass.step.Hinting? && !w.pass.silent
    case Send => w.pass.Working? && w.pass.step.Hinting? && !w.pass.silent
    case Answered(_) => w.pass.Working? && w.pass.step.Sending?
    case CutOff => true
  }

  function NewIn(b: Book, op: string): Book {
    Book(b.order + [op], b.holds[op := Hold(Pending, None)], b.been[op := {Pending}])
  }

  function Moved(b: Book, op: string, to: State): Book {
    if op in b.holds && op in b.been
    then b.(holds := b.holds[op := b.holds[op].(state := to)], been := b.been[op := b.been[op] + {to}]) else b
  }

  function Next(w: World, a: Action): World {
    match a
    case Tick(now) => w.(now := now)
    case NewHold(op) => w.(book := NewIn(w.book, op))
    case Move(op, to) => w.(book := Moved(w.book, op, to))
    case Provision => w.(status := Live)
    case Delete => w.(status := Gone)
    case Retarget(target) => w.(target := target)
    case DropCopy(op) => if op in w.d1.copy then w.(d1 := Dropped(w.d1, op)) else w
    case LateWrite(k) => w.(d1 := Merge(w.d1, k).(late := w.d1.late - {k}))
    case Start => w.(pass := if Due(w) == [] then Idle else Asking(Due(w), w.now))
    case AskFailed => w.(pass := Idle)
    case Asked =>
      if !w.pass.Asking? then w
      else if w.status.NotProvisioned? then Disowned(w)
      else w.(pass := Begin(w.pass.due, w.pass.at, Silent(w)))
    case Wrote(committed, answered) =>
      if !AtWork(w) then w
      else
        var wrote := w.(d1 := if committed then Merge(w.d1, Head(w.pass)) else Hung(w.d1, Head(w.pass)));
        if answered then wrote.(pass := w.pass.(step := Hinting)) else Fail(wrote, false)
    case Finish => if AtWork(w) then PublishHead(w) else w
    case KeyFailed => if AtWork(w) then Fail(w, true) else w
    case Send =>
      if AtWork(w) then w.(sends := w.sends.(hints := OneMore(w.sends.hints, Head(w.pass))), pass := w.pass.(step := Sending)) else w
    case Answered(ok) => if !AtWork(w) then w else if ok then PublishHead(w) else Fail(w, true)
    case CutOff => CutShort(w)
  }

  predicate IsRun(w: World, actions: seq<Action>)
    decreases |actions|
  {
    actions == [] || (Can(w, actions[0]) && IsRun(Next(w, actions[0]), actions[1..]))
  }

  function After(w: World, actions: seq<Action>): World
    decreases |actions|
  {
    if actions == [] then w else After(Next(w, actions[0]), actions[1..])
  }

  function Init(now: int): World {
    World(now, NotProvisioned, Book([], map[], map[]), map[], D1(map[], {}, {}, {}), Idle, Sends(map[], map[]), false)
  }

  // ----- The invariant -----

  predicate Known(b: Book, k: Hint) {
    k.operation in b.been && k.state in b.been[k.operation]
  }

  /** The copy is at the state or past it, unless the retention rule took it and no write since has brought it back. */
  predicate Has(d: D1, k: Hint) {
    k in d.dropped || Covers(d.copy, k)
  }

  /** A hold's states so far: one of each rank, up to the one it is in. */
  ghost predicate Chain(states: set<State>, now: State) {
    && now in states
    && (forall a, b :: a in states && b in states && Rank(a) == Rank(b) ==> a == b)
    && (forall a :: a in states ==> Rank(a) <= Rank(now))
  }

  predicate Distinct(ops: seq<string>) {
    forall i, j :: 0 <= i < j < |ops| ==> ops[i] != ops[j]
  }

  ghost predicate Shaped(b: Book) {
    && (forall op :: op in b.been <==> op in b.holds) && Distinct(b.order) && (forall op :: op in b.order <==> op in b.holds)
    && (forall op :: op in b.holds ==> Chain(b.been[op], b.holds[op].state))
  }

  ghost predicate CopyOk(b: Book, d: D1) {
    && (forall op :: op in d.copy ==> Known(b, Hint(op, d.copy[op])))
    && (forall k :: k in d.late ==> Known(b, k))
    && (forall k :: k in d.dropped || k in d.unowned ==> !Covers(d.copy, k))
  }

  predicate TryOk(b: Book, d: D1, op: string, t: Tries) {
    Known(b, Hint(op, t.forState)) && (t.indexed ==> Has(d, Hint(op, t.forState)) && t.attempts < HINT_ATTEMPTS)
  }

  ghost predicate TriesOk(b: Book, d: D1, kept: Kept) {
    forall op :: op in kept ==> TryOk(b, d, op, kept[op])
  }

  predicate PublishedHas(b: Book, d: D1, k: Hint) {
    Known(b, k) && (Has(d, k) || k in d.unowned)
  }

  ghost predicate PublishedOk(b: Book, d: D1) {
    forall op :: op in b.holds && b.holds[op].published.Some? ==> PublishedHas(b, d, Hint(op, b.holds[op].published.value))
  }

  function DueNow(p: Pass): seq<Captured> {
    if p.Idle? then [] else p.due
  }

  /** A captured row still says what is kept of it, and is past all that was published: only this pass touches either. */
  predicate StillSo(b: Book, kept: Kept, c: Captured) {
    && Known(b, Hint(c.operation, c.state)) && c.operation in b.holds
    && (b.holds[c.operation].published.Some? ==> Rank(b.holds[c.operation].published.value) < Rank(c.state))
    && (c.operation in kept ==> Rank(kept[c.operation].forState) <= Rank(c.state))
    && (if TriedFor(kept, c.operation, c.state)
        then kept[c.operation].attempts == c.attempts && kept[c.operation].indexed == c.indexed
        else c.attempts == 0 && !c.indexed)
  }

  ghost predicate OneEach(due: seq<Captured>) {
    forall i, j :: 0 <= i < j < |due| ==> due[i].operation != due[j].operation
  }

  ghost predicate AllStillSo(b: Book, kept: Kept, due: seq<Captured>) {
    forall i :: 0 <= i < |due| ==> StillSo(b, kept, due[i])
  }

  predicate StepOk(d: D1, p: Pass) {
    p.Working? ==> p.due != [] && (if p.step.Writing? then !p.due[0].indexed else Has(d, Head(p)))
  }

  ghost predicate PassOk(b: Book, d: D1, kept: Kept, p: Pass) {
    AllStillSo(b, kept, DueNow(p)) && OneEach(DueNow(p)) && StepOk(d, p)
  }

  predicate InDue(due: seq<Captured>, k: Hint) {
    exists i :: 0 <= i < |due| && due[i].operation == k.operation && due[i].state == k.state
  }

  /** A state of a hold a hint may still be sent for. */
  predicate Open(b: Book, p: Pass, k: Hint) {
    && k.operation in b.holds && b.holds[k.operation].published != Some(k.state)
    && (k.state == b.holds[k.operation].state || InDue(DueNow(p), k))
  }

  /** The failed tries that may have sent a hint. */
  function Tried(kept: Kept, k: Hint): nat {
    if TriedFor(kept, k.operation, k.state) && kept[k.operation].indexed then kept[k.operation].attempts else 0
  }

  predicate SendingNow(p: Pass, k: Hint) {
    p.Working? && p.step.Sending? && p.due != [] && Head(p) == k
  }

  predicate HintOk(b: Book, kept: Kept, p: Pass, s: Sends, k: Hint) {
    && Count(s.hints, k) <= Count(s.cut, k) + HINT_ATTEMPTS
    && (Open(b, p, k) ==> Count(s.hints, k) <= Count(s.cut, k) + Tried(kept, k) + if SendingNow(p, k) then 1 else 0)
    && (!Known(b, k) ==> Count(s.hints, k) == 0)
  }

  ghost predicate HintsOk(b: Book, kept: Kept, p: Pass, s: Sends) {
    forall k :: HintOk(b, kept, p, s, k)
  }

  ghost predicate Inv(w: World) {
    && Shaped(w.book) && CopyOk(w.book, w.d1) && TriesOk(w.book, w.d1, w.kept) && PublishedOk(w.book, w.d1)
    && PassOk(w.book, w.d1, w.kept, w.pass) && HintsOk(w.book, w.kept, w.pass, w.sends)
  }
}
