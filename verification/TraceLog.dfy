// The trace outbox of one object and its three readers: the activity send, the export to the bucket, and the forward.
//
// A pass runs activity first, then the export, which puts a batch, moves its own cursor and prunes only through the
// lowest cursor. Rows are appended and the forward moves on at any await, and the object may be evicted at any of them.
module TraceLog {
  import opened Wrappers
  import opened TraceWindow

  // ---- reading the outbox

  /** The rows past `after`, of an outbox in order. */
  function Newer(outbox: seq<Row>, after: nat): (rows: seq<Row>)
    requires Increasing(outbox)
    ensures Increasing(rows) && forall r :: r in rows <==> r in outbox && r.no > after
  {
    if outbox == [] then []
    else
      assert forall r :: r in outbox ==> r == outbox[0] || r in outbox[1..];
      if outbox[0].no > after then outbox else Newer(outbox[1..], after)
  }

  function KnownOnly(rows: seq<Row>): (kept: seq<Row>)
    requires Increasing(rows)
    ensures Increasing(kept) && |kept| <= |rows| && forall r :: r in kept <==> r in rows && r.known
  {
    if rows == [] then []
    else
      var rest := KnownOnly(rows[1..]);
      assert forall r :: r in rows <==> r == rows[0] || r in rows[1..];
      assert forall j :: 0 <= j < |rest| ==> rest[j] in rest;
      assert forall r :: r in rest ==> rows[0].no < r.no;
      if rows[0].known then [rows[0]] + rest else rest
  }

  /** The rows one read examines: the first `limit` past the cursor. */
  function Examined(outbox: seq<Row>, after: nat, limit: nat): (rows: seq<Row>)
    requires Increasing(outbox)
    ensures Increasing(rows) && |rows| <= limit
    ensures forall r :: r in rows ==> r in outbox && r.no > after
    ensures forall r :: r in outbox && r.no > after && r !in rows ==> |rows| == limit && (limit > 0 ==> r.no > rows[limit - 1].no)
  {
    var newer := Newer(outbox, after);
    if |newer| <= limit then newer
    else
      assert forall r :: r in newer[..limit] ==> r in newer;
      assert forall i :: 0 <= i < |newer| ==> newer[i] in newer[..limit] || i >= limit;
      newer[..limit]
  }

  /** The last seq a read examined, the cursor itself when it examined none. */
  function Through(rows: seq<Row>, after: nat): (through: nat)
    requires Increasing(rows) && forall r :: r in rows ==> r.no > after
    ensures through >= after && forall r :: r in rows ==> r.no <= through
  {
    if rows == [] then after
    else
      assert rows[|rows| - 1] in rows;
      rows[|rows| - 1].no
  }

  /** A read leaves nothing behind its last seq: whatever it examined not, lies past it. */
  lemma NothingSkipped(outbox: seq<Row>, after: nat, limit: nat, r: Row)
    requires Increasing(outbox) && r in outbox && r.no > after
    requires r.no <= Through(Examined(outbox, after, limit), after)
    ensures r in Examined(outbox, after, limit)
  {
  }

  // ---- the machine

  datatype Key = Key(from: nat, to: nat)

  datatype Stored = Stored(uploaded: int, rows: seq<Row>)

  datatype Put = Put(key: Key, rows: seq<Row>)

  /** Where a pass is: the send, the hold the send left, the put. */
  datatype Pass =
    | Idle
    | Sending(through: nat, alsoHold: Option<nat>)
    | Held(hold: nat)
    | Putting(key: Key, rows: seq<Row>, through: nat, hold: nat)

  datatype Store = Store(
    now: int,
    outbox: seq<Row>,
    log: set<Row>,              // every row ever appended
    last: nat,                  // the last seq given
    activity: nat,
    exported: nat,
    forward: Option<nat>,       // the forward's lowest cursor, when there is one
    bucket: map<Key, Stored>,
    pass: Pass,
    flying: set<Put>)           // puts whose pass has ended without their answer: any may still land

  datatype Step =
    | Tick(ms: nat)
    | Append(gap: nat, at: int, known: bool)
    | Forward(through: nat)
    | StartActivity(limit: nat)
    | SendEnds(ok: bool)
    | StartExport(limit: nat)
    | PutLands
    | PutEnds
    | PutThrows
    | Evict
    | LateLands(put: Put)

  function Least(a: nat, b: nat): nat {
    if a < b then a else b
  }

  predicate Can(s: Store, t: Step) {
    match t
    case Tick(_) => true
    // A span is appended as it ends, by the object's own clock, which is within the slack of the bucket's.
    case Append(_, at, _) => at <= s.now + UPLOAD_SLACK_MS
    case Forward(through) => s.forward.Some? && s.forward.value <= through <= s.last
    case StartActivity(_) => s.pass.Idle?
    case SendEnds(_) => s.pass.Sending?
    case StartExport(_) => s.pass.Held?
    case PutLands => s.pass.Putting?
    // A put that returned has landed: what is at its key holds its rows, whichever put of the key landed last.
    case PutEnds => s.pass.Putting? && s.pass.key in s.bucket
    case PutThrows => s.pass.Putting?
    case Evict => true
    case LateLands(put) => put in s.flying
  }

  /** The pass is over; the put it was at, if any, is not. */
  function Abandoned(s: Store): Store {
    s.(pass := Idle, flying := if s.pass.Putting? then s.flying + {Put(s.pass.key, s.pass.rows)} else s.flying)
  }

  /** The export's cursor and prune, in one go after the put. */
  function Exported(s: Store, through: nat, hold: nat): Store {
    var exported := if through > s.exported then through else s.exported;
    s.(exported := exported, outbox := Pruned(s.outbox, Least(exported, hold)), pass := Idle)
  }

  function Pruned(outbox: seq<Row>, through: nat): (kept: seq<Row>)
    ensures Increasing(outbox) ==> Increasing(kept)
    ensures forall r :: r in kept ==> r in outbox
    ensures Increasing(outbox) ==> forall r :: r in kept <==> r in outbox && r.no > through
  {
    if outbox == [] then []
    else
      assert forall r :: r in outbox ==> r == outbox[0] || r in outbox[1..];
      if outbox[0].no > through then outbox else Pruned(outbox[1..], through)
  }

  function Next(s: Store, t: Step): Store
    requires Can(s, t) && Increasing(s.outbox)
  {
    match t
    case Tick(ms) => s.(now := s.now + ms)
    case Append(gap, at, known) =>
      var r := Row(s.last + gap + 1, at, known);
      s.(outbox := s.outbox + [r], log := s.log + {r}, last := r.no)
    case Forward(through) => s.(forward := Some(through))
    case StartActivity(limit) =>
      s.(pass := Sending(Through(Examined(s.outbox, s.activity, limit), s.activity), s.forward))
    case SendEnds(ok) =>
      var p := s.pass;
      var activity := if ok && p.through > s.activity then p.through else s.activity;
      var hold := if ok then (if p.through > s.activity then p.through else s.activity) else s.activity;
      s.(activity := activity, pass := Held(if p.alsoHold.None? then hold else Least(hold, p.alsoHold.value)))
    case StartExport(limit) =>
      var examined := Examined(s.outbox, s.exported, limit);
      var rows, through := KnownOnly(examined), Through(examined, s.exported);
      if rows == [] then Exported(s, through, s.pass.hold)
      else s.(pass := Putting(Key(rows[0].no, rows[|rows| - 1].no), rows, through, s.pass.hold))
    case PutLands => s.(bucket := s.bucket[s.pass.key := Stored(s.now, s.pass.rows)])
    case PutEnds => Exported(s, s.pass.through, s.pass.hold)
    case PutThrows => Abandoned(s)
    case Evict => Abandoned(s)
    case LateLands(put) => s.(bucket := s.bucket[put.key := Stored(s.now, put.rows)])
  }

  // ---- what every step keeps

  /** A batch holds exactly the known rows of its range, none past the last seq given. */
  ghost predicate BatchHolds(s: Store, key: Key, b: Stored) {
    && key.to <= s.last
    && (forall r :: r in b.rows <==> r in s.log && r.known && key.from <= r.no <= key.to)
    && (forall r :: r in b.rows ==> r.at <= b.uploaded + UPLOAD_SLACK_MS)
  }

  ghost predicate InBucket(s: Store, r: Row) {
    exists key :: key in s.bucket && r in s.bucket[key].rows
  }

  /** A row is in the outbox until every reader has passed it. */
  ghost predicate Passed(s: Store, r: Row) {
    r.no <= s.activity && r.no <= s.exported && (s.forward.Some? ==> r.no <= s.forward.value)
  }

  ghost predicate PassOk(s: Store) {
    match s.pass
    case Idle => true
    case Sending(through, also) =>
      through <= s.last && HoldOk(s, also)
    case Held(hold) => hold <= s.activity && (s.forward.Some? ==> hold <= s.forward.value)
    case Putting(key, rows, through, hold) =>
      && hold <= s.activity && (s.forward.Some? ==> hold <= s.forward.value)
      && through <= s.last && PutHolds(s, key, rows)
      && (forall r :: r in s.log && r.known && s.exported < r.no <= through ==> r in rows)
  }

  /** A put not yet landed: the known rows of its range, all ended by now. */
  ghost predicate PutHolds(s: Store, key: Key, rows: seq<Row>) {
    && key.to <= s.last
    && (forall r :: r in rows <==> r in s.log && r.known && key.from <= r.no <= key.to)
    && (forall r :: r in rows ==> r.at <= s.now + UPLOAD_SLACK_MS)
  }

  ghost predicate FlyingOk(s: Store) {
    forall put :: put in s.flying ==> PutHolds(s, put.key, put.rows)
  }

  ghost predicate HoldOk(s: Store, also: Option<nat>) {
    s.forward.Some? ==> also.Some? && also.value <= s.forward.value
  }

  ghost predicate LogOk(s: Store) {
    && Increasing(s.outbox) && OneLog(s.log)
    && s.activity <= s.last && s.exported <= s.last && (s.forward.Some? ==> s.forward.value <= s.last)
    && (forall r :: r in s.outbox ==> r in s.log)
    && (forall r :: r in s.log ==> r.no <= s.last && r.at <= s.now + UPLOAD_SLACK_MS)
  }

  ghost predicate UnpassedIsThere(s: Store) {
    forall r :: r in s.log && !Passed(s, r) ==> r in s.outbox
  }

  ghost predicate ExportedIsPut(s: Store) {
    forall r :: r in s.log && r.known && r.no <= s.exported ==> InBucket(s, r)
  }

  ghost predicate BatchesHold(s: Store) {
    forall key :: key in s.bucket ==> BatchHolds(s, key, s.bucket[key])
  }

  ghost predicate Inv(s: Store) {
    LogOk(s) && UnpassedIsThere(s) && ExportedIsPut(s) && BatchesHold(s) && PassOk(s) && FlyingOk(s)
  }

  predicate Init(s: Store) {
    s.outbox == [] && s.log == {} && s.last == 0 && s.activity == 0 && s.exported == 0
    && (s.forward.Some? ==> s.forward.value == 0) && s.bucket == map[] && s.pass.Idle? && s.flying == {}
  }

  lemma InitInv(s: Store)
    requires Init(s)
    ensures Inv(s)
  {
  }

  lemma InBucketKept(s: Store, s': Store, r: Row)
    requires InBucket(s, r)
    requires forall key :: key in s.bucket ==> key in s'.bucket && (r in s.bucket[key].rows ==> r in s'.bucket[key].rows)
    ensures InBucket(s', r)
  {
  }

  lemma SameBucket(s: Store, s': Store)
    requires s'.bucket == s.bucket
    ensures forall r :: InBucket(s, r) ==> InBucket(s', r)
  {
    forall r | InBucket(s, r) ensures InBucket(s', r) { InBucketKept(s, s', r); }
  }

  lemma AppendLog(s: Store, t: Step)
    requires Inv(s) && Can(s, t) && t.Append?
    ensures LogOk(Next(s, t)) && UnpassedIsThere(Next(s, t))
  {
    var s', r := Next(s, t), Row(s.last + t.gap + 1, t.at, t.known);
    forall i, j | 0 <= i < j < |s'.outbox| ensures s'.outbox[i].no < s'.outbox[j].no {
      assert s'.outbox[i] in s.outbox;
    }
    forall x | x in s'.log && !Passed(s', x) ensures x in s'.outbox {
      if x != r { assert x in s.outbox; }
    }
  }

  lemma AppendBatches(s: Store, t: Step)
    requires Inv(s) && Can(s, t) && t.Append?
    ensures BatchesHold(Next(s, t)) && PassOk(Next(s, t)) && FlyingOk(Next(s, t))
  {
    var s' := Next(s, t);
    forall key | key in s'.bucket ensures BatchHolds(s', key, s'.bucket[key]) {
      assert BatchHolds(s, key, s.bucket[key]);
    }
    forall put | put in s'.flying ensures PutHolds(s', put.key, put.rows) {
      assert PutHolds(s, put.key, put.rows);
    }
  }

  lemma StepAppend(s: Store, t: Step)
    requires Inv(s) && Can(s, t) && t.Append?
    ensures Inv(Next(s, t))
  {
    AppendLog(s, t);
    AppendBatches(s, t);
    SameBucket(s, Next(s, t));
  }

  /** A step that leaves the rows and the bucket where they are, and moves no cursor back. */
  lemma NoRowMoves(s: Store, s': Store)
    requires Inv(s) && PassOk(s') && FlyingOk(s') && s.now <= s'.now
    requires s' == s.(now := s'.now, activity := s'.activity, forward := s'.forward, pass := s'.pass, flying := s'.flying)
    requires s.activity <= s'.activity <= s.last && s.forward.Some? == s'.forward.Some?
    requires s.forward.Some? ==> s.forward.value <= s'.forward.value <= s.last
    ensures Inv(s')
  {
    SameBucket(s, s');
    forall key | key in s'.bucket ensures BatchHolds(s', key, s'.bucket[key]) {
      assert BatchHolds(s, key, s.bucket[key]);
    }
    forall x | x in s'.log && !Passed(s', x) ensures x in s'.outbox {
      assert !Passed(s, x);
    }
  }

  /** A put flying holds its rows still, and so does the one a pass has just left. */
  lemma StillFlying(s: Store, s': Store)
    requires PassOk(s) && FlyingOk(s) && s'.log == s.log && s'.last == s.last && s'.now >= s.now
    requires s'.flying == s.flying || s'.flying == Abandoned(s).flying
    ensures FlyingOk(s')
  {
    forall put | put in s'.flying ensures PutHolds(s', put.key, put.rows) {
      assert put in s.flying ==> PutHolds(s, put.key, put.rows);
    }
  }

  lemma StepQuiet(s: Store, t: Step)
    requires Inv(s) && Can(s, t) && (t.Tick? || t.Forward? || t.StartActivity? || t.SendEnds? || t.PutThrows? || t.Evict?)
    ensures Inv(Next(s, t))
  {
    if t.StartActivity? {
      var rows := Examined(s.outbox, s.activity, t.limit);
      assert rows != [] ==> rows[|rows| - 1] in rows;
    }
    StillFlying(s, Next(s, t));
    NoRowMoves(s, Next(s, t));
  }

  /** The export's cursor passes only rows a batch holds, and the prune only rows every reader has passed. */
  lemma ExportedKeeps(s: Store, through: nat, hold: nat)
    requires Inv(s.(pass := Idle)) && through <= s.last
    requires hold <= s.activity && (s.forward.Some? ==> hold <= s.forward.value)
    requires forall r :: r in s.log && r.known && s.exported < r.no <= through ==> InBucket(s, r)
    ensures Inv(Exported(s, through, hold))
  {
    var s' := Exported(s, through, hold);
    SameBucket(s, s');
    SameBucket(s.(pass := Idle), s);
    forall r | r in s'.log && !Passed(s', r) ensures r in s'.outbox {
      assert !Passed(s.(pass := Idle), r);
    }
  }

  /** What the export's read examined: nothing logged up to its last seq is missing from it. */
  lemma ExportReads(s: Store, limit: nat)
    requires Inv(s)
    ensures Through(Examined(s.outbox, s.exported, limit), s.exported) <= s.last
    ensures forall r :: r in s.log && s.exported < r.no <= Through(Examined(s.outbox, s.exported, limit), s.exported)
              ==> r in Examined(s.outbox, s.exported, limit)
  {
    var examined := Examined(s.outbox, s.exported, limit);
    assert examined != [] ==> examined[|examined| - 1] in examined;
    forall r | r in s.log && s.exported < r.no <= Through(examined, s.exported) ensures r in examined {
      assert !Passed(s, r);
      NothingSkipped(s.outbox, s.exported, limit, r);
    }
  }

  /** The batch about to be put, and what lies behind the export's new cursor. */
  lemma ExportCut(s: Store, limit: nat)
    requires Inv(s)
    ensures var examined := Examined(s.outbox, s.exported, limit); var rows := KnownOnly(examined);
            (forall r :: r in s.log && r.known && s.exported < r.no <= Through(examined, s.exported) ==> r in rows)
            && (forall r :: r in rows ==> r in s.log && r.known && s.exported < r.no <= Through(examined, s.exported))
  {
    ExportReads(s, limit);
  }

  lemma PutStarts(s: Store, rows: seq<Row>, through: nat, hold: nat)
    requires Inv(s) && s.pass == Held(hold) && Increasing(rows) && rows != [] && through <= s.last
    requires forall r :: r in s.log && r.known && s.exported < r.no <= through ==> r in rows
    requires forall r :: r in rows ==> r in s.log && r.known && s.exported < r.no <= through
    ensures Inv(s.(pass := Putting(Key(rows[0].no, rows[|rows| - 1].no), rows, through, hold)))
  {
    BatchCut(s, rows, through);
    NoRowMoves(s, s.(pass := Putting(Key(rows[0].no, rows[|rows| - 1].no), rows, through, hold)));
  }

  lemma StepStartExport(s: Store, t: Step)
    requires Inv(s) && Can(s, t) && t.StartExport?
    ensures Inv(Next(s, t))
  {
    var examined := Examined(s.outbox, s.exported, t.limit);
    var rows, through := KnownOnly(examined), Through(examined, s.exported);
    ExportReads(s, t.limit);
    ExportCut(s, t.limit);
    if rows == [] {
      NoRowMoves(s, s.(pass := Idle));
      ExportedKeeps(s, through, s.pass.hold);
    } else {
      PutStarts(s, rows, through, s.pass.hold);
    }
  }

  /** The rows of a batch are exactly the known ones of the range its key names. */
  lemma BatchCut(s: Store, rows: seq<Row>, through: nat)
    requires Increasing(rows) && rows != [] && OneLog(s.log)
    requires forall r :: r in rows ==> r in s.log && r.known && s.exported < r.no <= through
    requires forall r :: r in s.log && r.known && s.exported < r.no <= through ==> r in rows
    ensures forall r :: r in rows <==> r in s.log && r.known && rows[0].no <= r.no <= rows[|rows| - 1].no
    ensures rows[|rows| - 1].no <= through
  {
    assert rows[0] in rows && rows[|rows| - 1] in rows;
    forall r | r in rows ensures rows[0].no <= r.no <= rows[|rows| - 1].no {
      var i :| 0 <= i < |rows| && rows[i] == r;
    }
  }

  /** A put landing, in its pass or late: what was in the bucket still is. */
  lemma Lands(s: Store, key: Key, rows: seq<Row>)
    requires Inv(s) && PutHolds(s, key, rows)
    ensures Inv(s.(bucket := s.bucket[key := Stored(s.now, rows)]))
  {
    var s' := s.(bucket := s.bucket[key := Stored(s.now, rows)]);
    forall r | r in s.log && InBucket(s, r) ensures InBucket(s', r) {
      var k :| k in s.bucket && r in s.bucket[k].rows;
      assert BatchHolds(s, k, s.bucket[k]);
      InBucketKept(s, s', r);
    }
    forall k | k in s'.bucket ensures BatchHolds(s', k, s'.bucket[k]) {
      if k != key { assert BatchHolds(s, k, s.bucket[k]); }
    }
    StillFlying(s, s');
  }

  lemma StepPutEnds(s: Store, t: Step)
    requires Inv(s) && Can(s, t) && t.PutEnds?
    ensures Inv(Next(s, t))
  {
    SameBucket(s, s.(pass := Idle));
    forall r | r in s.log && r.known && s.exported < r.no <= s.pass.through ensures InBucket(s, r) {
      assert BatchHolds(s, s.pass.key, s.bucket[s.pass.key]);
      assert r in s.bucket[s.pass.key].rows;
    }
    ExportedKeeps(s, s.pass.through, s.pass.hold);
  }

  /** Every step keeps the invariant: whatever throws, lands late, or is evicted. */
  lemma StepInv(s: Store, t: Step)
    requires Inv(s) && Can(s, t)
    ensures Inv(Next(s, t))
  {
    match t
    case Append(_, _, _) => StepAppend(s, t);
    case StartExport(_) => StepStartExport(s, t);
    case PutLands => Lands(s, s.pass.key, s.pass.rows);
    case LateLands(put) => Lands(s, put.key, put.rows);
    case PutEnds => StepPutEnds(s, t);
    case _ => StepQuiet(s, t);
  }

  /** What stays: rows logged, batches put, cursors passed. */
  ghost predicate Since(s: Store, s': Store) {
    && s.log <= s'.log && s.exported <= s'.exported && s.activity <= s'.activity && s.last <= s'.last
    && (forall r :: r in s'.outbox && r in s.log ==> r in s.outbox)
    && (forall key :: key in s.bucket ==> key in s'.bucket && forall r :: r in s.bucket[key].rows ==> r in s'.bucket[key].rows)
  }

  lemma StepSince(s: Store, t: Step)
    requires Inv(s) && Can(s, t)
    ensures Since(s, Next(s, t))
  {
    if t.PutLands? && s.pass.key in s.bucket { assert BatchHolds(s, s.pass.key, s.bucket[s.pass.key]); }
    if t.LateLands? {
      assert PutHolds(s, t.put.key, t.put.rows);
      if t.put.key in s.bucket { assert BatchHolds(s, t.put.key, s.bucket[t.put.key]); }
    }
  }

  ghost predicate IsRun(s: Store, steps: seq<Step>)
    decreases |steps|
  {
    steps == [] || (Increasing(s.outbox) && Can(s, steps[0]) && IsRun(Next(s, steps[0]), steps[1..]))
  }

  ghost function After(s: Store, steps: seq<Step>): Store
    requires IsRun(s, steps)
    decreases |steps|
  {
    if steps == [] then s else After(Next(s, steps[0]), steps[1..])
  }

  lemma {:induction false} RunInv(s: Store, steps: seq<Step>)
    requires Inv(s) && IsRun(s, steps)
    ensures Inv(After(s, steps)) && Since(s, After(s, steps))
    decreases |steps|
  {
    if steps != [] {
      StepInv(s, steps[0]);
      StepSince(s, steps[0]);
      RunInv(Next(s, steps[0]), steps[1..]);
    }
  }

  /**
   * A logged row is in the outbox or in a batch, and leaves the outbox only once every reader has passed it: in every
   * state of every run, also between a put and its cursor, after a send or a put that threw, or an eviction.
   */
  lemma NothingLost(s0: Store, steps: seq<Step>)
    requires Init(s0) && IsRun(s0, steps)
    ensures var s := After(s0, steps);
      forall r :: r in s.log ==> (r in s.outbox || Passed(s, r)) && (r.known ==> r in s.outbox || InBucket(s, r))
  {
    InitInv(s0);
    RunInv(s0, steps);
  }

  /** Read the object first and list the bucket later: a known row logged by the first read is in one of the two. */
  lemma ObjectFirstBucketSecond(s: Store, steps: seq<Step>, r: Row)
    requires Inv(s) && IsRun(s, steps) && r in s.log && r.known
    ensures r in s.outbox || InBucket(After(s, steps), r)
  {
    RunInv(s, steps);
    if r !in s.outbox { InBucketKept(s, After(s, steps), r); }
  }
}
