// One page of an agent's trace over a time window, read from its object and from the bucket (`readTraceWindow`), and
// the walk that follows `nextCursor` to its end.
module TraceWindow {
  import opened Wrappers

  const UPLOAD_SLACK_MS := 3_600_000
  const TRACE_LIST_PAGES := 20

  /** A trace row: `known` when its kind and verdict are of the contract's vocabulary, so a reader keeps it. */
  datatype Row = Row(no: nat, at: int, known: bool)

  /** A batch in the bucket: the range its key names, when it was uploaded, and its rows (none when it has gone). */
  datatype Batch = Batch(from: nat, to: nat, uploaded: int, body: Option<seq<Row>>)

  datatype Query = Query(from: int, to: int, after: nat, limit: nat)

  datatype Page = Page(after: nat, rows: seq<Row>, next: Option<nat>)

  datatype Failure = NoAgent | TooManyListings

  predicate InWindow(r: Row, q: Query) {
    q.from <= r.at < q.to
  }

  ghost predicate Increasing(rows: seq<Row>) {
    forall i, j :: 0 <= i < j < |rows| ==> rows[i].no < rows[j].no
  }

  // ---- what the page is read from

  /** The rows of one log: a seq names one row. */
  ghost predicate OneLog(log: set<Row>) {
    forall r, s :: r in log && s in log && r.no == s.no ==> r == s
  }

  /**
   * A batch, unless it has gone since it was listed, holds exactly the log's rows of its range, and was uploaded after the
   * last of them ended, within the slack.
   */
  ghost predicate BatchOf(b: Batch, log: set<Row>) {
    b.body.Some? ==>
      && (forall r :: r in b.body.value <==> r in log && b.from <= r.no <= b.to)
      && (forall r :: r in b.body.value ==> r.at <= b.uploaded + UPLOAD_SLACK_MS)
  }

  /** The batch is there, and the seq in its range. */
  predicate Spans(b: Batch, no: nat) {
    b.body.Some? && b.from <= no <= b.to
  }

  /** No batch that is there begins within one that has gone. */
  ghost predicate GoneApart(batches: seq<Batch>) {
    forall g, b :: g in batches && b in batches && g.body.None? && b.body.Some? ==> !(g.from <= b.from <= g.to)
  }

  /** What the object answers: rows of the log past the cursor, in order, `scan` of them at most. */
  ghost predicate LocalOf(local: seq<Row>, log: set<Row>, after: nat, scan: nat) {
    Increasing(local) && |local| <= scan && forall r :: r in local ==> r in log && r.no > after
  }

  /** Past the last row a full local read answered, the object has not been looked at. */
  predicate BeyondScan(no: nat, local: seq<Row>, scan: nat) {
    |local| == scan && |local| > 0 && no > local[|local| - 1].no
  }

  /** Every row of `before` past the cursor was answered by the object, lies beyond its scan, or is in a listed batch still there. */
  ghost predicate Covered(before: set<Row>, local: seq<Row>, batches: seq<Batch>, after: nat, scan: nat) {
    forall r :: r in before && r.no > after ==>
      r in local || BeyondScan(r.no, local, scan) || exists b :: b in batches && Spans(b, r.no)
  }

  ghost predicate SourceOf(before: set<Row>, log: set<Row>, local: seq<Row>, batches: seq<Batch>, after: nat, scan: nat) {
    && before <= log && OneLog(log) && LocalOf(local, log, after, scan)
    && (forall b :: b in batches ==> BatchOf(b, log))
    && Covered(before, local, batches, after, scan)
  }

  // ---- a page in order

  /**
   * The page's rows are the log's, in the window and in order; up to where it says to go on (to the end when it says
   * nowhere) it holds every row of `before`; and it always moves on.
   */
  ghost predicate PageOk(before: set<Row>, log: set<Row>, q: Query, p: Page) {
    && Increasing(p.rows) && |p.rows| <= q.limit && p.after == q.after
    && (forall r :: r in p.rows ==> r in log && InWindow(r, q) && r.no > q.after)
    && (p.next.Some? ==> p.next.value > q.after && forall r :: r in p.rows ==> r.no <= p.next.value)
    && (forall r :: r in before && InWindow(r, q) && r.no > q.after && (p.next.Some? ==> r.no <= p.next.value) ==> r in p.rows)
  }

  // ---- reading a page

  predicate Due(b: Batch, q: Query) {
    b.to > q.after && !(b.uploaded < q.from - UPLOAD_SLACK_MS)
  }

  ghost predicate ByFrom(bs: seq<Batch>) {
    forall i, j :: 0 <= i < j < |bs| ==> bs[i].from <= bs[j].from
  }

  /** The batch put among the ordered ones, after those that begin no later. */
  function Insert(b: Batch, bs: seq<Batch>): (r: seq<Batch>)
    requires ByFrom(bs)
    ensures ByFrom(r) && (forall c :: c in r <==> c == b || c in bs) && |r| == |bs| + 1
  {
    if bs == [] || b.from < bs[0].from then [b] + bs
    else
      var rest := Insert(b, bs[1..]);
      assert forall c :: c in bs[1..] ==> c in bs;
      assert forall c :: c in bs ==> c == bs[0] || c in bs[1..];
      assert forall j :: 0 <= j < |rest| ==> rest[j] in rest;
      assert forall c :: c in rest ==> bs[0].from <= c.from;
      [bs[0]] + rest
  }

  /** The batches due, in the order they begin; of those that begin together, as they were listed. */
  function SortedDue(batches: seq<Batch>, q: Query): (due: seq<Batch>)
    ensures ByFrom(due) && forall b :: b in due <==> b in batches && Due(b, q)
  {
    if batches == [] then []
    else
      var init, last := batches[..|batches| - 1], batches[|batches| - 1];
      assert batches == init + [last];
      if Due(last, q) then Insert(last, SortedDue(init, q)) else SortedDue(init, q)
  }

  /** The window's seqs among the rows of the first `n` batches, past the cursor. */
  ghost function SeenInWindow(due: seq<Batch>, n: nat, q: Query): set<nat>
    requires n <= |due|
  {
    set j, r | 0 <= j < n && due[j].body.Some? && r in due[j].body.value && InWindow(r, q) && r.no > q.after :: r.no
  }

  /** A page reads no batch more: as many as it may are read, or as many window rows as it can answer are found. */
  ghost predicate AtBound(due: seq<Batch>, n: nat, q: Query, objectsScan: nat)
    requires n <= |due|
  {
    n == objectsScan || |SeenInWindow(due, n, q)| >= q.limit
  }

  /** Where a page stops reading batches: at its first bound, or at the last batch. */
  ghost predicate StopsAt(due: seq<Batch>, n: nat, q: Query, objectsScan: nat) {
    n <= |due| && (n < |due| ==> AtBound(due, n, q, objectsScan)) && forall j :: 0 <= j < n ==> !AtBound(due, j, q, objectsScan)
  }

  /** Past this nothing has been looked at: the end of a full scan of the object, or of what the batches read reach. */
  function FrontierOf(local: seq<Row>, localScan: nat, due: seq<Batch>, n: nat, after: nat): Option<int>
    requires n <= |due|
  {
    var scanned := if |local| == localScan && localScan > 0 then Some(local[|local| - 1].no) else None;
    if n == |due| then scanned
    else if scanned.None? || StopAt(due, n, after) < scanned.value then Some(StopAt(due, n, after)) else scanned
  }

  /** The row was answered by the object, or is in one of the first `n` batches. */
  ghost predicate ReadBy(local: seq<Row>, due: seq<Batch>, n: nat, after: nat, r: Row)
    requires n <= |due|
  {
    r in local || (r.no > after && exists j :: 0 <= j < n && due[j].body.Some? && r in due[j].body.value)
  }

  /**
   * The page there is, exactly: of the rows read, those of the window up to the frontier, in order, and no more than the
   * limit; cut at the limit it goes on from its own last row, and otherwise from the frontier, when there is one.
   */
  ghost predicate IsPage(local: seq<Row>, due: seq<Batch>, q: Query, localScan: nat, objectsScan: nat, n: nat, p: Page) {
    && StopsAt(due, n, q, objectsScan)
    && var frontier := FrontierOf(local, localScan, due, n, q.after);
       && p.after == q.after && Increasing(p.rows) && |p.rows| <= q.limit
       && (forall r :: r in p.rows ==> ReadBy(local, due, n, q.after, r) && InWindow(r, q) && (frontier.Some? ==> r.no <= frontier.value))
       && (if |p.rows| == q.limit && q.limit > 0 then p.next == Some(p.rows[q.limit - 1].no)
           else p.next.Some? == frontier.Some? && (p.next.Some? ==> p.next.value == frontier.value))
       && forall r :: ReadBy(local, due, n, q.after, r) && InWindow(r, q) && WithinPage(r, q, frontier, p) ==> r in p.rows
  }

  /** No further than the frontier, nor than a page cut at its limit goes. */
  predicate WithinPage(r: Row, q: Query, frontier: Option<int>, p: Page) {
    (frontier.Some? ==> r.no <= frontier.value) && (|p.rows| == q.limit && q.limit > 0 ==> r.no <= p.rows[q.limit - 1].no)
  }

  /** So a page with less than the limit stops only at a full scan of the object or at a bound on batches, and goes on only then. */
  lemma StopsOnlyAtABound(local: seq<Row>, due: seq<Batch>, q: Query, localScan: nat, objectsScan: nat, n: nat, p: Page)
    requires IsPage(local, due, q, localScan, objectsScan, n, p) && localScan >= 1 && |p.rows| < q.limit
    ensures p.next.Some? <==> |local| == localScan || (n < |due| && AtBound(due, n, q, objectsScan))
  {
  }

  /** The seqs of the window among the rows collected. */
  ghost function WindowKeys(bySeq: map<nat, Row>, q: Query): set<nat> {
    set k | k in bySeq && InWindow(bySeq[k], q)
  }

  /** The values of `bySeq` below `n`, in seq order. */
  function ValuesBelow(bySeq: map<nat, Row>, n: nat): (rows: seq<Row>)
    requires forall k :: k in bySeq ==> bySeq[k].no == k
    ensures Increasing(rows) && forall r :: r in rows <==> r.no < n && Found(r, bySeq)
  {
    if n == 0 then [] else ValuesBelow(bySeq, n - 1) + if n - 1 in bySeq then [bySeq[n - 1]] else []
  }

  function InWindowOnly(rows: seq<Row>, q: Query): (kept: seq<Row>)
    requires Increasing(rows)
    ensures Increasing(kept) && forall r :: r in kept <==> r in rows && InWindow(r, q)
  {
    if rows == [] then []
    else
      var rest := InWindowOnly(rows[1..], q);
      FirstKept(rows, rest, q);
      if InWindow(rows[0], q) then [rows[0]] + rest else rest
  }

  lemma FirstKept(rows: seq<Row>, rest: seq<Row>, q: Query)
    requires rows != [] && Increasing(rows) && Increasing(rest) && forall r :: r in rest <==> r in rows[1..] && InWindow(r, q)
    ensures Increasing([rows[0]] + rest) && forall r :: r in rows <==> r == rows[0] || r in rows[1..]
  {
    forall j | 0 <= j < |rest| ensures rows[0].no < rest[j].no {
      assert rest[j] in rest;
    }
  }

  /** Rows collected so far: one for each seq, all of the log and past the cursor, none above `top`. */
  ghost predicate Collected(bySeq: map<nat, Row>, log: set<Row>, after: nat, top: nat) {
    forall k :: k in bySeq ==> bySeq[k].no == k && bySeq[k] in log && after < k <= top
  }

  /** The rows of a batch that is there, up to the frontier, have been read. */
  ghost predicate BatchRead(b: Batch, log: set<Row>, after: nat, frontier: Option<nat>, bySeq: map<nat, Row>) {
    forall r :: r in log && Spans(b, r.no) && r.no > after && (frontier.Some? ==> r.no <= frontier.value) ==> Found(r, bySeq)
  }

  predicate Found(r: Row, bySeq: map<nat, Row>) {
    r.no in bySeq && bySeq[r.no] == r
  }

  ghost predicate AllRead(due: seq<Batch>, log: set<Row>, after: nat, frontier: Option<nat>, bySeq: map<nat, Row>) {
    forall b :: b in due ==> BatchRead(b, log, after, frontier, bySeq)
  }

  /** One batch's rows put with the rest. */
  method Collect(body: seq<Row>, bySeq0: map<nat, Row>, q: Query, inWindow0: nat, top0: nat, ghost log: set<Row>)
    returns (bySeq: map<nat, Row>, inWindow: nat, top: nat)
    requires OneLog(log) && Collected(bySeq0, log, q.after, top0) && forall r :: r in body ==> r in log
    ensures Collected(bySeq, log, q.after, top)
    ensures forall k :: k in bySeq0 ==> k in bySeq && bySeq[k] == bySeq0[k]
    ensures forall r :: r in body && r.no > q.after ==> Found(r, bySeq)
    ensures forall k :: k in bySeq ==> k in bySeq0 || bySeq[k] in body
    ensures inWindow0 == |WindowKeys(bySeq0, q)| ==> inWindow == |WindowKeys(bySeq, q)|
    ensures top0 <= top
  {
    bySeq, inWindow, top := bySeq0, inWindow0, top0;
    for i := 0 to |body|
      invariant Collected(bySeq, log, q.after, top) && top0 <= top
      invariant forall k :: k in bySeq0 ==> k in bySeq && bySeq[k] == bySeq0[k]
      invariant forall j :: 0 <= j < i && body[j].no > q.after ==> body[j].no in bySeq && bySeq[body[j].no] == body[j]
      invariant forall k :: k in bySeq ==> k in bySeq0 || bySeq[k] in body
      invariant inWindow0 == |WindowKeys(bySeq0, q)| ==> inWindow == |WindowKeys(bySeq, q)|
    {
      var row := body[i];
      assert row in log;
      if row.no > q.after {
        KeysOneMore(bySeq, row, q);
        if row.no !in bySeq && InWindow(row, q) { inWindow := inWindow + 1; }
        bySeq := bySeq[row.no := row];
        if row.no > top { top := row.no; }
      }
    }
  }

  lemma KeysOneMore(bySeq: map<nat, Row>, row: Row, q: Query)
    requires row.no in bySeq ==> bySeq[row.no] == row
    ensures |WindowKeys(bySeq[row.no := row], q)| == |WindowKeys(bySeq, q)| + if row.no !in bySeq && InWindow(row, q) then 1 else 0
  {
    if row.no in bySeq {
      assert bySeq[row.no := row] == bySeq;
    } else {
      assert WindowKeys(bySeq[row.no := row], q) == WindowKeys(bySeq, q) + if InWindow(row, q) then {row.no} else {};
    }
  }

  /** With exactly the first batches read, the window's seqs among the rows collected are theirs. */
  lemma KeysAreSeen(due: seq<Batch>, n: nat, q: Query, log: set<Row>, bySeq: map<nat, Row>, top: nat)
    requires n <= |due| && Collected(bySeq, log, q.after, top) && FirstRead(due, n, log, q.after, bySeq)
    requires forall b :: b in due ==> BatchOf(b, log)
    ensures WindowKeys(bySeq, q) == SeenInWindow(due, n, q)
  {
    forall k | k in WindowKeys(bySeq, q) ensures k in SeenInWindow(due, n, q) {
      var j :| 0 <= j < n && due[j].body.Some? && bySeq[k] in due[j].body.value;
      assert bySeq[k].no == k;
    }
    forall k | k in SeenInWindow(due, n, q) ensures k in WindowKeys(bySeq, q) {
      var j, r :| 0 <= j < n && due[j].body.Some? && r in due[j].body.value && InWindow(r, q) && r.no > q.after && r.no == k;
      ReadIsFound(due, n, j, r, log, q.after, bySeq);
    }
  }

  lemma ReadIsFound(due: seq<Batch>, n: nat, j: nat, r: Row, log: set<Row>, after: nat, bySeq: map<nat, Row>)
    requires j < n <= |due| && due[j].body.Some? && r in due[j].body.value && r.no > after
    requires FirstRead(due, n, log, after, bySeq) && forall b :: b in due ==> BatchOf(b, log)
    ensures Found(r, bySeq)
  {
    assert BatchOf(due[j], log) && Spans(due[j], r.no);
    assert BatchRead(due[j], log, after, None, bySeq);
  }

  /** Every row collected was in one of the first `n` batches. */
  ghost predicate ReadFrom(due: seq<Batch>, n: nat, bySeq: map<nat, Row>)
    requires n <= |due|
  {
    forall k :: k in bySeq ==> exists j :: 0 <= j < n && due[j].body.Some? && bySeq[k] in due[j].body.value
  }

  /** No row of a batch left unread lies up to the frontier, unless one of the first `n` batches, all read, has it too. */
  ghost predicate NoneBehind(due: seq<Batch>, n: nat, log: set<Row>, after: nat, frontier: Option<nat>)
    requires n <= |due|
  {
    forall j, r :: n <= j < |due| && r in log && Spans(due[j], r.no) && r.no > after && (frontier.Some? ==> r.no <= frontier.value) ==>
      exists i :: 0 <= i < n && Spans(due[i], r.no)
  }

  /** The highest seq the first `n` batches reach, there or gone. */
  function Furthest(due: seq<Batch>, n: nat, after: nat): nat
    requires n <= |due|
  {
    if n == 0 then after
    else
      var before := Furthest(due, n - 1, after);
      if due[n - 1].to > before then due[n - 1].to else before
  }

  /** How far a page stopping before the n-th batch lets itself answer. */
  function StopAt(due: seq<Batch>, n: nat, after: nat): int
    requires n < |due|
  {
    if due[n].from - 1 > Furthest(due, n, after) then due[n].from - 1 else Furthest(due, n, after)
  }

  /**
   * Which of the due batches a page reads, and how far they let it answer. Everything that lies in a due batch still there,
   * up to the frontier, has been read exactly when the batches left unread hold nothing more up to it; which is so when none
   * of them begins within one that has gone.
   */
  method ReadBatches(due: seq<Batch>, q: Query, frontier0: Option<nat>, objectsScan: nat, ghost log: set<Row>)
    returns (bySeq: map<nat, Row>, frontier: Option<nat>, top: nat, stop: nat)
    requires ByFrom(due) && OneLog(log) && q.limit >= 1 && objectsScan >= 1
    requires forall b :: b in due ==> BatchOf(b, log) && b.to > q.after
    requires frontier0.Some? ==> frontier0.value > q.after
    ensures Collected(bySeq, log, q.after, top)
    ensures frontier.Some? ==> frontier.value > q.after && (frontier0.Some? ==> frontier.value <= frontier0.value)
    ensures frontier.None? ==> frontier0.None?
    ensures due == [] ==> frontier == frontier0 && bySeq == map[]
    ensures StopsAt(due, stop, q, objectsScan) && FirstRead(due, stop, log, q.after, bySeq)
    ensures stop == |due| ==> frontier == frontier0
    ensures stop < |due| ==> frontier.Some?
    ensures stop < |due| ==> frontier == if frontier0.None? || StopAt(due, stop, q.after) < frontier0.value then Some(StopAt(due, stop, q.after)) else frontier0
    ensures AllRead(due, log, q.after, frontier, bySeq) <==> NoneBehind(due, stop, log, q.after, frontier)
    ensures GoneApart(due) ==> AllRead(due, log, q.after, frontier, bySeq)
  {
    var readThrough;
    bySeq, top, readThrough, stop := ReadUntil(due, q, objectsScan, log);
    frontier := frontier0;
    if stop < |due| {
      var bound := if due[stop].from - 1 > readThrough then due[stop].from - 1 else readThrough;
      frontier := if frontier0.None? || bound < frontier0.value then Some(bound) else frontier0;
    }
    Stopped(due, stop, log, q.after, frontier, bySeq);
  }

  /** The loop over the batches, up to where it stops. */
  method ReadUntil(due: seq<Batch>, q: Query, objectsScan: nat, ghost log: set<Row>)
    returns (bySeq: map<nat, Row>, top: nat, readThrough: nat, stop: nat)
    requires OneLog(log) && q.limit >= 1 && objectsScan >= 1 && forall b :: b in due ==> BatchOf(b, log)
    ensures StopsAt(due, stop, q, objectsScan) && (due != [] ==> stop > 0)
    ensures Collected(bySeq, log, q.after, top) && FirstRead(due, stop, log, q.after, bySeq)
    ensures readThrough == Furthest(due, stop, q.after)
  {
    bySeq, top := map[], q.after;
    var objects: nat, inWindow: nat := 0, 0;
    readThrough, stop := q.after, 0;
    while stop < |due|
      invariant stop <= |due| && objects == stop <= objectsScan && inWindow == |WindowKeys(bySeq, q)|
      invariant forall j :: 0 <= j < stop ==> !AtBound(due, j, q, objectsScan)
      invariant Collected(bySeq, log, q.after, top) && FirstRead(due, stop, log, q.after, bySeq)
      invariant readThrough == Furthest(due, stop, q.after)
    {
      KeysAreSeen(due, stop, q, log, bySeq, top);
      if objects == objectsScan || inWindow >= q.limit { return; }
      bySeq, inWindow, top := ReadOne(due, stop, bySeq, q, inWindow, top, log);
      objects := objects + 1;
      if due[stop].to > readThrough { readThrough := due[stop].to; }
      stop := stop + 1;
    }
  }

  /** The first `n` batches have been read, and nothing else. */
  ghost predicate FirstRead(due: seq<Batch>, n: nat, log: set<Row>, after: nat, bySeq: map<nat, Row>)
    requires n <= |due|
  {
    (forall j :: 0 <= j < n ==> BatchRead(due[j], log, after, None, bySeq)) && ReadFrom(due, n, bySeq)
  }

  /** One batch, skipped when it has gone. */
  method ReadOne(due: seq<Batch>, i: nat, bySeq0: map<nat, Row>, q: Query, inWindow0: nat, top0: nat, ghost log: set<Row>)
    returns (bySeq: map<nat, Row>, inWindow: nat, top: nat)
    requires i < |due| && BatchOf(due[i], log) && OneLog(log)
    requires Collected(bySeq0, log, q.after, top0) && FirstRead(due, i, log, q.after, bySeq0) && inWindow0 == |WindowKeys(bySeq0, q)|
    ensures Collected(bySeq, log, q.after, top) && FirstRead(due, i + 1, log, q.after, bySeq) && inWindow == |WindowKeys(bySeq, q)|
  {
    bySeq, inWindow, top := bySeq0, inWindow0, top0;
    if due[i].body.Some? {
      bySeq, inWindow, top := Collect(due[i].body.value, bySeq0, q, inWindow0, top0, log);
      BatchesStayRead(due, i, log, q.after, bySeq0, bySeq);
    }
    ReadFromOneMore(due, i, bySeq0, bySeq);
  }

  lemma {:induction false} FurthestIs(due: seq<Batch>, n: nat, after: nat) returns (k: nat)
    requires 0 < n <= |due| && forall b :: b in due ==> b.to > after
    ensures k < n && due[k].to == Furthest(due, n, after) > after
  {
    if n > 1 && due[n - 1].to <= Furthest(due, n - 1, after) { k := FurthestIs(due, n - 1, after); } else { k := n - 1; }
  }

  lemma Stopped(due: seq<Batch>, n: nat, log: set<Row>, after: nat, frontier: Option<nat>, bySeq: map<nat, Row>)
    requires n <= |due| && (due != [] ==> n > 0) && ByFrom(due) && FirstRead(due, n, log, after, bySeq)
    requires forall b :: b in due ==> BatchOf(b, log) && b.to > after
    requires n < |due| ==> frontier.Some? && frontier.value <= StopAt(due, n, after)
    ensures n < |due| ==> StopAt(due, n, after) > after
    ensures AllRead(due, log, after, frontier, bySeq) <==> NoneBehind(due, n, log, after, frontier)
    ensures GoneApart(due) ==> AllRead(due, log, after, frontier, bySeq)
  {
    ReadExactlyWhen(due, n, log, after, frontier, bySeq);
    if n < |due| {
      var k := FurthestIs(due, n, after);
      if GoneApart(due) { ApartLeavesNone(due, n, k, log, after, frontier); }
    }
  }

  /** As many batches gone as a page reads, each over seqs 1 to 3 or more, and one still there with the row of seq 2. */
  function GoneThenThere(scan: nat, at: int): (due: seq<Batch>)
    ensures ByFrom(due)
  {
    seq(scan, i requires 0 <= i < scan => Batch(1, 3 + i, at, None)) + [Batch(2, 2, at, Some([Row(2, at, true)]))]
  }

  lemma {:induction false} GoneReach(scan: nat, at: int, n: nat)
    requires n <= scan
    ensures Furthest(GoneThenThere(scan, at), n, 0) == if n == 0 then 0 else n + 2
  {
    if n > 0 { GoneReach(scan, at, n - 1); }
  }

  /** Whatever the bound on batches: the page lets itself answer past a row of a batch it has not read. */
  method GoneBatchHidesAnother(objectsScan: nat, limit: nat, at: int)
    returns (due: seq<Batch>, row: Row, bySeq: map<nat, Row>, frontier: Option<nat>)
    requires objectsScan >= 1 && limit >= 1
    ensures due == GoneThenThere(objectsScan, at) && due[objectsScan].body == Some([row])
    ensures bySeq == map[] && frontier == Some(objectsScan + 2) && row.no < objectsScan + 2
    ensures !AllRead(due, {row}, 0, frontier, bySeq)
  {
    due, row := GoneThenThere(objectsScan, at), Row(2, at, true);
    var q := Query(at, at + 1, 0, limit);
    var top, stop;
    bySeq, frontier, top, stop := ReadBatches(due, q, None, objectsScan, {row});
    GoneStops(due, objectsScan, q, stop);
    NothingRead(due, stop, bySeq);
    GoneReach(objectsScan, at, objectsScan);
    assert due[objectsScan] in due && Spans(due[objectsScan], row.no) && row in {row};
    assert !BatchRead(due[objectsScan], {row}, 0, frontier, bySeq);
  }

  /** Batches that have gone hold nothing of the window, so reading stops at the bound on batches. */
  lemma GoneStops(due: seq<Batch>, scan: nat, q: Query, stop: nat)
    requires scan < |due| && q.limit >= 1 && (forall j :: 0 <= j < scan ==> due[j].body.None?) && StopsAt(due, stop, q, scan)
    ensures stop == scan
  {
    assert AtBound(due, scan, q, scan);
    forall j | 0 <= j < scan ensures !AtBound(due, j, q, scan) {
      assert SeenInWindow(due, j, q) == {};
    }
  }

  lemma NothingRead(due: seq<Batch>, n: nat, bySeq: map<nat, Row>)
    requires n <= |due| && (forall j :: 0 <= j < n ==> due[j].body.None?) && ReadFrom(due, n, bySeq)
    ensures bySeq == map[]
  {
    assert bySeq.Keys == {};
  }

  /** A batch's rows collected leave the ones before it read. */
  lemma BatchesStayRead(due: seq<Batch>, i: nat, log: set<Row>, after: nat, bySeq: map<nat, Row>, more: map<nat, Row>)
    requires i < |due| && BatchOf(due[i], log) && due[i].body.Some?
    requires forall j :: 0 <= j < i ==> BatchRead(due[j], log, after, None, bySeq)
    requires forall k :: k in bySeq ==> k in more && more[k] == bySeq[k]
    requires forall r :: r in due[i].body.value && r.no > after ==> Found(r, more)
    ensures forall j :: 0 <= j <= i ==> BatchRead(due[j], log, after, None, more)
  {
  }

  lemma ReadFromOneMore(due: seq<Batch>, i: nat, bySeq: map<nat, Row>, more: map<nat, Row>)
    requires i < |due| && ReadFrom(due, i, bySeq)
    requires forall k :: k in more ==> (k in bySeq && more[k] == bySeq[k]) || (due[i].body.Some? && more[k] in due[i].body.value)
    ensures ReadFrom(due, i + 1, more)
  {
    forall k | k in more ensures exists j :: 0 <= j < i + 1 && due[j].body.Some? && more[k] in due[j].body.value {
      if k in bySeq && more[k] == bySeq[k] {
        var j :| 0 <= j < i && due[j].body.Some? && bySeq[k] in due[j].body.value;
      }
    }
  }

  /** With the first batches read, all are exactly when the others hold nothing more. */
  lemma ReadExactlyWhen(due: seq<Batch>, n: nat, log: set<Row>, after: nat, frontier: Option<nat>, bySeq: map<nat, Row>)
    requires n <= |due| && forall b :: b in due ==> BatchOf(b, log)
    requires forall j :: 0 <= j < n ==> BatchRead(due[j], log, after, None, bySeq)
    requires ReadFrom(due, n, bySeq)
    ensures AllRead(due, log, after, frontier, bySeq) <==> NoneBehind(due, n, log, after, frontier)
  {
    if AllRead(due, log, after, frontier, bySeq) {
      forall j, r | n <= j < |due| && r in log && Spans(due[j], r.no) && r.no > after && (frontier.Some? ==> r.no <= frontier.value)
        ensures exists i :: 0 <= i < n && Spans(due[i], r.no)
      {
        assert BatchRead(due[j], log, after, frontier, bySeq);
        var i :| 0 <= i < n && due[i].body.Some? && bySeq[r.no] in due[i].body.value;
        assert BatchOf(due[i], log);
        assert Spans(due[i], r.no);
      }
    }
    if NoneBehind(due, n, log, after, frontier) {
      forall b | b in due ensures BatchRead(b, log, after, frontier, bySeq) {
        var j :| 0 <= j < |due| && due[j] == b;
        forall r | r in log && Spans(b, r.no) && r.no > after && (frontier.Some? ==> r.no <= frontier.value) ensures Found(r, bySeq) {
          var i := j;
          if j >= n { i :| 0 <= i < n && Spans(due[i], r.no); }
          assert BatchRead(due[i], log, after, None, bySeq);
        }
      }
    }
  }

  /** Stopping before the n-th batch, the k-th having reached furthest: nothing is left behind where what has gone stands apart. */
  lemma ApartLeavesNone(due: seq<Batch>, n: nat, k: nat, log: set<Row>, after: nat, frontier: Option<nat>)
    requires ByFrom(due) && k < n < |due| && GoneApart(due)
    requires frontier.Some? && frontier.value <= if due[n].from - 1 > due[k].to then due[n].from - 1 else due[k].to
    ensures NoneBehind(due, n, log, after, frontier)
  {
    forall j, r | n <= j < |due| && r in log && Spans(due[j], r.no) && r.no > after && r.no <= frontier.value
      ensures exists i :: 0 <= i < n && Spans(due[i], r.no)
    {
      assert due[k].from <= due[n].from <= due[j].from;
      assert due[k] in due && due[j] in due;
      assert Spans(due[k], r.no);
    }
  }

  /** The page at `q.after`. `listing` is the bucket's answer, page by page, listed after the object answered `local`. */
  method ReadTraceWindow(local: Option<seq<Row>>, listing: seq<seq<Batch>>, q: Query, localScan: nat, objectsScan: nat,
                         ghost before: set<Row>, ghost log: set<Row>) returns (r: Result<Page, Failure>)
    requires q.limit >= 1 && localScan >= 1 && objectsScan >= 1
    requires local.Some? && |listing| <= TRACE_LIST_PAGES ==> SourceOf(before, log, local.value, Flat(listing), q.after, localScan)
    ensures r.Ok? <==> local.Some? && |listing| <= 20
    ensures r.Err? ==> r.error == if local.None? then NoAgent else TooManyListings
    // In order always, and complete unless a batch that has gone reaches over the beginning of one that is there.
    ensures r.Ok? ==> PageOk({}, log, q, r.value)
    ensures r.Ok? && GoneApart(Flat(listing)) ==> PageOk(before, log, q, r.value)
    // And it is the page there is: what it holds, and where it stops and goes on.
    ensures r.Ok? ==> exists n: nat :: IsPage(local.value, SortedDue(Flat(listing), q), q, localScan, objectsScan, n, r.value)
    // With nothing answered and nothing listed the walk is over.
    ensures local == Some([]) && Flat(listing) == [] && r.Ok? ==> r.value == Page(q.after, [], None)
  {
    if local.None? { return Err(NoAgent); }
    var due: seq<Batch> := [];
    var page := 0;
    while page < |listing|
      invariant 0 <= page <= |listing| && page <= TRACE_LIST_PAGES
      invariant due == SortedDue(Flat(listing[..page]), q)
    {
      if page == TRACE_LIST_PAGES { return Err(TooManyListings); }
      due := AddDue(listing[page], due, q, Flat(listing[..page]));
      FlatStep(listing, page);
      page := page + 1;
    }
    assert listing[..page] == listing;
    assert due != [] ==> due[0] in due;
    var p := PageFrom(local.value, due, Flat(listing), q, localScan, objectsScan, before, log);
    return Ok(p);
  }

  /** The page, from the object's rows and the batches due. */
  method PageFrom(l: seq<Row>, due: seq<Batch>, ghost batches: seq<Batch>, q: Query, localScan: nat, objectsScan: nat,
                  ghost before: set<Row>, ghost log: set<Row>) returns (p: Page)
    requires q.limit >= 1 && localScan >= 1 && objectsScan >= 1 && ByFrom(due)
    requires SourceOf(before, log, l, batches, q.after, localScan)
    requires forall b :: b in due <==> b in batches && Due(b, q)
    ensures PageOk({}, log, q, p)
    ensures GoneApart(batches) ==> PageOk(before, log, q, p)
    ensures exists n: nat :: IsPage(l, due, q, localScan, objectsScan, n, p)
    ensures l == [] && due == [] ==> p == Page(q.after, [], None)
  {
    ghost var stop, seen, bySeq, top;
    var found, frontier;
    found, frontier, stop, seen, bySeq, top := ReadRows(l, due, q, localScan, objectsScan, log);
    var rows := if |found| > q.limit then found[..q.limit] else found;
    var next := if |rows| == q.limit then Some(rows[|rows| - 1].no) else frontier;
    p := Page(q.after, rows, next);
    PageInOrder(log, l, due, q, stop, seen, bySeq, top, frontier, found, p);
    if GoneApart(batches) { PageComplete(before, log, l, batches, due, q, localScan, stop, seen, bySeq, top, frontier, found, p); }
    FoundAreRead(l, due, stop, q, log, seen, bySeq, top, frontier, found);
    CutIsPage(l, due, q, localScan, objectsScan, stop, frontier, found, p);
  }

  /** The window's rows up to the frontier, of the batches read and of the object's. */
  method ReadRows(l: seq<Row>, due: seq<Batch>, q: Query, localScan: nat, objectsScan: nat, ghost log: set<Row>)
    returns (found: seq<Row>, frontier: Option<nat>, ghost stop: nat, ghost seen: map<nat, Row>, ghost bySeq: map<nat, Row>, ghost top: nat)
    requires q.limit >= 1 && localScan >= 1 && objectsScan >= 1 && ByFrom(due) && OneLog(log) && LocalOf(l, log, q.after, localScan)
    requires forall b :: b in due ==> BatchOf(b, log) && b.to > q.after
    ensures AllFound(l, due, stop, q, log, seen, bySeq, top, frontier, found)
    ensures StopsAt(due, stop, q, objectsScan) && (GoneApart(due) ==> AllRead(due, log, q.after, frontier, seen))
    ensures FrontierIs(frontier, FrontierOf(l, localScan, due, stop, q.after)) && (frontier.Some? ==> frontier.value > q.after)
    ensures l == [] && due == [] ==> found == [] && frontier == None
  {
    var frontier0 := if |l| == localScan then Some(l[|l| - 1].no) else None;
    assert |l| > 0 ==> l[|l| - 1] in l;
    var some, t, n;
    some, frontier, t, n := ReadBatches(due, q, frontier0, objectsScan, log);
    seen, stop := some, n;
    var all, last := AddLocal(l, some, q, t, log);
    bySeq, top := all, last;
    found := FoundUpTo(all, frontier, last, q, log);
  }

  predicate FrontierIs(frontier: Option<nat>, bound: Option<int>) {
    frontier.Some? == bound.Some? && (frontier.Some? ==> frontier.value == bound.value)
  }

  /** The rows read, and those of them found: everything the object and the first batches hold, and nothing else. */
  ghost predicate AllFound(l: seq<Row>, due: seq<Batch>, stop: nat, q: Query, log: set<Row>, seen: map<nat, Row>, bySeq: map<nat, Row>,
                           top: nat, frontier: Option<nat>, found: seq<Row>) {
    && stop <= |due| && FirstRead(due, stop, log, q.after, seen) && (forall b :: b in due ==> BatchOf(b, log))
    && (forall k :: k in seen ==> seen[k].no == k > q.after)
    && (forall k :: k in seen ==> k in bySeq && bySeq[k] == seen[k])
    && (forall x :: x in l ==> Found(x, bySeq))
    && (forall k :: k in bySeq ==> k in seen || bySeq[k] in l)
    && Collected(bySeq, log, q.after, top) && Increasing(found)
    && (forall r :: r in found <==> InWindow(r, q) && Found(r, bySeq) && (frontier.Some? ==> r.no <= frontier.value))
  }

  /** A page of what was found: cut at the limit, going on from there or from the frontier. */
  predicate CutAt(q: Query, frontier: Option<nat>, found: seq<Row>, p: Page) {
    && q.limit >= 1 && p.after == q.after && p.rows == (if |found| > q.limit then found[..q.limit] else found)
    && p.next == if |p.rows| == q.limit then Some(p.rows[|p.rows| - 1].no) else frontier
  }

  lemma PageInOrder(log: set<Row>, l: seq<Row>, due: seq<Batch>, q: Query, stop: nat, seen: map<nat, Row>, bySeq: map<nat, Row>,
                    top: nat, frontier: Option<nat>, found: seq<Row>, p: Page)
    requires AllFound(l, due, stop, q, log, seen, bySeq, top, frontier, found) && CutAt(q, frontier, found, p)
    requires frontier.Some? ==> frontier.value > q.after
    ensures PageOk({}, log, q, p)
  {
    PageOfFound({}, log, q, found, frontier, p.rows, p.next);
  }

  lemma PageComplete(before: set<Row>, log: set<Row>, l: seq<Row>, batches: seq<Batch>, due: seq<Batch>, q: Query, localScan: nat,
                     stop: nat, seen: map<nat, Row>, bySeq: map<nat, Row>, top: nat, frontier: Option<nat>, found: seq<Row>, p: Page)
    requires SourceOf(before, log, l, batches, q.after, localScan) && (forall b :: b in due <==> b in batches && Due(b, q))
    requires AllFound(l, due, stop, q, log, seen, bySeq, top, frontier, found) && CutAt(q, frontier, found, p)
    requires GoneApart(batches) && (GoneApart(due) ==> AllRead(due, log, q.after, frontier, seen))
    requires frontier.Some? ==> frontier.value > q.after
    requires FrontierIs(frontier, FrontierOf(l, localScan, due, stop, q.after)) && localScan >= 1
    ensures PageOk(before, log, q, p)
  {
    CompletePage(before, log, l, batches, due, q, localScan, seen, bySeq, frontier, top, found);
    PageOfFound(before, log, q, found, frontier, p.rows, p.next);
  }

  lemma CompletePage(before: set<Row>, log: set<Row>, l: seq<Row>, batches: seq<Batch>, due: seq<Batch>, q: Query, localScan: nat,
                     seen: map<nat, Row>, bySeq: map<nat, Row>, frontier: Option<nat>, top: nat, found: seq<Row>)
    requires SourceOf(before, log, l, batches, q.after, localScan) && Collected(bySeq, log, q.after, top)
    requires forall b :: b in due <==> b in batches && Due(b, q)
    requires GoneApart(batches) && (GoneApart(due) ==> AllRead(due, log, q.after, frontier, seen))
    requires forall k :: k in seen ==> k in bySeq && bySeq[k] == seen[k]
    requires |l| == localScan && |l| > 0 ==> frontier.Some? && frontier.value <= l[|l| - 1].no
    requires forall r :: r in l ==> Found(r, bySeq)
    requires forall r :: r in found <==> InWindow(r, q) && Found(r, bySeq) && (frontier.Some? ==> r.no <= frontier.value)
    ensures forall r :: r in before && InWindow(r, q) && r.no > q.after && (frontier.Some? ==> r.no <= frontier.value) ==> r in found
  {
    assert GoneApart(due);
    StillRead(due, log, q.after, frontier, seen, bySeq);
    Complete(before, log, l, batches, due, q, localScan, bySeq, frontier, top, found);
  }

  /** What has been collected is what was read. */
  lemma FoundIsRead(l: seq<Row>, due: seq<Batch>, stop: nat, log: set<Row>, after: nat, seen: map<nat, Row>, bySeq: map<nat, Row>, r: Row)
    requires stop <= |due| && FirstRead(due, stop, log, after, seen) && forall b :: b in due ==> BatchOf(b, log)
    requires forall k :: k in seen ==> seen[k].no == k > after
    requires forall k :: k in seen ==> k in bySeq && bySeq[k] == seen[k]
    requires forall x :: x in l ==> Found(x, bySeq)
    requires forall k :: k in bySeq ==> k in seen || bySeq[k] in l
    ensures Found(r, bySeq) <==> ReadBy(l, due, stop, after, r)
  {
    if ReadBy(l, due, stop, after, r) && r !in l {
      var j :| 0 <= j < stop && due[j].body.Some? && r in due[j].body.value;
      ReadIsFound(due, stop, j, r, log, after, seen);
    }
    if Found(r, bySeq) && r !in l {
      var j :| 0 <= j < stop && due[j].body.Some? && seen[r.no] in due[j].body.value;
    }
  }

  lemma FoundAreRead(l: seq<Row>, due: seq<Batch>, stop: nat, q: Query, log: set<Row>, seen: map<nat, Row>, bySeq: map<nat, Row>,
                     top: nat, frontier: Option<nat>, found: seq<Row>)
    requires AllFound(l, due, stop, q, log, seen, bySeq, top, frontier, found)
    ensures forall r :: r in found <==> InWindow(r, q) && ReadBy(l, due, stop, q.after, r) && (frontier.Some? ==> r.no <= frontier.value)
  {
    forall r ensures Found(r, bySeq) <==> ReadBy(l, due, stop, q.after, r) {
      FoundIsRead(l, due, stop, log, q.after, seen, bySeq, r);
    }
  }

  lemma CutIsPage(l: seq<Row>, due: seq<Batch>, q: Query, localScan: nat, objectsScan: nat, stop: nat, frontier: Option<nat>,
                  found: seq<Row>, p: Page)
    requires StopsAt(due, stop, q, objectsScan) && Increasing(found) && CutAt(q, frontier, found, p)
    requires FrontierIs(frontier, FrontierOf(l, localScan, due, stop, q.after))
    requires forall r :: r in found <==> InWindow(r, q) && ReadBy(l, due, stop, q.after, r) && (frontier.Some? ==> r.no <= frontier.value)
    ensures IsPage(l, due, q, localScan, objectsScan, stop, p)
  {
    assert forall r :: r in p.rows ==> r in found;
    forall r | r in found && (|p.rows| == q.limit ==> r.no <= p.rows[q.limit - 1].no) ensures r in p.rows {
      var i :| 0 <= i < |found| && found[i] == r;
      assert i < |p.rows| ==> p.rows[i] == r;
    }
  }

  lemma StillRead(due: seq<Batch>, log: set<Row>, after: nat, frontier: Option<nat>, seen: map<nat, Row>, more: map<nat, Row>)
    requires AllRead(due, log, after, frontier, seen)
    requires forall k :: k in seen ==> k in more && more[k] == seen[k]
    ensures AllRead(due, log, after, frontier, more)
  {
    forall b | b in due ensures BatchRead(b, log, after, frontier, more) {
      assert BatchRead(b, log, after, frontier, seen);
    }
  }

  /** The rows collected, up to the frontier, ordered, and of those the window's. */
  method FoundUpTo(bySeq: map<nat, Row>, frontier: Option<nat>, top: nat, q: Query, ghost log: set<Row>) returns (found: seq<Row>)
    requires Collected(bySeq, log, q.after, top)
    ensures Increasing(found)
    ensures forall r :: r in found <==> InWindow(r, q) && Found(r, bySeq) && (frontier.Some? ==> r.no <= frontier.value)
    ensures bySeq == map[] ==> found == []
  {
    var bound := if frontier.Some? && frontier.value < top then frontier.value else top;
    var ordered := ValuesBelow(bySeq, bound + 1);
    found := InWindowOnly(ordered, q);
    assert found != [] ==> found[0] in found;
  }

  function Flat(listing: seq<seq<Batch>>): seq<Batch> {
    if listing == [] then [] else listing[0] + Flat(listing[1..])
  }

  lemma {:induction false} FlatStep(listing: seq<seq<Batch>>, page: nat)
    requires page < |listing|
    ensures Flat(listing[..page + 1]) == Flat(listing[..page]) + listing[page]
  {
    if page == 0 {
      assert listing[..1] == [listing[0]];
    } else {
      assert listing[..page + 1][1..] == listing[1..][..page] && listing[..page][1..] == listing[1..][..page - 1];
      FlatStep(listing[1..], page - 1);
    }
  }

  method AddDue(objects: seq<Batch>, due0: seq<Batch>, q: Query, ghost listed: seq<Batch>) returns (due: seq<Batch>)
    requires due0 == SortedDue(listed, q)
    ensures due == SortedDue(listed + objects, q)
  {
    due := due0;
    assert listed + objects[..0] == listed;
    for i := 0 to |objects|
      invariant due == SortedDue(listed + objects[..i], q)
    {
      var all := listed + objects[..i + 1];
      assert all[..|all| - 1] == listed + objects[..i] && all[|all| - 1] == objects[i];
      if Due(objects[i], q) { due := Insert(objects[i], due); }
    }
    assert objects[..|objects|] == objects;
  }

  /** The object's rows, where no batch held the same one. */
  method AddLocal(local: seq<Row>, bySeq0: map<nat, Row>, q: Query, top0: nat, ghost log: set<Row>) returns (bySeq: map<nat, Row>, top: nat)
    requires OneLog(log) && Collected(bySeq0, log, q.after, top0) && forall r :: r in local ==> r in log && r.no > q.after
    ensures Collected(bySeq, log, q.after, top) && top0 <= top
    ensures forall k :: k in bySeq0 ==> k in bySeq && bySeq[k] == bySeq0[k]
    ensures forall r :: r in local ==> Found(r, bySeq)
    ensures local == [] ==> bySeq == bySeq0
    ensures forall k :: k in bySeq ==> k in bySeq0 || bySeq[k] in local
  {
    bySeq, top := bySeq0, top0;
    for i := 0 to |local|
      invariant Collected(bySeq, log, q.after, top) && top0 <= top
      invariant forall k :: k in bySeq0 ==> k in bySeq && bySeq[k] == bySeq0[k]
      invariant forall j :: 0 <= j < i ==> local[j].no in bySeq && bySeq[local[j].no] == local[j]
      invariant i == 0 ==> bySeq == bySeq0
      invariant forall k :: k in bySeq ==> k in bySeq0 || bySeq[k] in local
    {
      assert local[i] in log;
      if local[i].no !in bySeq { bySeq := bySeq[local[i].no := local[i]]; }
      if local[i].no > top { top := local[i].no; }
    }
  }

  /** Up to the frontier, every window row of `before` has been found. */
  lemma Complete(before: set<Row>, log: set<Row>, local: seq<Row>, batches: seq<Batch>, due: seq<Batch>, q: Query, scan: nat,
                 bySeq: map<nat, Row>, frontier: Option<nat>, top: nat, found: seq<Row>)
    requires SourceOf(before, log, local, batches, q.after, scan) && Collected(bySeq, log, q.after, top)
    requires forall b :: b in due <==> b in batches && Due(b, q)
    requires |local| == scan && |local| > 0 ==> frontier.Some? && frontier.value <= local[|local| - 1].no
    requires forall r :: r in local ==> Found(r, bySeq)
    requires AllRead(due, log, q.after, frontier, bySeq)
    requires forall r :: r in found <==> InWindow(r, q) && Found(r, bySeq) && (frontier.Some? ==> r.no <= frontier.value)
    ensures forall r :: r in before && InWindow(r, q) && r.no > q.after && (frontier.Some? ==> r.no <= frontier.value) ==> r in found
  {
    forall r | r in before && InWindow(r, q) && r.no > q.after && (frontier.Some? ==> r.no <= frontier.value)
      ensures r in found
    {
      if r !in local {
        var b :| b in batches && Spans(b, r.no);
        assert BatchOf(b, log);
        assert r in b.body.value;
        assert Due(b, q);
      }
    }
  }

  lemma PageOfFound(before: set<Row>, log: set<Row>, q: Query, found: seq<Row>, frontier: Option<nat>, rows: seq<Row>, next: Option<nat>)
    requires q.limit >= 1 && Increasing(found) && forall r :: r in found ==> r in log && InWindow(r, q) && r.no > q.after
    requires frontier.Some? ==> frontier.value > q.after && forall r :: r in found ==> r.no <= frontier.value
    requires forall r :: r in before && InWindow(r, q) && r.no > q.after && (frontier.Some? ==> r.no <= frontier.value) ==> r in found
    requires rows == if |found| > q.limit then found[..q.limit] else found
    requires next == if |rows| == q.limit then Some(rows[|rows| - 1].no) else frontier
    ensures PageOk(before, log, q, Page(q.after, rows, next))
  {
    assert forall r :: r in rows ==> r in found;
    if |rows| == q.limit {
      assert rows[|rows| - 1] in rows;
      forall r | r in before && InWindow(r, q) && r.no > q.after && r.no <= next.value ensures r in rows {
        var i :| 0 <= i < |found| && found[i] == r;
        assert i < q.limit;
        assert rows[i] == r;
      }
    }
  }

  // ---- the walk

  /** Pages that follow `next` from `start` to the end, each in order when it was read, whatever was logged meanwhile. */
  ghost predicate IsWalk(before: set<Row>, q: Query, start: nat, pages: seq<Page>)
    decreases |pages|
  {
    && |pages| > 0
    && (exists log :: PageOk(before, log, q.(after := start), pages[0]))
    && (pages[0].next.None? ==> |pages| == 1)
    && (pages[0].next.Some? ==> IsWalk(before, q, pages[0].next.value, pages[1..]))
  }

  function Rows(pages: seq<Page>): seq<Row> {
    if pages == [] then [] else pages[0].rows + Rows(pages[1..])
  }

  /**
   * A walk answers its rows in strictly increasing seq, so none twice; every row of the window logged before it began
   * is among them; nothing outside the window or at or before the start is.
   */
  lemma {:induction false} WalkIsComplete(before: set<Row>, q: Query, start: nat, pages: seq<Page>)
    requires IsWalk(before, q, start, pages)
    ensures Increasing(Rows(pages))
    ensures forall r :: r in Rows(pages) ==> r.no > start && InWindow(r, q)
    ensures forall r :: r in before && InWindow(r, q) && r.no > start ==> r in Rows(pages)
    decreases |pages|
  {
    var q0, p := q.(after := start), pages[0];
    var log :| PageOk(before, log, q0, p);
    assert forall r :: InWindow(r, q0) <==> InWindow(r, q);
    if p.next.None? {
      assert Rows(pages[1..]) == [] && Rows(pages) == p.rows;
    } else {
      WalkIsComplete(before, q, p.next.value, pages[1..]);
      var rest := Rows(pages[1..]);
      forall i, j | 0 <= i < j < |p.rows + rest| ensures (p.rows + rest)[i].no < (p.rows + rest)[j].no {
        if i < |p.rows| <= j { assert p.rows[i] in p.rows && rest[j - |p.rows|] in rest; }
      }
    }
  }

  /** Each page moves the cursor on, so a walk whose cursors stay below `top` ends within that many pages. */
  lemma {:induction false} WalkEnds(before: set<Row>, q: Query, start: nat, pages: seq<Page>, top: nat)
    requires IsWalk(before, q, start, pages) && start <= top
    requires forall p :: p in pages && p.next.Some? ==> p.next.value <= top
    ensures |pages| <= top - start + 1
    decreases |pages|
  {
    var log :| PageOk(before, log, q.(after := start), pages[0]);
    if pages[0].next.Some? {
      assert pages[0] in pages && forall p :: p in pages[1..] ==> p in pages;
      WalkEnds(before, q, pages[0].next.value, pages[1..], top);
    }
  }
}
