/** The page reader over the live log, and the alarm pass that drains it. */
module TraceExport {
  import opened Wrappers
  import opened TraceWindow
  import opened TraceLog

  ghost function Known(log: set<Row>): set<Row> {
    set r | r in log && r.known
  }

  /** The object's answer (`localTrace`): damaged rows are left out after the scan's limit, not before it. */
  function LocalTrace(outbox: seq<Row>, after: nat, scan: nat): seq<Row>
    requires Increasing(outbox)
  {
    KnownOnly(Examined(outbox, after, scan))
  }

  /** The scan was not full, or none of the rows it examined is damaged. */
  predicate ScanIsTold(outbox: seq<Row>, after: nat, scan: nat)
    requires Increasing(outbox)
  {
    var examined := Examined(outbox, after, scan);
    |examined| < scan || forall r :: r in examined ==> r.known
  }

  lemma {:induction false} AllKnownAreKept(rows: seq<Row>)
    requires Increasing(rows)
    ensures (forall r :: r in rows ==> r.known) ==> KnownOnly(rows) == rows
    ensures (exists r :: r in rows && !r.known) ==> |KnownOnly(rows)| < |rows|
  {
    if rows != [] {
      assert forall r :: r in rows <==> r == rows[0] || r in rows[1..];
      AllKnownAreKept(rows[1..]);
    }
  }

  /** Every known row of the outbox is answered or lies past what the answer says was scanned. */
  ghost predicate NoneHidden(outbox: seq<Row>, after: nat, scan: nat)
    requires Increasing(outbox)
  {
    var local := LocalTrace(outbox, after, scan);
    forall r :: r in outbox && r.known && r.no > after ==> r in local || BeyondScan(r.no, local, scan)
  }

  /**
   * The reader tells a full scan by the number of rows it was answered. That holds exactly when the scan was not full,
   * or met no damaged row, or left no row behind: otherwise the rows past the scan are taken for no rows.
   */
  lemma HiddenExactlyWhen(outbox: seq<Row>, after: nat, scan: nat)
    requires Increasing(outbox) && scan >= 1
    ensures NoneHidden(outbox, after, scan) <==>
      ScanIsTold(outbox, after, scan) || forall r :: r in outbox && r.known && r.no > after ==> r in Examined(outbox, after, scan)
  {
    var examined := Examined(outbox, after, scan);
    AllKnownAreKept(examined);
    assert |examined| == scan ==> examined[scan - 1] in examined;
  }

  /** As many damaged rows as one scan examines, and a known one behind them. */
  function DamagedThenKnown(scan: nat, at: int): (outbox: seq<Row>)
    ensures Increasing(outbox)
  {
    seq(scan, i requires 0 <= i < scan => Row(i + 1, at, false)) + [Row(scan + 1, at, true)]
  }

  lemma {:induction false} NoneKnown(rows: seq<Row>)
    requires Increasing(rows) && forall i :: 0 <= i < |rows| ==> !rows[i].known
    ensures KnownOnly(rows) == []
  {
    if rows != [] { NoneKnown(rows[1..]); }
  }

  lemma DamagedAnswerNothing(scan: nat, at: int)
    requires scan >= 1
    ensures LocalTrace(DamagedThenKnown(scan, at), 0, scan) == []
  {
    var outbox := DamagedThenKnown(scan, at);
    assert Newer(outbox, 0) == outbox;
    assert Examined(outbox, 0, scan) == outbox[..scan];
    NoneKnown(outbox[..scan]);
  }

  /**
   * Whatever the scan: that many damaged rows, a known one behind them, nothing in the bucket yet. The reader answers the
   * empty page that says nothing is left, though the known row is in the window.
   */
  method DamagedRowHidesTheNext(scan: nat, objectsScan: nat, limit: nat, at: int)
    returns (outbox: seq<Row>, q: Query, r: Result<Page, Failure>)
    requires scan >= 1 && objectsScan >= 1 && limit >= 1
    ensures outbox == DamagedThenKnown(scan, at) && q.limit == limit && InWindow(outbox[scan], q)
    ensures r == Ok(Page(q.after, [], None))
    ensures !PageOk({outbox[scan]}, {outbox[scan]}, q, r.value)
  {
    outbox, q := DamagedThenKnown(scan, at), Query(at, at + 1, 0, limit);
    DamagedAnswerNothing(scan, at);
    r := ReadTraceWindow(Some(LocalTrace(outbox, q.after, scan)), [], q, scan, objectsScan, {}, {});
    EmptyPageMisses(outbox[scan], q);
  }

  lemma EmptyPageMisses(r: Row, q: Query)
    requires InWindow(r, q) && r.no > q.after
    ensures !PageOk({r}, {r}, q, Page(q.after, [], None))
  {
    assert r in {r};
  }

  /** The listing holds exactly the bucket's batches. */
  ghost predicate Lists(listing: seq<Batch>, s: Store) {
    && (forall key :: key in s.bucket ==> Batch(key.from, key.to, s.bucket[key].uploaded, Some(s.bucket[key].rows)) in listing)
    && (forall b :: b in listing ==>
          Key(b.from, b.to) in s.bucket && b.body == Some(s.bucket[Key(b.from, b.to)].rows) && b.uploaded == s.bucket[Key(b.from, b.to)].uploaded)
  }

  lemma ListedBatches(s: Store, batches: seq<Batch>)
    requires Inv(s) && Lists(batches, s)
    ensures GoneApart(batches) && forall b :: b in batches ==> BatchOf(b, Known(s.log))
  {
    forall b | b in batches ensures BatchOf(b, Known(s.log)) {
      assert BatchHolds(s, Key(b.from, b.to), s.bucket[Key(b.from, b.to)]);
    }
  }

  lemma ListedRow(s: Store, batches: seq<Batch>, r: Row)
    requires Inv(s) && Lists(batches, s) && InBucket(s, r)
    ensures exists b :: b in batches && Spans(b, r.no)
  {
    var key :| key in s.bucket && r in s.bucket[key].rows;
    assert BatchHolds(s, key, s.bucket[key]);
    var b := Batch(key.from, key.to, s.bucket[key].uploaded, Some(s.bucket[key].rows));
    assert b in batches && Spans(b, r.no);
  }

  lemma CoveredBetween(log: set<Row>, s: Store, between: seq<Step>, batches: seq<Batch>, after: nat, scan: nat)
    requires Inv(s) && IsRun(s, between) && scan >= 1 && log <= s.log
    requires NoneHidden(s.outbox, after, scan) && Lists(batches, After(s, between))
    ensures Covered(Known(log), LocalTrace(s.outbox, after, scan), batches, after, scan)
  {
    RunInv(s, between);
    var local := LocalTrace(s.outbox, after, scan);
    forall r | r in Known(log) && r.no > after
      ensures r in local || BeyondScan(r.no, local, scan) || exists b :: b in batches && Spans(b, r.no)
    {
      ObjectFirstBucketSecond(s, between, r);
      if r !in s.outbox { ListedRow(After(s, between), batches, r); }
    }
  }

  /**
   * What a page is read from: the object as it was in `s`, the bucket as it was listed later, in `s'`. Whatever moved
   * from one to the other in between, every known row logged before (in `s0`) is to be found.
   */
  lemma SourceHolds(s0: Store, before: seq<Step>, between: seq<Step>, batches: seq<Batch>, after: nat, scan: nat)
    requires Inv(s0) && IsRun(s0, before) && IsRun(After(s0, before), between) && scan >= 1
    requires Increasing(After(s0, before).outbox) && NoneHidden(After(s0, before).outbox, after, scan)
    requires Lists(batches, After(After(s0, before), between))
    ensures SourceOf(Known(s0.log), Known(After(After(s0, before), between).log),
                     LocalTrace(After(s0, before).outbox, after, scan), batches, after, scan)
  {
    var s := After(s0, before);
    RunInv(s0, before);
    RunInv(s, between);
    ListedBatches(After(s, between), batches);
    CoveredBetween(s0.log, s, between, batches, after, scan);
  }

  /** What a page answers for: every known row logged before, unless the object's full scan hides some. */
  ghost function AnsweredFor(log: set<Row>, outbox: seq<Row>, after: nat, scan: nat): set<Row>
    requires Increasing(outbox)
  {
    if NoneHidden(outbox, after, scan) then Known(log) else {}
  }

  lemma AnyScan(s0: Store, before: seq<Step>, between: seq<Step>, batches: seq<Batch>, after: nat, scan: nat)
    requires Inv(s0) && IsRun(s0, before) && IsRun(After(s0, before), between) && scan >= 1
    requires Increasing(After(s0, before).outbox) && Lists(batches, After(After(s0, before), between))
    ensures SourceOf(AnsweredFor(s0.log, After(s0, before).outbox, after, scan), Known(After(After(s0, before), between).log),
                     LocalTrace(After(s0, before).outbox, after, scan), batches, after, scan)
  {
    var s := After(s0, before);
    if NoneHidden(s.outbox, after, scan) {
      SourceHolds(s0, before, between, batches, after, scan);
    } else {
      RunInv(s0, before);
      RunInv(s, between);
      ListedBatches(After(s, between), batches);
    }
  }

  /**
   * A page of the live log: the object read in `s`, the bucket listed in `s'`, rows moving between them meanwhile. It is
   * in order whatever is damaged, and complete where the scan hides nothing.
   */
  method ReadLive(s: Store, s': Store, listing: seq<seq<Batch>>, q: Query, localScan: nat, objectsScan: nat,
                  ghost s0: Store, ghost before: seq<Step>, ghost between: seq<Step>) returns (r: Result<Page, Failure>)
    requires q.limit >= 1 && localScan >= 1 && objectsScan >= 1
    requires Inv(s0) && IsRun(s0, before) && s == After(s0, before) && IsRun(s, between) && s' == After(s, between)
    requires Increasing(s.outbox) && Lists(Flat(listing), s')
    ensures r.Ok? <==> |listing| <= TRACE_LIST_PAGES
    ensures r.Ok? ==> PageOk(AnsweredFor(s0.log, s.outbox, q.after, localScan), Known(s'.log), q, r.value)
  {
    AnyScan(s0, before, between, Flat(listing), q.after, localScan);
    RunInv(s0, before);
    RunInv(s, between);
    ListedBatches(s', Flat(listing));
    ghost var told := AnsweredFor(s0.log, s.outbox, q.after, localScan);
    r := ReadTraceWindow(Some(LocalTrace(s.outbox, q.after, localScan)), listing, q, localScan, objectsScan, told, Known(s'.log));
  }

  // ---- the alarm pass

  class TraceObject {
    var s: Store
    ghost var start: Store
    ghost var log: seq<Step>

    ghost predicate Ran()
      reads this
    {
      Inv(start) && IsRun(start, log) && s == After(start, log) && Inv(s)
    }

    constructor (s0: Store)
      requires Init(s0)
      ensures Ran() && s == s0 && start == s0
    {
      s, start, log := s0, s0, [];
      new;
      InitInv(s0);
    }

    method Take(t: Step)
      requires Ran() && Can(s, t)
      modifies this
      ensures Ran() && s == Next(old(s), t) && start == old(start)
    {
      OneMore(start, log, s, t);
      log := log + [t];
      s := Next(s, t);
    }

    /** What an await lets happen: appends and the forward, whatever they are. */
    method Await()
      requires Ran()
      modifies this
      ensures Ran() && start == old(start) && Since(old(s), s)
      ensures s.pass == old(s.pass) && s.activity == old(s.activity) && s.exported == old(s.exported)
      ensures NoneLost(old(s), s)
    {
    }

    /**
     * The activity drain: the cursor moves only once the send has returned, and then past every row the pass read. The
     * export is held at the lower of that and the forward's cursor, as it was when the pass began.
     */
    method FlushActivity(limit: nat, ok: bool)
      requires Ran() && s.pass.Idle?
      modifies this
      ensures Ran() && start == old(start) && Since(old(s), s) && s.pass.Held? && s.exported == old(s.exported)
      ensures NoneLost(old(s), s)
      ensures !ok ==> s.activity == old(s.activity)
      ensures ok ==> s.activity == Most(old(s.activity), LastRead(old(s), limit))
      ensures ok ==> forall r :: r in Examined(old(s.outbox), old(s.activity), limit) ==> r.no <= s.activity
      ensures s.pass.hold == if old(s.forward).None? then s.activity else Least(s.activity, old(s.forward.value))
      ensures s.pass.hold <= s.activity && (s.forward.Some? ==> s.pass.hold <= s.forward.value)
    {
      Take(StartActivity(limit));
      Await();
      Take(SendEnds(ok));
    }

    /** A put under way: it may land though it throws, never return without landing. */
    method EndPut(lands: bool, ok: bool)
      requires Ran() && s.pass.Putting? && (ok ==> lands)
      modifies this
      ensures Ran() && start == old(start) && Since(old(s), s) && s.pass.Idle? && s.activity == old(s.activity)
      ensures !ok ==> s.exported == old(s.exported) && NoneLost(old(s), s)
      ensures ok ==> IsPut(s, old(s.pass.key), old(s.pass.rows)) && s.exported == Most(old(s.pass.through), old(s.exported))
      ensures ok ==> OnlyBelow(old(s), s, Least(s.exported, old(s.pass.hold))) && NoneBelow(s, Least(s.exported, old(s.pass.hold)))
    {
      Await();
      if lands {
        StepSince(s, PutLands);
        Take(PutLands);
      }
      assert NoneLost(old(s), s) && (lands ==> IsPut(s, s.pass.key, s.pass.rows));
      var end := if ok then PutEnds else PutThrows;
      StepSince(s, end);
      Take(end);
    }

    /**
     * The export: put, then cursor, then prune. What was read is in the bucket by the time the cursor is past it, and no
     * row leaves the outbox but below the cursor and the hold; a put that throws moves neither.
     */
    method FlushTrace(limit: nat, lands: bool, ok: bool)
      requires Ran() && s.pass.Held? && (ok ==> lands)
      modifies this
      ensures Ran() && start == old(start) && Since(old(s), s) && s.pass.Idle? && s.activity == old(s.activity)
      ensures !ok && ToPut(old(s), limit) != [] ==> s.exported == old(s.exported) && NoneLost(old(s), s)
      ensures ok || ToPut(old(s), limit) == [] ==>
        s.exported == Through(Examined(old(s.outbox), old(s.exported), limit), old(s.exported))
      ensures ok && ToPut(old(s), limit) != [] ==> IsPut(s, KeyOf(ToPut(old(s), limit)), ToPut(old(s), limit))
      ensures OnlyBelow(old(s), s, Least(s.exported, old(s.pass.hold)))
      ensures ok || ToPut(old(s), limit) == [] ==> NoneBelow(s, Least(s.exported, old(s.pass.hold)))
    {
      StepSince(s, StartExport(limit));
      Take(StartExport(limit));
      if s.pass.Putting? { EndPut(lands, ok); }
    }

    /** The two readers in the order the alarm runs them; a send that throws holds the export at its unmoved cursor. */
    method FlushActivityThenTrace(limit: nat, sendOk: bool, lands: bool, putOk: bool)
      requires Ran() && s.pass.Idle? && (putOk ==> lands)
      modifies this
      ensures Ran() && start == old(start) && s.pass.Idle? && Since(old(s), s)
      ensures s.activity == if sendOk then Most(old(s.activity), LastRead(old(s), limit)) else old(s.activity)
      // What every reader has passed has left the outbox, when nothing threw.
      ensures sendOk && putOk ==> NoneBelow(s, Least(s.exported, if old(s.forward).None? then s.activity else Least(s.activity, old(s.forward.value))))
      // Nothing a reader still needs has left the outbox.
      ensures forall r :: r in s.log && !Passed(s, r) ==> r in s.outbox
    {
      FlushActivity(limit, sendOk);
      FlushTrace(500, lands, putOk);
    }
  }

  /** No row has left the outbox. */
  ghost predicate NoneLost(s: Store, s': Store) {
    forall r :: r in s.outbox ==> r in s'.outbox
  }

  /** None has, but of those up to a seq. */
  ghost predicate OnlyBelow(s: Store, s': Store, through: nat) {
    forall r :: r in s.outbox && r !in s'.outbox ==> r.no <= through
  }

  /** No row is left up to a seq. */
  ghost predicate NoneBelow(s: Store, through: nat) {
    forall r :: r in s.outbox ==> r.no > through
  }

  /** The last seq an activity pass reads, or its cursor. */
  function LastRead(s: Store, limit: nat): nat
    requires Increasing(s.outbox)
  {
    var rows := Examined(s.outbox, s.activity, limit);
    if rows == [] then s.activity else rows[|rows| - 1].no
  }

  /** The rows are in the bucket, under their key. */
  ghost predicate IsPut(s: Store, key: Key, rows: seq<Row>) {
    key in s.bucket && forall r :: r in rows ==> r in s.bucket[key].rows
  }

  /** What an export puts: the known rows of those it reads. */
  function ToPut(s: Store, limit: nat): seq<Row>
    requires Increasing(s.outbox)
  {
    KnownOnly(Examined(s.outbox, s.exported, limit))
  }

  function KeyOf(rows: seq<Row>): Key
    requires rows != []
  {
    Key(rows[0].no, rows[|rows| - 1].no)
  }

  function Most(a: nat, b: nat): nat {
    if a > b then a else b
  }

  lemma OneMore(start: Store, log: seq<Step>, s: Store, t: Step)
    requires Inv(start) && IsRun(start, log) && s == After(start, log) && Inv(s) && Can(s, t)
    ensures IsRun(start, log + [t]) && Next(s, t) == After(start, log + [t]) && Inv(Next(s, t))
  {
    RunThen(start, log, [t]);
    StepInv(s, t);
  }

  lemma {:induction false} RunThen(s: Store, steps: seq<Step>, more: seq<Step>)
    requires IsRun(s, steps) && IsRun(After(s, steps), more)
    ensures IsRun(s, steps + more) && After(s, steps + more) == After(After(s, steps), more)
    decreases |steps|
  {
    if steps == [] {
      assert steps + more == more;
    } else {
      assert (steps + more)[1..] == steps[1..] + more;
      RunThen(Next(s, steps[0]), steps[1..], more);
    }
  }
}
