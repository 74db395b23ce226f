// Following the cursor while the log grows and its rows move to the bucket: every page is read from two points of one run.
module TraceFollow {
  import opened Wrappers
  import opened TraceWindow
  import opened TraceLog
  import opened TraceExport

  /** What happens to the log between two reads is not the reader's to choose. */
  method Meanwhile(s: Store) returns (s': Store, ghost steps: seq<Step>)
    requires Inv(s)
    ensures IsRun(s, steps) && s' == After(s, steps) && Inv(s')
  {
    s', steps := s, [];
  }

  function Listed(s: Store, key: Key): Batch
    requires key in s.bucket
  {
    Batch(key.from, key.to, s.bucket[key].uploaded, Some(s.bucket[key].rows))
  }

  /** The bucket's batches, as they come. */
  method Objects(s: Store) returns (objects: seq<Batch>)
    ensures Lists(objects, s)
  {
    objects := [];
    ghost var done: set<Key> := {};
    var todo := s.bucket.Keys;
    while todo != {}
      invariant done + todo == s.bucket.Keys && ListsOnly(objects, s, done)
      decreases |todo|
    {
      var key :| key in todo;
      ListsOneMore(objects, s, done, key);
      objects := objects + [Listed(s, key)];
      todo, done := todo - {key}, done + {key};
    }
  }

  lemma FlatMore(listing: seq<seq<Batch>>, page: seq<Batch>)
    ensures Flat(listing + [page]) == Flat(listing) + page
  {
    var all := listing + [page];
    FlatStep(all, |listing|);
    assert all[..|listing|] == listing && all[..|listing| + 1] == all;
  }

  /** The bucket's answer, page by page. */
  method ListBucket(s: Store, pageSize: nat) returns (listing: seq<seq<Batch>>)
    requires pageSize >= 1
    ensures Lists(Flat(listing), s)
  {
    var objects := Objects(s);
    listing := [];
    var i := 0;
    while i < |objects|
      invariant i <= |objects| && Flat(listing) == objects[..i]
    {
      var j := if i + pageSize < |objects| then i + pageSize else |objects|;
      FlatMore(listing, objects[i..j]);
      assert objects[..j] == objects[..i] + objects[i..j];
      listing, i := listing + [objects[i..j]], j;
    }
    assert objects[..i] == objects;
  }

  /** The listing holds exactly the batches of these keys. */
  ghost predicate ListsOnly(listing: seq<Batch>, s: Store, keys: set<Key>) {
    && keys <= s.bucket.Keys
    && (forall key :: key in keys ==> Listed(s, key) in listing)
    && (forall b :: b in listing ==>
          Key(b.from, b.to) in s.bucket && b.body == Some(s.bucket[Key(b.from, b.to)].rows) && b.uploaded == s.bucket[Key(b.from, b.to)].uploaded)
  }

  lemma ListsOneMore(listing: seq<Batch>, s: Store, keys: set<Key>, key: Key)
    requires ListsOnly(listing, s, keys) && key in s.bucket
    ensures ListsOnly(listing + [Listed(s, key)], s, keys + {key})
  {
  }

  // ---- what was read

  /**
   * One page read: the object answered at one point of the run, the bucket was listed at a later one, and the page (none
   * when the listing is too long).
   */
  datatype Reading = Reading(asked: nat, answering: Store, told: nat, listed: Store, cursor: nat, listing: seq<seq<Batch>>, page: Option<Page>)

  /** The store as it is after the first `n` steps. */
  ghost predicate Point(s0: Store, steps: seq<Step>, n: nat, s: Store) {
    n <= |steps| && IsRun(s0, steps[..n]) && s == After(s0, steps[..n])
  }

  ghost predicate ReadingOk(s0: Store, steps: seq<Step>, q: Query, localScan: nat, r: Reading) {
    && r.asked <= r.told && Point(s0, steps, r.asked, r.answering) && Point(s0, steps, r.told, r.listed)
    && Increasing(r.answering.outbox) && Lists(Flat(r.listing), r.listed)
    && (r.page.Some? <==> |r.listing| <= TRACE_LIST_PAGES)
    && (r.page.Some? ==>
          PageOk(AnsweredFor(s0.log, r.answering.outbox, r.cursor, localScan), Known(r.listed.log), q.(after := r.cursor), r.page.value))
  }

  /** Where the readings leave the cursor: none at the end of the walk, where it was when a listing is too long. */
  function NextOf(seen: seq<Reading>, start: nat): Option<nat> {
    if seen == [] then Some(start)
    else
      var last := seen[|seen| - 1];
      if last.page.Some? then last.page.value.next else Some(last.cursor)
  }

  function RowsOf(seen: seq<Reading>): seq<Row> {
    if seen == [] then []
    else
      var last := seen[|seen| - 1];
      RowsOf(seen[..|seen| - 1]) + if last.page.Some? then last.page.value.rows else []
  }

  predicate AllPaged(seen: seq<Reading>) {
    forall i :: 0 <= i < |seen| ==> seen[i].page.Some?
  }

  /** Each reading begins where, and no earlier than, the one before it ended. */
  predicate Chained(seen: seq<Reading>, start: nat) {
    seen == []
    || (var n := |seen| - 1;
        Chained(seen[..n], start) && AllPaged(seen[..n]) && NextOf(seen[..n], start) == Some(seen[n].cursor)
        && (n > 0 ==> seen[n - 1].told <= seen[n].asked))
  }

  ghost predicate AllOk(s0: Store, steps: seq<Step>, q: Query, localScan: nat, seen: seq<Reading>) {
    forall i :: 0 <= i < |seen| ==> ReadingOk(s0, steps, q, localScan, seen[i])
  }

  ghost predicate Walked(s0: Store, steps: seq<Step>, q: Query, localScan: nat, seen: seq<Reading>) {
    IsRun(s0, steps) && AllOk(s0, steps, q, localScan, seen) && Chained(seen, q.after)
  }

  /** No reading's scan hides a row. */
  ghost predicate NoneHid(seen: seq<Reading>, localScan: nat) {
    forall i :: 0 <= i < |seen| ==> Increasing(seen[i].answering.outbox) && NoneHidden(seen[i].answering.outbox, seen[i].cursor, localScan)
  }

  // ---- what the readings come to

  /** The rows followed so far: in order, of the window, between the start and the cursor. */
  ghost predicate Followed(rows: seq<Row>, log: set<Row>, q: Query, start: nat, cursor: nat) {
    Increasing(rows) && forall r :: r in rows ==> r in log && InWindow(r, q) && start < r.no <= cursor
  }

  /** Every row of `before` in the window, up to the cursor if there is one, is among them. */
  ghost predicate HasAll(rows: seq<Row>, before: set<Row>, q: Query, start: nat, cursor: Option<nat>) {
    forall r :: r in before && InWindow(r, q) && start < r.no && (cursor.Some? ==> r.no <= cursor.value) ==> r in rows
  }

  lemma PageFollows(rows: seq<Row>, before: set<Row>, log: set<Row>, q: Query, start: nat, cursor: nat, p: Page)
    requires Followed(rows, log, q, start, cursor) && start <= cursor
    requires PageOk(before, log, q.(after := cursor), p)
    ensures Increasing(rows + p.rows) && forall r :: r in rows + p.rows ==> r in log && InWindow(r, q) && start < r.no
    ensures p.next.Some? ==> Followed(rows + p.rows, log, q, start, p.next.value)
    ensures HasAll(rows, before, q, start, Some(cursor)) ==> HasAll(rows + p.rows, before, q, start, p.next)
  {
    var all := rows + p.rows;
    forall r | r in p.rows ensures InWindow(r, q) {
      assert InWindow(r, q.(after := cursor));
    }
    forall i, j | 0 <= i < j < |all| ensures all[i].no < all[j].no {
      if i < |rows| <= j { assert rows[i] in rows && p.rows[j - |rows|] in p.rows; }
    }
    if HasAll(rows, before, q, start, Some(cursor)) {
      forall r | r in before && InWindow(r, q) && start < r.no && (p.next.Some? ==> r.no <= p.next.value) ensures r in all {
        assert InWindow(r, q.(after := cursor));
      }
    }
  }

  lemma {:induction false} RunPrefix(s: Store, steps: seq<Step>, n: nat)
    requires IsRun(s, steps) && n <= |steps|
    ensures IsRun(s, steps[..n]) && IsRun(After(s, steps[..n]), steps[n..])
    ensures After(After(s, steps[..n]), steps[n..]) == After(s, steps)
    decreases |steps|
  {
    if n > 0 {
      RunPrefix(Next(s, steps[0]), steps[1..], n - 1);
      assert steps[..n][1..] == steps[1..][..n - 1] && steps[n..] == steps[1..][n - 1..];
    } else {
      assert steps[0..] == steps;
    }
  }

  /** What was logged at a point of the run is logged at its end. */
  lemma LoggedStays(s0: Store, steps: seq<Step>, n: nat, s: Store)
    requires Inv(s0) && IsRun(s0, steps) && Point(s0, steps, n, s)
    ensures Known(s.log) <= Known(After(s0, steps).log)
  {
    RunPrefix(s0, steps, n);
    RunInv(s0, steps[..n]);
    RunInv(s, steps[n..]);
  }

  /** What the rows of readings are, with the cursor where they leave it. */
  ghost predicate RowsOk(s0: Store, log: set<Row>, q: Query, localScan: nat, rows: seq<Row>, next: Option<nat>, told: bool) {
    && Increasing(rows) && (forall r :: r in rows ==> r in log && InWindow(r, q) && q.after < r.no)
    && (next.Some? ==> q.after <= next.value && Followed(rows, log, q, q.after, next.value))
    && (told ==> HasAll(rows, Known(s0.log), q, q.after, next))
  }

  lemma PageMore(before: set<Row>, log: set<Row>, more: set<Row>, q: Query, p: Page)
    requires PageOk(before, log, q, p) && log <= more
    ensures PageOk(before, more, q, p)
  {
  }

  lemma OnePageMore(s0: Store, log: set<Row>, q: Query, localScan: nat, rows: seq<Row>, told: bool, r: Reading)
    requires RowsOk(s0, log, q, localScan, rows, Some(r.cursor), told) && r.page.Some? && Increasing(r.answering.outbox)
    requires PageOk(AnsweredFor(s0.log, r.answering.outbox, r.cursor, localScan), log, q.(after := r.cursor), r.page.value)
    ensures RowsOk(s0, log, q, localScan, rows + r.page.value.rows, r.page.value.next,
                   told && NoneHidden(r.answering.outbox, r.cursor, localScan))
  {
    PageFollows(rows, AnsweredFor(s0.log, r.answering.outbox, r.cursor, localScan), log, q, q.after, r.cursor, r.page.value);
  }

  lemma LastReading(s0: Store, steps: seq<Step>, q: Query, localScan: nat, seen: seq<Reading>)
    requires Walked(s0, steps, q, localScan, seen) && seen != []
    ensures var n := |seen| - 1;
            && Walked(s0, steps, q, localScan, seen[..n]) && AllPaged(seen[..n]) && ReadingOk(s0, steps, q, localScan, seen[n])
            && NextOf(seen[..n], q.after) == Some(seen[n].cursor)
            && (NoneHid(seen, localScan) ==> NoneHid(seen[..n], localScan) && NoneHidden(seen[n].answering.outbox, seen[n].cursor, localScan))
  {
  }

  lemma NoRowsOk(s0: Store, log: set<Row>, q: Query, localScan: nat, told: bool)
    ensures RowsOk(s0, log, q, localScan, [], Some(q.after), told)
  {
  }

  /** What is told of fewer rows is told where less is promised. */
  lemma RowsOkUnless(s0: Store, log: set<Row>, q: Query, localScan: nat, rows: seq<Row>, next: Option<nat>, told: bool, less: bool)
    requires RowsOk(s0, log, q, localScan, rows, next, told) && (less ==> told)
    ensures RowsOk(s0, log, q, localScan, rows, next, less)
  {
  }

  /**
   * Of any readings so chained: the rows come in order, none twice, all of the window and of the log; and up to the cursor,
   * or in all at the end, they hold every known row of the window logged before the first, if no scan hid any.
   */
  lemma {:induction false} WalkedRows(s0: Store, steps: seq<Step>, q: Query, localScan: nat, seen: seq<Reading>)
    requires Inv(s0) && Walked(s0, steps, q, localScan, seen)
    ensures RowsOk(s0, Known(After(s0, steps).log), q, localScan, RowsOf(seen), NextOf(seen, q.after), NoneHid(seen, localScan))
    decreases |seen|
  {
    var log := Known(After(s0, steps).log);
    if seen == [] {
      NoRowsOk(s0, log, q, localScan, NoneHid(seen, localScan));
    } else {
      var before, r := seen[..|seen| - 1], seen[|seen| - 1];
      LastReading(s0, steps, q, localScan, seen);
      WalkedRows(s0, steps, q, localScan, before);
      if r.page.Some? {
        PageReached(s0, steps, q, localScan, RowsOf(before), NoneHid(before, localScan), r);
        RowsOkUnless(s0, log, q, localScan, RowsOf(seen), NextOf(seen, q.after),
                     NoneHid(before, localScan) && NoneHidden(r.answering.outbox, r.cursor, localScan), NoneHid(seen, localScan));
      } else {
        assert RowsOf(seen) == RowsOf(before);
        RowsOkUnless(s0, log, q, localScan, RowsOf(seen), NextOf(seen, q.after), NoneHid(before, localScan), NoneHid(seen, localScan));
      }
    }
  }

  /** Every page moves the cursor on. */
  lemma {:induction false} WalkedMoves(s0: Store, steps: seq<Step>, q: Query, localScan: nat, seen: seq<Reading>)
    requires Walked(s0, steps, q, localScan, seen) && AllPaged(seen) && NextOf(seen, q.after).Some?
    ensures NextOf(seen, q.after).value >= q.after + |seen|
    decreases |seen|
  {
    if seen != [] {
      LastReading(s0, steps, q, localScan, seen);
      WalkedMoves(s0, steps, q, localScan, seen[..|seen| - 1]);
    }
  }

  lemma PageReached(s0: Store, steps: seq<Step>, q: Query, localScan: nat, rows: seq<Row>, told: bool, r: Reading)
    requires Inv(s0) && IsRun(s0, steps) && ReadingOk(s0, steps, q, localScan, r) && r.page.Some?
    requires RowsOk(s0, Known(After(s0, steps).log), q, localScan, rows, Some(r.cursor), told)
    ensures RowsOk(s0, Known(After(s0, steps).log), q, localScan, rows + r.page.value.rows, r.page.value.next,
                   told && NoneHidden(r.answering.outbox, r.cursor, localScan))
  {
    var log := Known(After(s0, steps).log);
    LoggedStays(s0, steps, r.told, r.listed);
    PageMore(AnsweredFor(s0.log, r.answering.outbox, r.cursor, localScan), Known(r.listed.log), log, q.(after := r.cursor), r.page.value);
    OnePageMore(s0, log, q, localScan, rows, told, r);
  }

  lemma PointStays(s0: Store, steps: seq<Step>, more: seq<Step>, n: nat, s: Store)
    requires Point(s0, steps, n, s)
    ensures Point(s0, steps + more, n, s)
  {
    assert (steps + more)[..n] == steps[..n];
  }

  lemma OkStays(s0: Store, steps: seq<Step>, more: seq<Step>, q: Query, localScan: nat, seen: seq<Reading>)
    requires AllOk(s0, steps, q, localScan, seen)
    ensures AllOk(s0, steps + more, q, localScan, seen)
  {
    forall i | 0 <= i < |seen| ensures ReadingOk(s0, steps + more, q, localScan, seen[i]) {
      assert ReadingOk(s0, steps, q, localScan, seen[i]);
      PointStays(s0, steps, more, seen[i].asked, seen[i].answering);
      PointStays(s0, steps, more, seen[i].told, seen[i].listed);
    }
  }

  lemma OneMoreReading(s0: Store, steps: seq<Step>, more: seq<Step>, q: Query, localScan: nat, seen: seq<Reading>, r: Reading)
    requires Walked(s0, steps, q, localScan, seen) && IsRun(s0, steps + more) && ReadingOk(s0, steps + more, q, localScan, r)
    requires AllPaged(seen) && NextOf(seen, q.after) == Some(r.cursor) && r.asked >= |steps|
    ensures Walked(s0, steps + more, q, localScan, seen + [r])
  {
    OkStays(s0, steps, more, q, localScan, seen);
    var all := seen + [r];
    assert all[..|seen|] == seen;
    if seen != [] { assert ReadingOk(s0, steps, q, localScan, seen[|seen| - 1]); }
  }

  // ---- following

  /** One page read among whatever happens to the log before the object answers and before the bucket is listed. */
  method ReadOne(s: Store, q: Query, cursor: nat, localScan: nat, objectsScan: nat, listPage: nat, ghost s0: Store, ghost ran: seq<Step>)
    returns (s': Store, page: Option<Page>, ghost more: seq<Step>, ghost r: Reading)
    requires Inv(s0) && IsRun(s0, ran) && s == After(s0, ran) && Inv(s)
    requires q.limit >= 1 && localScan >= 1 && objectsScan >= 1 && listPage >= 1
    ensures IsRun(s0, ran + more) && s' == After(s0, ran + more) && Inv(s')
    ensures ReadingOk(s0, ran + more, q, localScan, r) && r.asked >= |ran| && r.cursor == cursor && r.page == page
  {
    var answering, before := Meanwhile(s);
    RunThen(s0, ran, before);
    var listed, between := Meanwhile(answering);
    var listing := ListBucket(listed, listPage);
    var p := ReadLive(answering, listed, listing, q.(after := cursor), localScan, objectsScan, s0, ran + before, between);
    page := if p.Ok? then Some(p.value) else None;
    s', more := listed, before + between;
    r := ReadingMade(s0, ran, before, between, answering, listed, q, cursor, localScan, listing, page);
  }

  lemma ReadingMade(s0: Store, ran: seq<Step>, before: seq<Step>, between: seq<Step>, answering: Store, listed: Store, q: Query,
                    cursor: nat, localScan: nat, listing: seq<seq<Batch>>, page: Option<Page>) returns (r: Reading)
    requires IsRun(s0, ran + before) && answering == After(s0, ran + before) && IsRun(answering, between) && listed == After(answering, between)
    requires Increasing(answering.outbox) && Lists(Flat(listing), listed) && (page.Some? <==> |listing| <= TRACE_LIST_PAGES)
    requires page.Some? ==>
               PageOk(AnsweredFor(s0.log, answering.outbox, cursor, localScan), Known(listed.log), q.(after := cursor), page.value)
    ensures IsRun(s0, ran + (before + between)) && listed == After(s0, ran + (before + between))
    ensures ReadingOk(s0, ran + (before + between), q, localScan, r) && r.asked >= |ran| && r.cursor == cursor && r.page == page
    ensures r.listing == listing
  {
    RunThen(s0, ran + before, between);
    PointsOf(s0, ran + before, between, answering, listed);
    assert ran + before + between == ran + (before + between);
    r := Reading(|ran + before|, answering, |ran + before + between|, listed, cursor, listing, page);
  }

  lemma PointsOf(s0: Store, ran: seq<Step>, more: seq<Step>, s: Store, s': Store)
    requires IsRun(s0, ran) && s == After(s0, ran) && IsRun(s0, ran + more) && s' == After(s0, ran + more)
    ensures Point(s0, ran + more, |ran|, s) && Point(s0, ran + more, |ran + more|, s')
  {
    assert (ran + more)[..|ran|] == ran && (ran + more)[..|ran + more|] == ran + more;
  }

  /**
   * Follows the cursor while the log grows, for `most` pages at the most. What it answers is what its readings come to,
   * at points of one run from `s0`: it stops early only at the end, or when a listing is too long.
   */
  method FollowLive(s0: Store, q: Query, localScan: nat, objectsScan: nat, most: nat, listPage: nat)
    returns (rows: seq<Row>, next: Option<nat>, failed: bool, ghost steps: seq<Step>, ghost seen: seq<Reading>)
    requires Inv(s0) && q.limit >= 1 && localScan >= 1 && objectsScan >= 1 && listPage >= 1
    ensures Walked(s0, steps, q, localScan, seen) && rows == RowsOf(seen) && next == NextOf(seen, q.after)
    ensures |seen| <= most && (|seen| < most ==> failed || next.None?)
    ensures failed <==> seen != [] && |seen[|seen| - 1].listing| > TRACE_LIST_PAGES
    // So the rows are as they are to be.
    ensures RowsOk(s0, Known(After(s0, steps).log), q, localScan, rows, next, NoneHid(seen, localScan))
    ensures !failed && next.Some? ==> next.value >= q.after + most
  {
    rows, next, failed, steps, seen := [], Some(q.after), false, [], [];
    var s := s0;
    var page := 0;
    while page < most && next.Some? && !failed
      invariant Following(s0, s, q, localScan, rows, next, steps, seen)
      invariant |seen| == page <= most && if failed then Failed(seen) else AllPaged(seen)
    {
      s, rows, next, failed, steps, seen := Follow(s, s0, q, rows, next.value, localScan, objectsScan, listPage, steps, seen);
      page := page + 1;
    }
    Ends(s0, s, q, localScan, rows, next, steps, seen);
  }

  /** The last listing was too long. */
  predicate Failed(seen: seq<Reading>) {
    seen != [] && seen[|seen| - 1].page.None?
  }

  /** Where a walk is: at a point of its run, with what its readings come to. */
  ghost predicate Following(s0: Store, s: Store, q: Query, localScan: nat, rows: seq<Row>, next: Option<nat>, steps: seq<Step>, seen: seq<Reading>) {
    Walked(s0, steps, q, localScan, seen) && s == After(s0, steps) && Inv(s) && rows == RowsOf(seen) && next == NextOf(seen, q.after)
  }

  lemma Ends(s0: Store, s: Store, q: Query, localScan: nat, rows: seq<Row>, next: Option<nat>, steps: seq<Step>, seen: seq<Reading>)
    requires Inv(s0) && Following(s0, s, q, localScan, rows, next, steps, seen)
    ensures RowsOk(s0, Known(After(s0, steps).log), q, localScan, rows, next, NoneHid(seen, localScan))
    ensures AllPaged(seen) && next.Some? ==> next.value >= q.after + |seen|
    ensures seen != [] ==> (seen[|seen| - 1].page.None? <==> |seen[|seen| - 1].listing| > TRACE_LIST_PAGES)
  {
    WalkedRows(s0, steps, q, localScan, seen);
    if AllPaged(seen) && next.Some? { WalkedMoves(s0, steps, q, localScan, seen); }
    if seen != [] { LastReading(s0, steps, q, localScan, seen); }
  }

  lemma OneMoreRows(seen: seq<Reading>, r: Reading, start: nat)
    ensures RowsOf(seen + [r]) == RowsOf(seen) + if r.page.Some? then r.page.value.rows else []
    ensures r.page.None? ==> RowsOf(seen + [r]) == RowsOf(seen)
    ensures NextOf(seen + [r], start) == if r.page.Some? then r.page.value.next else Some(r.cursor)
    ensures AllPaged(seen) ==> if r.page.Some? then AllPaged(seen + [r]) else Failed(seen + [r])
  {
    assert (seen + [r])[..|seen|] == seen;
  }

  lemma OnePage(s0: Store, s: Store, s': Store, q: Query, localScan: nat, rows: seq<Row>, cursor: nat, steps: seq<Step>, seen: seq<Reading>,
                  more: seq<Step>, r: Reading)
    requires Following(s0, s, q, localScan, rows, Some(cursor), steps, seen) && AllPaged(seen)
    requires IsRun(s0, steps + more) && s' == After(s0, steps + more) && Inv(s')
    requires ReadingOk(s0, steps + more, q, localScan, r) && r.asked >= |steps| && r.cursor == cursor
    ensures r.page.Some? ==> Following(s0, s', q, localScan, rows + r.page.value.rows, r.page.value.next, steps + more, seen + [r])
    ensures r.page.None? ==> Following(s0, s', q, localScan, rows, Some(cursor), steps + more, seen + [r])
    ensures if r.page.Some? then AllPaged(seen + [r]) else Failed(seen + [r])
  {
    OneMoreReading(s0, steps, more, q, localScan, seen, r);
    OneMoreRows(seen, r, q.after);
  }

  /** One page more. */
  method Follow(s: Store, ghost s0: Store, q: Query, rows: seq<Row>, cursor: nat, localScan: nat, objectsScan: nat, listPage: nat,
                ghost steps: seq<Step>, ghost seen: seq<Reading>)
    returns (s': Store, rows': seq<Row>, next: Option<nat>, failed: bool, ghost steps': seq<Step>, ghost seen': seq<Reading>)
    requires Inv(s0) && q.limit >= 1 && localScan >= 1 && objectsScan >= 1 && listPage >= 1
    requires Following(s0, s, q, localScan, rows, Some(cursor), steps, seen) && AllPaged(seen)
    ensures Following(s0, s', q, localScan, rows', next, steps', seen') && |seen'| == |seen| + 1
    ensures if failed then Failed(seen') else AllPaged(seen')
  {
    ghost var more, r;
    var page;
    s', page, more, r := ReadOne(s, q, cursor, localScan, objectsScan, listPage, s0, steps);
    OnePage(s0, s, s', q, localScan, rows, cursor, steps, seen, more, r);
    steps', seen', failed := steps + more, seen + [r], page.None?;
    if failed { return s', rows, Some(cursor), true, steps', seen'; }
    rows', next := rows + page.value.rows, page.value.next;
  }
}
