/** Main conversations over any run of writes, fresh contexts, rebuilds and erasures. */
module MainTheorems {
  import opened Wrappers
  import opened MainTables
  import opened MainArchive

  // ----- Every run keeps the invariant -----

  lemma CurrentFits(db: Db)
    requires Current(db.lines) <= MAX_LINES
    ensures Fits(Current(db.lines))
  {
    SafeIntegersFit(Current(db.lines));
  }

  lemma WriteKeeps(db: Db, kind: Kind, row: string)
    requires Inv(db)
    ensures Inv(Next(db, Write(kind, row)))
  {
    var after := Next(db, Write(kind, row));
    forall n, k ensures TableOk(after.tables, after.lines, n, k) {
      assert TableOk(db.tables, db.lines, n, k);
      if Fits(n) { NotMains(n, k); }
    }
  }

  lemma NotMains(n: nat, k: Kind)
    requires Fits(n)
    ensures Table(Archived(IdOf(n)), k) !in Names(MAIN)
  {
    forall l ensures Table(Archived(IdOf(n)), k) != Table(MAIN, l) {
      MainApart(n, k, l);
    }
  }

  lemma BeginInv(db: Db, now: int, cause: Cause)
    requires Inv(db) && Fits(Current(db.lines))
    ensures Inv(Next(db, Begin(now, cause)))
  {
    FreshKeeps(db, now, cause);
  }

  lemma BeginCounts(db: Db, now: int, cause: Cause)
    requires Inv(db) && Fits(Current(db.lines))
    ensures Current(Next(db, Begin(now, cause)).lines) == Current(db.lines) + 1
  {
    FreshIs(db, now, cause);
    FreshLinesAre(db.lines, now, cause);
  }

  lemma ErasedCounts(db: Db, now: int)
    requires Inv(db) && Fits(Current(db.lines))
    ensures Erased(db, now).Some? && Current(Erased(db, now).value.lines) == Current(db.lines) + 1
  {
    ErasedIs(db, now);
    FreshLinesAre(db.lines, now, FreshContext);
  }

  /** Where there is nothing to erase nothing changes, and otherwise the erasure goes through. */
  lemma EraseIs(db: Db, now: int, after: Option<Db>)
    requires after == Erased(db, now) && after.Some?
    ensures Next(db, Erase(now)) == if Holds(db) then after.value else db
  {
  }

  lemma StepInv(db: Db, op: Op)
    requires Inv(db) && Current(db.lines) <= MAX_LINES
    ensures Inv(Next(db, op)) && Current(Next(db, op).lines) <= Current(db.lines) + 1
  {
    CurrentFits(db);
    match op
    case Write(kind, row) => WriteKeeps(db, kind, row);
    case File(_) =>
    case Begin(now, cause) =>
      BeginInv(db, now, cause);
      BeginCounts(db, now, cause);
    case Erase(now) =>
      EraseKeeps(db, now);
      ErasedCounts(db, now);
      EraseIs(db, now, Erased(db, now));
  }

  lemma {:induction false} RunInv(db: Db, ops: seq<Op>)
    requires Inv(db) && Current(db.lines) + |ops| <= MAX_LINES
    ensures Inv(After(db, ops))
    decreases |ops|
  {
    if ops != [] {
      StepInv(db, ops[0]);
      RunInv(Next(db, ops[0]), ops[1..]);
    }
  }

  /** An object that has never begun afresh and holds no archive's tables. */
  lemma FirstInv(db: Db)
    requires db.lines == [] && forall n, k :: Fits(n) ==> Table(Archived(IdOf(n)), k) !in db.tables
    ensures Inv(db)
  {
    forall n, k ensures TableOk(db.tables, db.lines, n, k) {
    }
  }

  predicate ShareAName(a: Line, b: Line) {
    a.id == b.id || (a.archivedAs.Some? && a.archivedAs == b.archivedAs)
  }

  /** In every reachable state one conversation is current, every other has ended, and no two share an id or an archive. */
  lemma OneIsCurrent(db: Db, ops: seq<Op>, i: nat, j: nat)
    requires Inv(db) && Current(db.lines) + |ops| <= MAX_LINES
    ensures var lines := After(db, ops).lines;
            && CurrentId(lines) == IdOf(Current(lines))
            && (i < |lines| ==> (lines[i].ended.None? <==> i == Current(lines)))
            && (i < |lines| && j < |lines| && ShareAName(lines[i], lines[j]) ==> i == j)
  {
    RunInv(db, ops);
    var lines := After(db, ops).lines;
    CurrentIs(lines);
    if i < |lines| && j < |lines| {
      assert LineOk(lines[i], i, i == |lines| - 1) && LineOk(lines[j], j, j == |lines| - 1);
      if lines[i].id == lines[j].id { IdsApart(i, j); }
      if lines[i].archivedAs.Some? && lines[i].archivedAs == lines[j].archivedAs {
        SameSuffix("archived:", lines[i].id, lines[j].id);
        IdsApart(i, j);
      }
    }
  }

  /** So it is from a new object on, whatever conversations it is then given. */
  lemma OneIsCurrentFromTheFirst(db: Db, ops: seq<Op>, i: nat, j: nat)
    requires db.lines == [] && forall n, k :: Fits(n) ==> Table(Archived(IdOf(n)), k) !in db.tables
    requires Current(db.lines) + |ops| <= MAX_LINES
    ensures var lines := After(db, ops).lines;
            && CurrentId(lines) == IdOf(Current(lines))
            && (i < |lines| ==> (lines[i].ended.None? <==> i == Current(lines)))
            && (i < |lines| && j < |lines| && ShareAName(lines[i], lines[j]) ==> i == j)
  {
    FirstInv(db);
    OneIsCurrent(db, ops, i, j);
  }

  /** And a text is read as a conversation, after any run from a new object, exactly when it is the current or an archived one. */
  lemma ReadExactlyWhen(db: Db, ops: seq<Op>, id: string)
    requires db.lines == [] && forall n, k :: Fits(n) ==> Table(Archived(IdOf(n)), k) !in db.tables
    requires Current(db.lines) + |ops| <= MAX_LINES
    ensures var lines := After(db, ops).lines;
            Physical(lines, id).Some? <==>
              id == CurrentId(lines) || exists n :: 0 <= n < |lines| && lines[n].id == id && lines[n].archivedAs.Some?
  {
    FirstInv(db);
    RunInv(db, ops);
    var lines := After(db, ops).lines;
    if n: nat :| n < |lines| && lines[n].id == id {
      PhysicalIs(lines, n);
      forall m | 0 <= m < |lines| && lines[m].id == id ensures m == n { if m != n { LinesApart(lines, m, n); } }
      assert Physical(lines, id).Some? <==> n == Current(lines) || lines[n].archivedAs.Some?;
      CurrentIs(lines);
    } else if id != CurrentId(lines) {
      OthersAreNowhere(lines, id);
    }
  }

  // ----- An archive stays as it was made -----

  /** The line and the tables of one archived conversation. */
  ghost predicate SameArchive(a: Db, b: Db, n: nat) {
    && IsArchived(a.lines, n) && n < |b.lines| && b.lines[n] == a.lines[n]
    && forall k :: Content(b.tables, Archived(IdOf(n)), k) == Content(a.tables, Archived(IdOf(n)), k)
  }

  lemma ElsewhereSame(a: Tables, b: Tables, n: nat, m: nat)
    requires Fits(n) && Fits(m) && n != m
    requires forall t :: t !in Names(MAIN) && t !in Names(Archived(IdOf(n))) ==> (t in b <==> t in a) && (t in a ==> b[t] == a[t])
    ensures forall k :: Content(b, Archived(IdOf(m)), k) == Content(a, Archived(IdOf(m)), k)
  {
    forall k ensures Content(b, Archived(IdOf(m)), k) == Content(a, Archived(IdOf(m)), k) {
      OtherArchive(n, m, k);
    }
  }

  lemma ArchivedIsEnded(db: Db, n: nat)
    requires Inv(db) && IsArchived(db.lines, n) && Current(db.lines) <= MAX_LINES
    ensures n < Current(db.lines) && Fits(n)
  {
    assert LineOk(db.lines[n], n, n == |db.lines| - 1);
    SafeIntegersFit(n);
  }

  lemma StepKeepsArchive(db: Db, op: Op, n: nat)
    requires Inv(db) && Current(db.lines) <= MAX_LINES && IsArchived(db.lines, n)
    ensures SameArchive(db, Next(db, op), n)
  {
    CurrentFits(db);
    ArchivedIsEnded(db, n);
    match op
    case Write(kind, row) =>
      forall k ensures Content(Next(db, op).tables, Archived(IdOf(n)), k) == Content(db.tables, Archived(IdOf(n)), k) {
        NotMains(n, k);
      }
    case File(_) =>
    case Begin(now, cause) =>
      FreshIs(db, now, cause);
      FreshLinesAre(db.lines, now, cause);
      ElsewhereSame(db.tables, Next(db, op).tables, Current(db.lines), n);
    case Erase(now) =>
      if Holds(db) {
        ErasedIs(db, now);
        FreshLinesAre(db.lines, now, FreshContext);
        UnarchivedIs(FreshLines(db.lines, now, FreshContext), Current(db.lines));
        ElsewhereSame(db.tables, Next(db, op).tables, Current(db.lines), n);
      }
  }

  /** An archived conversation is archived as it was, whatever comes after. */
  lemma {:induction false} ArchivesStay(db: Db, ops: seq<Op>, n: nat)
    requires Inv(db) && Current(db.lines) + |ops| <= MAX_LINES && IsArchived(db.lines, n)
    ensures SameArchive(db, After(db, ops), n)
    decreases |ops|
  {
    if ops != [] {
      StepInv(db, ops[0]);
      StepKeepsArchive(db, ops[0], n);
      ArchivesStay(Next(db, ops[0]), ops[1..], n);
    }
  }

  // ----- Reading back -----

  lemma {:induction false} ArchiveOfIs(lines: seq<Line>, at: nat)
    requires at < |lines| && forall i :: 0 <= i < |lines| && i != at ==> lines[i].id != lines[at].id
    ensures ArchiveOf(lines, lines[at].id) == lines[at].archivedAs
  {
    if at == 0 {
      NotThere(lines[1..], lines[0].id);
    } else {
      assert lines[0].id != lines[at].id;
      forall i | 0 <= i < |lines[1..]| && i != at - 1 ensures lines[1..][i].id != lines[1..][at - 1].id {
        assert lines[1..][i] == lines[i + 1];
      }
      ArchiveOfIs(lines[1..], at - 1);
    }
  }

  lemma {:induction false} NotThere(lines: seq<Line>, id: string)
    requires forall i :: 0 <= i < |lines| ==> lines[i].id != id
    ensures ArchiveOf(lines, id).None?
  {
    if lines != [] { NotThere(lines[1..], id); }
  }

  /** The current conversation is main's; an ended one is its archive, or nowhere once erased. */
  lemma PhysicalIs(lines: seq<Line>, n: nat)
    requires LinesOk(lines) && n < |lines|
    ensures Physical(lines, lines[n].id) == if n == Current(lines) then Some(MAIN) else lines[n].archivedAs
  {
    CurrentIs(lines);
    assert LineOk(lines[n], n, n == |lines| - 1) && LineOk(lines[|lines| - 1], |lines| - 1, true);
    forall i | 0 <= i < |lines| && i != n ensures lines[i].id != lines[n].id {
      if lines[i].id == lines[n].id { LinesApart(lines, i, n); }
    }
    ArchiveOfIs(lines, n);
  }

  /** A text that is no conversation's id is nowhere. */
  lemma OthersAreNowhere(lines: seq<Line>, id: string)
    requires LinesOk(lines) && id != CurrentId(lines) && forall i :: 0 <= i < |lines| ==> lines[i].id != id
    ensures Physical(lines, id).None?
  {
    CurrentIs(lines);
    if lines != [] { assert LineOk(lines[|lines| - 1], |lines| - 1, true); }
    NotThere(lines, id);
  }

  /** What beginning afresh leaves of the conversation that ends. */
  lemma JustEnded(db: Db, now: int, cause: Cause)
    requires Inv(db) && Fits(Current(db.lines))
    ensures var n, after := Current(db.lines), Next(db, Begin(now, cause));
            && CurrentId(db.lines) == IdOf(n) && IsArchived(after.lines, n) && after.lines[n].archivedAs == Some(Archived(IdOf(n)))
            && forall k :: Content(after.tables, Archived(IdOf(n)), k) == Content(db.tables, MAIN, k)
  {
    FreshIs(db, now, cause);
    FreshLinesAre(db.lines, now, cause);
    CurrentIs(db.lines);
  }

  /** An archived conversation is read where its line says. */
  lemma ArchivedReads(db: Db, n: nat)
    requires Inv(db) && Current(db.lines) <= MAX_LINES && IsArchived(db.lines, n)
    ensures Physical(db.lines, IdOf(n)) == db.lines[n].archivedAs
  {
    ArchivedIsEnded(db, n);
    assert LineOk(db.lines[n], n, n == |db.lines| - 1);
    PhysicalIs(db.lines, n);
  }

  lemma {:induction false} CountsGrow(db: Db, ops: seq<Op>)
    requires Inv(db) && Current(db.lines) + |ops| <= MAX_LINES
    ensures Current(After(db, ops).lines) <= Current(db.lines) + |ops|
    decreases |ops|
  {
    if ops != [] {
      StepInv(db, ops[0]);
      CountsGrow(Next(db, ops[0]), ops[1..]);
    }
  }

  /** The conversation that ends reads back, ever after, the transcript it had when it ended. */
  lemma EndedReadsBack(db: Db, now: int, cause: Cause, ops: seq<Op>)
    requires Inv(db) && Current(db.lines) + |ops| + 1 <= MAX_LINES
    ensures var ended, later := CurrentId(db.lines), After(Next(db, Begin(now, cause)), ops);
            && Physical(later.lines, ended) == Some(Archived(ended))
            && forall k :: Content(later.tables, Archived(ended), k) == Content(db.tables, MAIN, k)
  {
    var n, after := Current(db.lines), Next(db, Begin(now, cause));
    CurrentFits(db);
    JustEnded(db, now, cause);
    StepInv(db, Begin(now, cause));
    ArchivesStay(after, ops, n);
    RunInv(after, ops);
    CountsGrow(after, ops);
    ArchivedReads(After(after, ops), n);
  }

  // ----- Erasing -----

  lemma {:induction false} NotMainIs(jobs: seq<Job>)
    ensures forall j :: j in NotMain(jobs) <==> j in jobs && !IsMainJob(j)
  {
    if jobs != [] { NotMainIs(jobs[1..]); }
  }

  /** The conversation erased is nowhere, and another is current. */
  lemma ErasedIsNowhere(db: Db, now: int)
    requires Inv(db) && Current(db.lines) <= MAX_LINES
    ensures Erased(db, now).Some?
    ensures var ended, after := CurrentId(db.lines), Erased(db, now).value;
            Physical(after.lines, ended).None? && CurrentId(after.lines) != ended
  {
    CurrentFits(db);
    CurrentIs(db.lines);
    ErasedIs(db, now);
    UnarchivedReads(db.lines, now);
  }

  lemma UnarchivedReads(lines: seq<Line>, now: int)
    requires LinesOk(lines)
    ensures var n := Current(lines);
            var after := Unarchived(FreshLines(lines, now, FreshContext), IdOf(n));
            Physical(after, IdOf(n)).None? && CurrentId(after) != IdOf(n)
  {
    var n := Current(lines);
    var after := Unarchived(FreshLines(lines, now, FreshContext), IdOf(n));
    FreshLinesAre(lines, now, FreshContext);
    UnarchivedIs(FreshLines(lines, now, FreshContext), n);
    CurrentIs(after);
    assert LineOk(after[n], n, false);
    PhysicalIs(after, n);
    IdsDiffer(n + 1, n);
  }

  /** None of its tables is left, main is empty, and its model jobs are gone while others' stay. */
  lemma ErasesTheEnding(db: Db, now: int)
    requires Inv(db) && Current(db.lines) <= MAX_LINES
    ensures Erased(db, now).Some?
    ensures var ended, after := CurrentId(db.lines), Erased(db, now).value;
            && (forall k :: Table(Archived(ended), k) !in after.tables)
            && (forall k :: Content(after.tables, MAIN, k) == [])
            && (forall j :: j in after.jobs <==> j in db.jobs && !IsMainJob(j))
            && after.sessions == db.sessions - {Archived(ended)}
  {
    CurrentFits(db);
    CurrentIs(db.lines);
    ErasedIs(db, now);
    NotMainIs(db.jobs);
  }

  /** And nothing else is: every conversation archived before reads as it did. */
  lemma ErasesOnlyTheEnding(db: Db, now: int, n: nat)
    requires Inv(db) && Current(db.lines) <= MAX_LINES && IsArchived(db.lines, n)
    ensures SameArchive(db, Next(db, Erase(now)), n)
  {
    StepKeepsArchive(db, Erase(now), n);
  }

  /** After an erasure there is nothing to erase, */
  lemma NothingIsLeft(db: Db, now: int)
    requires Inv(db) && Current(db.lines) <= MAX_LINES
    ensures Erased(db, now).Some? && !Holds(Erased(db, now).value)
  {
    ErasesTheEnding(db, now);
    NothingHeld(Erased(db, now).value);
  }

  lemma NothingToErase(db: Db, now: int)
    requires !Holds(db)
    ensures Next(db, Erase(now)) == db
  {
  }

  /** so erasing again, with nothing said since, changes nothing. */
  lemma ErasingIsIdempotent(db: Db, now: int, later: int, after: Db)
    requires Inv(db) && Current(db.lines) <= MAX_LINES && after == Next(db, Erase(now))
    ensures Next(after, Erase(later)) == after
  {
    NothingIsLeft(db, now);
    EraseIs(db, now, Erased(db, now));
    NothingToErase(after, later);
  }

  lemma NothingHeld(db: Db)
    requires Content(db.tables, MAIN, Entries) == [] && forall j :: j in db.jobs ==> !IsMainJob(j)
    ensures !Holds(db)
  {
    assert forall i :: 0 <= i < |db.jobs| ==> db.jobs[i] in db.jobs;
  }

  /** Main has an entry. */
  predicate HasEntry(db: Db) {
    Table(MAIN, Entries) in db.tables && |db.tables[Table(MAIN, Entries)]| > 0
  }

  /** A model job is filed under main. */
  predicate HasJob(db: Db) {
    exists j :: j in db.jobs && j.session == MAIN
  }

  /**
   * An erasure ends the conversation exactly when it has an entry or a model job, be its transcript empty; else it does
   * nothing.
   */
  lemma ErasesExactlyWhen(db: Db, now: int)
    requires Inv(db) && Current(db.lines) <= MAX_LINES
    ensures Erased(db, now).Some? && CurrentId(Erased(db, now).value.lines) != CurrentId(db.lines)
    ensures HasEntry(db) || HasJob(db) ==> Next(db, Erase(now)) == Erased(db, now).value
    ensures !HasEntry(db) && !HasJob(db) ==> Next(db, Erase(now)) == db
  {
    ErasedIsNowhere(db, now);
    EraseIs(db, now, Erased(db, now));
    if j :| j in db.jobs && j.session == MAIN {
      var i :| 0 <= i < |db.jobs| && db.jobs[i] == j;
      assert IsMainJob(db.jobs[i]);
    }
    if i :| 0 <= i < |db.jobs| && IsMainJob(db.jobs[i]) { assert db.jobs[i] in db.jobs; }
  }

  /**
   * What a beginning writes of the conversations: the one that was current ended now and archived under its name, its cause
   * kept; the next, of the next generation, begun for this cause; and the earlier ones as they were.
   */
  lemma BeginningIsWritten(db: Db, now: int, cause: Cause)
    requires Inv(db) && Current(db.lines) <= MAX_LINES
    ensures var (n, lines) := (Current(db.lines), Next(db, Begin(now, cause)).lines);
            && |lines| == n + 2 && (forall i :: 0 <= i < n ==> lines[i] == db.lines[i])
            && lines[n] == Line(n, IdOf(n), Some(Archived(IdOf(n))), Some(now), if db.lines == [] then None else db.lines[n].cause)
            && lines[n + 1] == Line(n + 1, IdOf(n + 1), None, None, Some(cause))
  {
    CurrentFits(db);
    FreshIs(db, now, cause);
    FreshLinesAre(db.lines, now, cause);
    if db.lines != [] { assert LineOk(db.lines[Current(db.lines)], Current(db.lines), true); }
  }

  /** And an erasure: the same, but no archive. */
  lemma ErasureIsWritten(db: Db, now: int)
    requires Inv(db) && Current(db.lines) <= MAX_LINES
    ensures Erased(db, now).Some?
    ensures var (n, lines) := (Current(db.lines), Erased(db, now).value.lines);
            && |lines| == n + 2 && (forall i :: 0 <= i < n ==> lines[i] == db.lines[i])
            && lines[n] == Line(n, IdOf(n), None, Some(now), if db.lines == [] then None else db.lines[n].cause)
            && lines[n + 1] == Line(n + 1, IdOf(n + 1), None, None, Some(FreshContext))
  {
    CurrentFits(db);
    CurrentIs(db.lines);
    ErasedIs(db, now);
    FreshLinesAre(db.lines, now, FreshContext);
    UnarchivedIs(FreshLines(db.lines, now, FreshContext), Current(db.lines));
    if db.lines != [] { assert LineOk(db.lines[Current(db.lines)], Current(db.lines), true); }
  }

  // ----- The conversation as its readers know it -----

  lemma {:induction false} SameChain(a: seq<Line>, b: seq<Line>)
    requires a != [] && |a| == |b| && forall i :: 0 <= i < |a| ==> a[i].cause == b[i].cause
    ensures ChainStart(a) == ChainStart(b)
  {
    var last := |a| - 1;
    if last > 0 { SameChain(a[..last], b[..last]); }
  }

  /** The lines before and after, by their causes and ids. */
  lemma FreshChain(lines: seq<Line>, now: int, cause: Cause)
    requires LinesOk(lines)
    ensures var n, first, after := Current(lines), WithFirst(lines), FreshLines(lines, now, cause);
            && |first| == n + 1 && |after| == n + 2 && after[n + 1].id == IdOf(n + 1) && after[n + 1].cause == Some(cause)
            && (forall i :: 0 <= i <= n ==> after[i].cause == first[i].cause && after[i].id == first[i].id)
  {
    FreshLinesAre(lines, now, cause);
  }

  lemma IdsOneMore(after: seq<Line>, first: seq<Line>, at: nat)
    requires |after| == |first| + 1 && at <= |first| && forall i :: 0 <= i < |first| ==> after[i].id == first[i].id
    ensures IdsFrom(after, at) == IdsFrom(first, at) + [after[|first|].id]
  {
  }

  /** A rebuild continues the conversation, with one more transcript; */
  lemma RebuildContinues(lines: seq<Line>, now: int)
    requires LinesOk(lines)
    ensures LogicalMain(FreshLines(lines, now, Rebuild))
         == Logical(LogicalMain(lines).conversation, LogicalMain(lines).transcripts + [IdOf(Current(lines) + 1)])
  {
    FreshChain(lines, now, Rebuild);
    var n, first, rebuilt := Current(lines), WithFirst(lines), FreshLines(lines, now, Rebuild);
    SameChain(rebuilt[..n + 1], first);
    IdsOneMore(rebuilt, first, ChainStart(first));
  }

  /** a fresh context begins another. */
  lemma FreshContextBegins(lines: seq<Line>, now: int)
    requires LinesOk(lines)
    ensures LogicalMain(FreshLines(lines, now, FreshContext)) == Logical(IdOf(Current(lines) + 1), [IdOf(Current(lines) + 1)])
  {
    FreshChain(lines, now, FreshContext);
    var n, begun := Current(lines), FreshLines(lines, now, FreshContext);
    assert ChainStart(begun) == n + 1;
    assert IdsFrom(begun, n + 1) == [IdOf(n + 1)];
  }
}
