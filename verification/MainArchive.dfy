/** An agent's main conversations: begun afresh, archived under another name or erased, and read back. */
module MainArchive {
  import opened Wrappers
  import opened MainTables

  datatype Cause = FreshContext | Rebuild
  /** A line of `main_sessions`, kept in generation order. */
  datatype Line = Line(generation: nat, id: string, archivedAs: Option<string>, ended: Option<int>, cause: Option<Cause>)
  datatype Job = Job(session: string, request: string)
  type Tables = map<string, seq<string>>
  datatype Db = Db(tables: Tables, lines: seq<Line>, jobs: seq<Job>, sessions: set<string>)

  const KINDS := [Entries, Usage, Values, List, Meta]

  function Names(session: string): set<string> {
    set k: Kind :: Table(session, k)
  }

  /** Makes the tables that are not there yet. */
  function Ensured(tables: Tables, session: string): Tables {
    map t | t in tables.Keys + Names(session) :: if t in tables then tables[t] else []
  }

  /** Renames table after table; a rename fails when its target is there. */
  function Renamed(tables: Tables, was: string, to: string, kinds: seq<Kind>): Option<Tables>
    decreases |kinds|
  {
    if kinds == [] then Some(tables)
    else
      var a, b := Table(was, kinds[0]), Table(to, kinds[0]);
      if a !in tables || b in tables then None else Renamed((tables - {a})[b := tables[a]], was, to, kinds[1..])
  }

  /** The newest line not ended, or the first conversation's id. */
  function CurrentId(lines: seq<Line>): string {
    if lines == [] then MAIN
    else
      var last := lines[|lines| - 1];
      if last.ended.None? then last.id else CurrentId(lines[..|lines| - 1])
  }

  function Latest(lines: seq<Line>): nat {
    if lines == [] then 0 else
      var before := Latest(lines[..|lines| - 1]);
      if lines[|lines| - 1].generation > before then lines[|lines| - 1].generation else before
  }

  /** Ends one conversation, archived. */
  function EndedAs(lines: seq<Line>, id: string, now: int, archive: string): seq<Line> {
    seq(|lines|, i requires 0 <= i < |lines| => if lines[i].id == id then lines[i].(ended := Some(now), archivedAs := Some(archive)) else lines[i])
  }

  function WithFirst(lines: seq<Line>): seq<Line> {
    if lines == [] then [Line(0, MAIN, None, None, None)] else lines
  }

  function FreshLines(lines: seq<Line>, now: int, cause: Cause): seq<Line> {
    EndedAs(WithFirst(lines), CurrentId(lines), now, Archived(CurrentId(lines))) + [Line(Latest(lines) + 1, IdOf(Latest(lines) + 1), None, None, Some(cause))]
  }

  /** Main's tables under the archive's names, and empty ones under its own. */
  function Archiving(tables: Tables, archive: string): Option<Tables> {
    match Renamed(Ensured(tables, MAIN), MAIN, archive, KINDS)
    case None => None
    case Some(moved) => Some(Ensured(Ensured(moved, archive), MAIN))
  }

  /** The steps of `freshMain`, or nothing: the transaction is taken back. */
  function Fresh(db: Db, now: int, cause: Cause): Option<Db> {
    match Archiving(db.tables, Archived(CurrentId(db.lines)))
    case None => None
    case Some(tables) => Some(db.(tables := tables, lines := FreshLines(db.lines, now, cause)))
  }

  predicate IsMainJob(j: Job) {
    j.session == MAIN
  }

  function NotMain(jobs: seq<Job>): seq<Job> {
    if jobs == [] then [] else (if IsMainJob(jobs[0]) then [] else [jobs[0]]) + NotMain(jobs[1..])
  }

  /** Something to erase: an entry, or a model job. */
  predicate Holds(db: Db) {
    (Table(MAIN, Entries) in db.tables && db.tables[Table(MAIN, Entries)] != []) || exists i :: 0 <= i < |db.jobs| && IsMainJob(db.jobs[i])
  }

  function Unarchived(lines: seq<Line>, id: string): seq<Line> {
    seq(|lines|, i requires 0 <= i < |lines| => if lines[i].id == id then lines[i].(archivedAs := None) else lines[i])
  }

  /** The steps of `eraseMain` past its question. */
  function Erased(db: Db, now: int): Option<Db> {
    var was := CurrentId(db.lines);
    match Fresh(db, now, FreshContext)
    case None => None
    case Some(after) =>
      Some(Db(after.tables - Names(Archived(was)), Unarchived(after.lines, was), NotMain(after.jobs), after.sessions - {Archived(was)}))
  }

  /** The session whose tables hold a conversation. */
  function Physical(lines: seq<Line>, id: string): Option<string> {
    if id == CurrentId(lines) then Some(MAIN) else ArchiveOf(lines, id)
  }

  function ArchiveOf(lines: seq<Line>, id: string): Option<string> {
    if lines == [] then None
    else if lines[0].id == id && lines[0].archivedAs.Some? then lines[0].archivedAs
    else ArchiveOf(lines[1..], id)
  }

  /** Where the newest chain of rebuilds begins. */
  function ChainStart(lines: seq<Line>): nat
    requires lines != []
    ensures ChainStart(lines) < |lines|
  {
    var last := |lines| - 1;
    if last > 0 && lines[last].cause == Some(Rebuild) then ChainStart(lines[..last]) else last
  }

  datatype Logical = Logical(conversation: string, transcripts: seq<string>)

  function IdsFrom(lines: seq<Line>, i: nat): (ids: seq<string>)
    requires i <= |lines|
    ensures |ids| == |lines| - i
  {
    seq(|lines| - i, j requires 0 <= j < |lines| - i => lines[i + j].id)
  }

  /** A rebuild continues the conversation it replaced. */
  function LogicalMain(lines: seq<Line>): Logical {
    var all := WithFirst(lines);
    var i := ChainStart(all);
    Logical(all[i].id, IdsFrom(all, i))
  }

  // ----- Operations and runs -----

  datatype Op = Write(kind: Kind, row: string) | File(job: Job) | Begin(now: int, cause: Cause) | Erase(now: int)

  function Or(a: Option<Db>, b: Db): Db {
    if a.Some? then a.value else b
  }

  function Next(db: Db, op: Op): Db {
    match op
    case Write(kind, row) =>
      var tables := Ensured(db.tables, MAIN);
      var t := Table(MAIN, kind);
      if t in tables then db.(tables := tables[t := tables[t] + [row]]) else db
    case File(job) => db.(jobs := db.jobs + [job])
    case Begin(now, cause) => Or(Fresh(db, now, cause), db)
    case Erase(now) => if Holds(db) then Or(Erased(db, now), db) else db
  }

  function After(db: Db, ops: seq<Op>): Db
    decreases |ops|
  {
    if ops == [] then db else After(Next(db, ops[0]), ops[1..])
  }

  // ----- The invariant -----

  const MAX_LINES: nat := 0x20_0000_0000_0000

  /** One line: in its place, named for it, current exactly when last, archived under its own name or erased. */
  predicate LineOk(l: Line, i: nat, last: bool) {
    && l.generation == i && l.id == IdOf(i) && (l.ended.None? <==> last)
    && (l.archivedAs.None? || l.archivedAs == Some(Archived(l.id))) && (last ==> l.archivedAs.None?)
  }

  predicate LinesOk(lines: seq<Line>) {
    forall i :: 0 <= i < |lines| ==> LineOk(lines[i], i, i == |lines| - 1)
  }

  predicate IsArchived(lines: seq<Line>, n: nat) {
    n < |lines| && lines[n].archivedAs.Some?
  }

  /** Exactly the archived conversations have archive tables. */
  predicate TableOk(tables: Tables, lines: seq<Line>, n: nat, k: Kind) {
    Fits(n) ==> (Table(Archived(IdOf(n)), k) in tables <==> IsArchived(lines, n))
  }

  ghost predicate TablesOk(tables: Tables, lines: seq<Line>) {
    forall n, k :: TableOk(tables, lines, n, k)
  }

  ghost predicate Inv(db: Db) {
    LinesOk(db.lines) && TablesOk(db.tables, db.lines)
  }

  function Content(tables: Tables, session: string, k: Kind): seq<string> {
    if Table(session, k) in tables then tables[Table(session, k)] else []
  }

  // ----- Renaming -----

  /** The tables are apart: main's from the archive's and each from the others. */
  ghost predicate Apart(was: string, to: string) {
    && (forall k, l :: Table(was, k) != Table(to, l))
    && (forall k, l :: Table(was, k) == Table(was, l) ==> k == l)
    && (forall k, l :: Table(to, k) == Table(to, l) ==> k == l)
  }

  lemma MainArchiveApart(n: nat)
    requires Fits(n)
    ensures Apart(MAIN, Archived(IdOf(n)))
  {
    forall k, l ensures Table(MAIN, k) != Table(Archived(IdOf(n)), l) {
      MainApart(n, l, k);
    }
    forall k, l | Table(MAIN, k) == Table(MAIN, l) ensures k == l {
      MainKindsApart(k, l);
    }
    forall k, l | Table(Archived(IdOf(n)), k) == Table(Archived(IdOf(n)), l) ensures k == l {
      ArchivesApart(n, k, n, l);
    }
  }

  predicate OneEach(kinds: seq<Kind>) {
    forall i, j :: 0 <= i < j < |kinds| ==> kinds[i] != kinds[j]
  }

  /** Every table is there and no target is. */
  predicate CanMove(tables: Tables, was: string, to: string, kinds: seq<Kind>) {
    forall i :: 0 <= i < |kinds| ==> Table(was, kinds[i]) in tables && Table(to, kinds[i]) !in tables
  }

  function MoveOne(tables: Tables, a: string, b: string): Tables
    requires a in tables
  {
    (tables - {a})[b := tables[a]]
  }

  lemma CanMoveRest(tables: Tables, was: string, to: string, kinds: seq<Kind>)
    requires Apart(was, to) && OneEach(kinds) && kinds != [] && CanMove(tables, was, to, kinds)
    ensures CanMove(MoveOne(tables, Table(was, kinds[0]), Table(to, kinds[0])), was, to, kinds[1..]) && OneEach(kinds[1..])
  {
    var one := MoveOne(tables, Table(was, kinds[0]), Table(to, kinds[0]));
    forall i | 0 <= i < |kinds[1..]| ensures Table(was, kinds[1..][i]) in one && Table(to, kinds[1..][i]) !in one {
      assert kinds[1..][i] == kinds[i + 1] && kinds[0] != kinds[i + 1];
    }
  }

  /** The renames then all succeed, */
  lemma {:induction false} RenamedAll(tables: Tables, was: string, to: string, kinds: seq<Kind>)
    requires Apart(was, to) && OneEach(kinds) && CanMove(tables, was, to, kinds)
    ensures Renamed(tables, was, to, kinds).Some?
    decreases |kinds|
  {
    if kinds != [] {
      CanMoveRest(tables, was, to, kinds);
      RenamedAll(MoveOne(tables, Table(was, kinds[0]), Table(to, kinds[0])), was, to, kinds[1..]);
    }
  }

  /** leave every other table as it was, */
  lemma {:induction false} RenamedElsewhere(tables: Tables, was: string, to: string, kinds: seq<Kind>, t: string)
    requires Renamed(tables, was, to, kinds).Some?
    requires forall i :: 0 <= i < |kinds| ==> t != Table(was, kinds[i]) && t != Table(to, kinds[i])
    ensures var r := Renamed(tables, was, to, kinds).value; (t in r <==> t in tables) && (t in tables ==> r[t] == tables[t])
    decreases |kinds|
  {
    if kinds != [] {
      assert t != Table(was, kinds[0]) && t != Table(to, kinds[0]);
      forall i | 0 <= i < |kinds[1..]| ensures t != Table(was, kinds[1..][i]) && t != Table(to, kinds[1..][i]) {
        assert kinds[1..][i] == kinds[i + 1];
      }
      RenamedElsewhere(MoveOne(tables, Table(was, kinds[0]), Table(to, kinds[0])), was, to, kinds[1..], t);
    }
  }

  /** and move each table's rows. */
  lemma {:induction false} RenamedMoves(tables: Tables, was: string, to: string, kinds: seq<Kind>, at: nat)
    requires Apart(was, to) && OneEach(kinds) && CanMove(tables, was, to, kinds) && at < |kinds|
    requires Renamed(tables, was, to, kinds).Some?
    ensures var r := Renamed(tables, was, to, kinds).value;
            Table(to, kinds[at]) in r && r[Table(to, kinds[at])] == tables[Table(was, kinds[at])] && Table(was, kinds[at]) !in r
    decreases |kinds|
  {
    var a, b := Table(was, kinds[0]), Table(to, kinds[0]);
    var one := MoveOne(tables, a, b);
    CanMoveRest(tables, was, to, kinds);
    if at == 0 {
      forall i | 0 <= i < |kinds[1..]|
        ensures a != Table(was, kinds[1..][i]) && a != Table(to, kinds[1..][i]) && b != Table(was, kinds[1..][i]) && b != Table(to, kinds[1..][i])
      {
        assert kinds[1..][i] == kinds[i + 1] && kinds[0] != kinds[i + 1];
      }
      RenamedElsewhere(one, was, to, kinds[1..], a);
      RenamedElsewhere(one, was, to, kinds[1..], b);
    } else {
      assert kinds[1..][at - 1] == kinds[at] && kinds[0] != kinds[at];
      RenamedMoves(one, was, to, kinds[1..], at - 1);
    }
  }

  function PlaceOf(k: Kind): (i: nat)
    ensures i < |KINDS| && KINDS[i] == k
  {
    match k
    case Entries => 0
    case Usage => 1
    case Values => 2
    case List => 3
    case Meta => 4
  }

  lemma KindsAreApart()
    ensures OneEach(KINDS)
  {
  }

  // ----- A fresh context -----

  /** What beginning afresh does to the tables. */
  ghost predicate FreshTables(before: Tables, after: Tables, archive: string) {
    && (forall k :: Table(archive, k) in after && after[Table(archive, k)] == Content(before, MAIN, k))
    && (forall k :: Table(MAIN, k) in after && after[Table(MAIN, k)] == [])
    && (forall t :: t !in Names(MAIN) && t !in Names(archive) ==> (t in after <==> t in before) && (t in before ==> after[t] == before[t]))
  }

  /** Main's tables are the archive's, and no other table was touched. */
  ghost predicate MovedOff(tables: Tables, moved: Tables, archive: string) {
    && (forall k :: Table(archive, k) in moved && moved[Table(archive, k)] == Content(tables, MAIN, k))
    && (forall k :: Table(MAIN, k) !in moved)
    && (forall t :: t !in Names(MAIN) && t !in Names(archive) ==> (t in moved <==> t in tables) && (t in tables ==> moved[t] == tables[t]))
  }

  lemma ReadyToMove(tables: Tables, archive: string)
    requires Apart(MAIN, archive) && forall k :: Table(archive, k) !in tables
    ensures CanMove(Ensured(tables, MAIN), MAIN, archive, KINDS)
    ensures forall k :: Table(MAIN, k) in Ensured(tables, MAIN) && Ensured(tables, MAIN)[Table(MAIN, k)] == Content(tables, MAIN, k)
  {
    var ready := Ensured(tables, MAIN);
    forall k ensures Table(MAIN, k) in ready && Table(archive, k) !in ready && ready[Table(MAIN, k)] == Content(tables, MAIN, k) {
      assert Table(MAIN, k) in Names(MAIN);
      assert forall l :: Table(MAIN, l) != Table(archive, k);
    }
  }

  lemma AllMoved(tables: Tables, archive: string)
    requires Apart(MAIN, archive) && forall k :: Table(archive, k) !in tables
    ensures Renamed(Ensured(tables, MAIN), MAIN, archive, KINDS).Some?
    ensures MovedOff(tables, Renamed(Ensured(tables, MAIN), MAIN, archive, KINDS).value, archive)
  {
    var ready := Ensured(tables, MAIN);
    ReadyToMove(tables, archive);
    KindsAreApart();
    RenamedAll(ready, MAIN, archive, KINDS);
    var moved := Renamed(ready, MAIN, archive, KINDS).value;
    forall k ensures Table(archive, k) in moved && moved[Table(archive, k)] == Content(tables, MAIN, k) && Table(MAIN, k) !in moved {
      RenamedMoves(ready, MAIN, archive, KINDS, PlaceOf(k));
    }
    forall t | t !in Names(MAIN) && t !in Names(archive) ensures (t in moved <==> t in tables) && (t in tables ==> moved[t] == tables[t]) {
      forall i | 0 <= i < |KINDS| ensures t != Table(MAIN, KINDS[i]) && t != Table(archive, KINDS[i]) {
        assert Table(MAIN, KINDS[i]) in Names(MAIN) && Table(archive, KINDS[i]) in Names(archive);
      }
      RenamedElsewhere(ready, MAIN, archive, KINDS, t);
    }
  }

  lemma FreshMoves(tables: Tables, archive: string)
    requires Apart(MAIN, archive) && forall k :: Table(archive, k) !in tables
    ensures Archiving(tables, archive).Some? && FreshTables(tables, Archiving(tables, archive).value, archive)
  {
    AllMoved(tables, archive);
    FreshEnsured(tables, Renamed(Ensured(tables, MAIN), MAIN, archive, KINDS).value, archive);
  }

  lemma FreshEnsured(tables: Tables, moved: Tables, archive: string)
    requires Apart(MAIN, archive)
    requires MovedOff(tables, moved, archive)
    ensures FreshTables(tables, Ensured(Ensured(moved, archive), MAIN), archive)
  {
    var after := Ensured(Ensured(moved, archive), MAIN);
    forall k ensures Table(archive, k) in after && after[Table(archive, k)] == Content(tables, MAIN, k) {
      assert Table(archive, k) in Names(archive);
    }
    forall k ensures Table(MAIN, k) in after && after[Table(MAIN, k)] == [] {
      assert Table(MAIN, k) in Names(MAIN);
      assert forall l :: Table(MAIN, k) != Table(archive, l);
    }
  }

  // ----- The lines -----

  /** How many conversations there have been before the current one. */
  function Current(lines: seq<Line>): nat {
    if lines == [] then 0 else |lines| - 1
  }

  lemma {:induction false} LatestIs(lines: seq<Line>)
    requires forall i :: 0 <= i < |lines| ==> lines[i].generation == i
    ensures Latest(lines) == Current(lines)
  {
    if lines != [] { LatestIs(lines[..|lines| - 1]); }
  }

  /** One conversation is current, and its id is the one named. */
  lemma CurrentIs(lines: seq<Line>)
    requires LinesOk(lines)
    ensures CurrentId(lines) == IdOf(Current(lines)) && Latest(lines) == Current(lines)
    ensures forall i :: 0 <= i < |lines| ==> (lines[i].ended.None? <==> i == Current(lines))
  {
    forall i | 0 <= i < |lines| ensures lines[i].generation == i && (lines[i].ended.None? <==> i == |lines| - 1) {
      assert LineOk(lines[i], i, i == |lines| - 1);
    }
    LatestIs(lines);
    if lines != [] { assert LineOk(lines[|lines| - 1], |lines| - 1, true); }
  }

  /** The ids are pairwise distinct. */
  lemma LinesApart(lines: seq<Line>, i: nat, j: nat)
    requires LinesOk(lines) && i < |lines| && j < |lines| && lines[i].id == lines[j].id
    ensures i == j
  {
    assert LineOk(lines[i], i, i == |lines| - 1) && LineOk(lines[j], j, j == |lines| - 1);
    IdsApart(i, j);
  }

  /** The lines before the one ending stay; it is archived and ended; the new one is current. */
  lemma FreshLinesAre(lines: seq<Line>, now: int, cause: Cause)
    requires LinesOk(lines)
    ensures var n, after := Current(lines), FreshLines(lines, now, cause);
            && |after| == n + 2 && LinesOk(after)
            && (forall i :: 0 <= i < n ==> after[i] == lines[i])
            && after[n] == WithFirst(lines)[n].(ended := Some(now), archivedAs := Some(Archived(IdOf(n))))
            && after[n + 1] == Line(n + 1, IdOf(n + 1), None, None, Some(cause))
  {
    CurrentIs(lines);
    var n, after, first := Current(lines), FreshLines(lines, now, cause), WithFirst(lines);
    forall i | 0 <= i <= n ensures LineOk(first[i], i, i == n) {
      if lines != [] { assert LineOk(lines[i], i, i == |lines| - 1); }
    }
    assert LinesOk(first);
    forall i | 0 <= i < n ensures after[i] == lines[i] {
      if lines[i].id == IdOf(n) { LinesApart(first, i, n); }
    }
    forall i | 0 <= i < |after| ensures LineOk(after[i], i, i == |after| - 1) {
      if i < n { assert LineOk(first[i], i, i == n); }
    }
  }

  lemma NoArchiveYet(db: Db)
    requires Inv(db) && Fits(Current(db.lines))
    ensures forall k :: Table(Archived(IdOf(Current(db.lines))), k) !in db.tables
  {
    var n := Current(db.lines);
    forall k ensures Table(Archived(IdOf(n)), k) !in db.tables {
      assert TableOk(db.tables, db.lines, n, k);
      if n < |db.lines| { assert LineOk(db.lines[n], n, true); }
    }
  }

  lemma FreshIs(db: Db, now: int, cause: Cause)
    requires Inv(db) && Fits(Current(db.lines))
    ensures Fresh(db, now, cause).Some?
    ensures var after := Fresh(db, now, cause).value;
            after.lines == FreshLines(db.lines, now, cause) && after.jobs == db.jobs && after.sessions == db.sessions
            && FreshTables(db.tables, after.tables, Archived(IdOf(Current(db.lines))))
  {
    var archive := Archived(IdOf(Current(db.lines)));
    CurrentIs(db.lines);
    MainArchiveApart(Current(db.lines));
    NoArchiveYet(db);
    FreshMoves(db.tables, archive);
    assert Fresh(db, now, cause) == Some(db.(tables := Archiving(db.tables, archive).value, lines := FreshLines(db.lines, now, cause)));
  }

  /** A table of another conversation's archive is neither main's nor this archive's. */
  lemma OtherArchive(n: nat, m: nat, k: Kind)
    requires Fits(n) && Fits(m) && n != m
    ensures Table(Archived(IdOf(m)), k) !in Names(MAIN) && Table(Archived(IdOf(m)), k) !in Names(Archived(IdOf(n)))
  {
    forall l ensures Table(Archived(IdOf(m)), k) != Table(MAIN, l) && Table(Archived(IdOf(m)), k) != Table(Archived(IdOf(n)), l) {
      MainApart(m, k, l);
      if Table(Archived(IdOf(m)), k) == Table(Archived(IdOf(n)), l) { ArchivesApart(m, k, n, l); }
    }
  }

  lemma FreshKeeps(db: Db, now: int, cause: Cause)
    requires Inv(db) && Fits(Current(db.lines))
    ensures Fresh(db, now, cause).Some? && Inv(Fresh(db, now, cause).value)
  {
    FreshIs(db, now, cause);
    FreshLinesAre(db.lines, now, cause);
    var n, after := Current(db.lines), Fresh(db, now, cause).value;
    forall m, k ensures TableOk(after.tables, after.lines, m, k) {
      assert TableOk(db.tables, db.lines, m, k);
      if Fits(m) && m != n {
        OtherArchive(n, m, k);
      }
    }
  }

  // ----- Erasing -----

  lemma {:induction false} UnarchivedIs(lines: seq<Line>, n: nat)
    requires LinesOk(lines) && n < |lines|
    ensures var after := Unarchived(lines, IdOf(n));
            |after| == |lines| && LinesOk(after) && after[n] == lines[n].(archivedAs := None)
            && forall i :: 0 <= i < |lines| && i != n ==> after[i] == lines[i]
  {
    var after := Unarchived(lines, IdOf(n));
    assert LineOk(lines[n], n, n == |lines| - 1);
    forall i | 0 <= i < |lines| && i != n ensures after[i] == lines[i] {
      if lines[i].id == IdOf(n) { LinesApart(lines, i, n); }
    }
    forall i | 0 <= i < |after| ensures LineOk(after[i], i, i == |after| - 1) {
      assert LineOk(lines[i], i, i == |lines| - 1);
    }
  }

  /** Erasing leaves main empty, no table of the one that ended, and every other archive as it was. */
  ghost predicate ErasedTables(before: Tables, after: Tables, archive: string) {
    && (forall k :: Table(archive, k) !in after)
    && (forall k :: Table(MAIN, k) in after && after[Table(MAIN, k)] == [])
    && (forall t :: t !in Names(MAIN) && t !in Names(archive) ==> (t in after <==> t in before) && (t in before ==> after[t] == before[t]))
  }

  lemma ErasedIs(db: Db, now: int)
    requires Inv(db) && Fits(Current(db.lines))
    ensures Erased(db, now).Some?
    ensures var n, after := Current(db.lines), Erased(db, now).value;
            after.lines == Unarchived(FreshLines(db.lines, now, FreshContext), IdOf(n))
            && after.jobs == NotMain(db.jobs) && after.sessions == db.sessions - {Archived(IdOf(n))}
            && ErasedTables(db.tables, after.tables, Archived(IdOf(n)))
  {
    var n := Current(db.lines);
    FreshIs(db, now, FreshContext);
    CurrentIs(db.lines);
    MainArchiveApart(n);
    var started, after := Fresh(db, now, FreshContext).value, Erased(db, now).value;
    assert after.tables == started.tables - Names(Archived(IdOf(n)));
    forall k ensures Table(MAIN, k) !in Names(Archived(IdOf(n))) && Table(Archived(IdOf(n)), k) in Names(Archived(IdOf(n))) {
    }
  }

  lemma EraseKeeps(db: Db, now: int)
    requires Inv(db) && Fits(Current(db.lines))
    ensures Erased(db, now).Some? && Inv(Erased(db, now).value)
  {
    ErasedIs(db, now);
    FreshLinesAre(db.lines, now, FreshContext);
    var n, started, after := Current(db.lines), FreshLines(db.lines, now, FreshContext), Erased(db, now).value;
    UnarchivedIs(started, n);
    forall m, k ensures TableOk(after.tables, after.lines, m, k) {
      assert TableOk(db.tables, db.lines, m, k);
      if Fits(m) && m != n {
        OtherArchive(n, m, k);
      }
    }
  }
}
