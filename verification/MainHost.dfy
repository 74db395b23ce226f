/** The object's tables changed in place: `freshMain`, `eraseMain` and the reads over them. */
module MainHost {
  import opened Wrappers
  import opened MainTables
  import opened MainArchive

  lemma {:induction false} RenamedInTwo(tables: Tables, was: string, to: string, kinds: seq<Kind>, n: nat)
    requires n < |kinds|
    ensures Renamed(tables, was, to, kinds[..n + 1]) ==
      match Renamed(tables, was, to, kinds[..n])
      case None => None
      case Some(mid) => Renamed(mid, was, to, [kinds[n]])
    decreases n
  {
    if n > 0 {
      var a, b := Table(was, kinds[0]), Table(to, kinds[0]);
      assert kinds[..n + 1][1..] == kinds[1..][..n] && kinds[..n][1..] == kinds[1..][..n - 1];
      if a in tables && b !in tables {
        RenamedInTwo((tables - {a})[b := tables[a]], was, to, kinds[1..], n - 1);
      }
    } else {
      assert kinds[..1] == [kinds[0]] && kinds[..0] == [];
    }
  }

  lemma {:induction false} NoneStays(tables: Tables, was: string, to: string, kinds: seq<Kind>, n: nat)
    requires n <= |kinds| && Renamed(tables, was, to, kinds[..n]).None?
    ensures Renamed(tables, was, to, kinds).None?
    decreases |kinds| - n
  {
    if n < |kinds| {
      RenamedInTwo(tables, was, to, kinds, n);
      NoneStays(tables, was, to, kinds, n + 1);
    } else {
      assert kinds[..n] == kinds;
    }
  }

  lemma FreshFrom(db: Db, now: int, cause: Cause, archived: Option<Tables>)
    requires archived == Archiving(db.tables, Archived(CurrentId(db.lines)))
    ensures Fresh(db, now, cause) == if archived.Some? then Some(db.(tables := archived.value, lines := FreshLines(db.lines, now, cause))) else None
  {
  }

  class Host {
    var tables: Tables
    var lines: seq<Line>
    var jobs: seq<Job>
    var sessions: set<string>

    ghost function Value(): Db
      reads this
    {
      Db(tables, lines, jobs, sessions)
    }

    constructor (db: Db)
      ensures Value() == db
    {
      tables, lines, jobs, sessions := db.tables, db.lines, db.jobs, db.sessions;
    }

    method CurrentMainId() returns (id: string)
      ensures id == CurrentId(lines)
    {
      var i := |lines|;
      assert lines[..i] == lines;
      while i > 0
        invariant 0 <= i <= |lines| && CurrentId(lines) == CurrentId(lines[..i])
      {
        assert lines[..i][..i - 1] == lines[..i - 1];
        i := i - 1;
        if lines[i].ended.None? { return lines[i].id; }
      }
      return MAIN;
    }

    method EnsureTables(session: string)
      modifies this`tables
      ensures tables == Ensured(old(tables), session)
    {
      tables := map t | t in tables.Keys + Names(session) :: if t in tables then tables[t] else [];
    }

    /** The loop of renames: the transaction takes all of them back when one fails. */
    method RenameTables(was: string, to: string) returns (ok: bool)
      modifies this`tables
      ensures ok == Renamed(old(tables), was, to, KINDS).Some?
      ensures ok ==> tables == Renamed(old(tables), was, to, KINDS).value
      ensures !ok ==> tables == old(tables)
    {
      var before := tables;
      for i := 0 to |KINDS|
        invariant Renamed(before, was, to, KINDS[..i]) == Some(tables)
      {
        RenamedInTwo(before, was, to, KINDS, i);
        var a, b := Table(was, KINDS[i]), Table(to, KINDS[i]);
        if a !in tables || b in tables {
          NoneStays(before, was, to, KINDS, i + 1);
          tables := before;
          return false;
        }
        tables := (tables - {a})[b := tables[a]];
      }
      assert KINDS[..|KINDS|] == KINDS;
      return true;
    }

    method LastGeneration() returns (n: nat)
      ensures n == Latest(lines)
    {
      n := 0;
      for i := 0 to |lines|
        invariant n == Latest(lines[..i])
      {
        assert lines[..i + 1][..i] == lines[..i];
        if lines[i].generation > n { n := lines[i].generation; }
      }
      assert lines[..|lines|] == lines;
    }

    /** The rows written: the one that ends, and the new one. */
    method WriteLines(ended: string, last: nat, id: string, now: int, cause: Cause)
      requires ended == CurrentId(lines) && last == Latest(lines) && id == IdOf(last + 1)
      modifies this`lines
      ensures lines == FreshLines(old(lines), now, cause) && lines != [] && lines[|lines| - 1].id == id
    {
      var all := if lines == [] then [Line(0, MAIN, None, None, None)] else lines;
      for i := 0 to |all|
        invariant |all| == |WithFirst(old(lines))|
        invariant forall j :: 0 <= j < i ==> all[j] == EndedAs(WithFirst(old(lines)), ended, now, Archived(ended))[j]
        invariant forall j :: i <= j < |all| ==> all[j] == WithFirst(old(lines))[j]
      {
        if all[i].id == ended { all := all[i := all[i].(ended := Some(now), archivedAs := Some(Archived(ended)))]; }
      }
      assert all == EndedAs(WithFirst(old(lines)), ended, now, Archived(ended));
      lines := all + [Line(last + 1, id, None, None, Some(cause))];
    }

    /** Main's tables moved to the archive's names, or left as they were. */
    method MoveTables(archive: string) returns (ok: bool)
      modifies this`tables
      ensures ok == Archiving(old(tables), archive).Some?
      ensures ok ==> tables == Archiving(old(tables), archive).value
      ensures !ok ==> tables == old(tables)
    {
      var before := tables;
      EnsureTables(MAIN);
      ok := RenameTables(MAIN, archive);
      if ok {
        EnsureTables(archive);
        EnsureTables(MAIN);
      } else {
        tables := before;
      }
    }

    method FreshMain(now: int, cause: Cause) returns (ended: string, begun: Option<string>)
      modifies this
      ensures ended == CurrentId(old(lines))
      ensures begun.Some? <==> Fresh(old(Value()), now, cause).Some?
      ensures begun.Some? ==> lines != [] && begun.value == lines[|lines| - 1].id
      ensures Value() == Or(Fresh(old(Value()), now, cause), old(Value()))
    {
      ended := CurrentMainId();
      var last := LastGeneration();
      var id := IdOf(last + 1);
      ghost var before := Value();
      ghost var archived := Archiving(tables, Archived(ended));
      var ok := MoveTables(Archived(ended));
      FreshFrom(before, now, cause, archived);
      begun := None;
      if !ok {
        assert Value() == before;
        return;
      }
      WriteLines(ended, last, id, now, cause);
      assert Value() == before.(tables := archived.value, lines := FreshLines(before.lines, now, cause));
      begun := Some(id);
    }

    /** Drops what was made of the conversation on the way. */
    method DropArchive(ended: string)
      modifies this
      ensures Value() == Db(old(tables) - Names(Archived(ended)), Unarchived(old(lines), ended), NotMain(old(jobs)), old(sessions) - {Archived(ended)})
    {
      tables := tables - Names(Archived(ended));
      lines := Unarchived(lines, ended);
      sessions := sessions - {Archived(ended)};
      jobs := NotMain(jobs);
    }

    method EraseMain(now: int) returns (did: bool)
      modifies this
      ensures did == (Holds(old(Value())) && Erased(old(Value()), now).Some?)
      ensures Value() == if Holds(old(Value())) then Or(Erased(old(Value()), now), old(Value())) else old(Value())
    {
      var entries := Table(MAIN, Entries) in tables && tables[Table(MAIN, Entries)] != [];
      var filed := exists i :: 0 <= i < |jobs| && IsMainJob(jobs[i]);
      if !entries && !filed { return false; }
      var ended, begun := FreshMain(now, FreshContext);
      if begun.None? { return false; }
      DropArchive(ended);
      return true;
    }

    method PhysicalSession(id: string) returns (session: Option<string>)
      ensures session == Physical(lines, id)
    {
      var current := CurrentMainId();
      if id == current { return Some(MAIN); }
      var i := 0;
      while i < |lines|
        invariant i <= |lines| && ArchiveOf(lines, id) == ArchiveOf(lines[i..], id)
      {
        assert lines[i..][1..] == lines[i + 1..];
        if lines[i].id == id && lines[i].archivedAs.Some? { return lines[i].archivedAs; }
        i := i + 1;
      }
      return None;
    }

    method LogicalMainOf() returns (main: Logical)
      ensures main == LogicalMain(lines)
    {
      var all := WithFirst(lines);
      var i := |all| - 1;
      assert all[..i + 1] == all;
      while i > 0 && all[i].cause == Some(Rebuild)
        invariant 0 <= i < |all| && ChainStart(all) == ChainStart(all[..i + 1])
      {
        assert all[..i + 1][..i] == all[..i];
        i := i - 1;
      }
      assert ChainStart(all) == i;
      return Logical(all[i].id, IdsFrom(all, i));
    }
  }
}
