/** The benchmark's per-task database: held live, kept as the calls made, and rebuilt from them after an eviction. */
module Bench {
  import opened Wrappers
  import opened Retail
  import opened RetailLaws
  import opened BenchReplay

  /** The calls of a run that were accepted, in order. */
  function Accepted(base: Db, calls: seq<Action>): seq<Action> {
    if calls == [] then []
    else
      var n := |calls| - 1;
      Accepted(base, calls[..n]) + if AcceptedAt(base, calls, n) then [calls[n]] else []
  }

  lemma AcceptedOneMore(base: Db, calls: seq<Action>, a: Action)
    ensures Accepted(base, calls + [a]) == Accepted(base, calls) + if Applied(Run(base, calls), a).1.Done? then [a] else []
  {
    assert (calls + [a])[..|calls|] == calls;
  }

  lemma {:induction false} ListingOf(keys: set<string>) returns (ids: seq<string>)
    ensures Distinct(ids) && forall k :: k in ids <==> k in keys
  {
    if keys == {} {
      ids := [];
    } else {
      var k :| k in keys;
      var rest := ListingOf(keys - {k});
      ids := [k] + rest;
    }
  }

  lemma SoundThroughout(base: Db, calls: seq<Action>)
    requires Sound(base)
    ensures Sound(Run(base, calls))
  {
    var ids := ListingOf(base.orders.Keys);
    RunKeeps(base, calls, ids);
  }

  /** What is kept says the same of the database, and lists the same accepted calls, as everything that was asked. */
  ghost predicate Tells(base: Db, kept: seq<Action>, asked: seq<Action>) {
    Run(base, kept) == Run(base, asked) && Accepted(base, kept) == Accepted(base, asked)
  }

  lemma TellsOneMore(base: Db, kept: seq<Action>, asked: seq<Action>, a: Action)
    requires Tells(base, kept, asked)
    ensures Tells(base, kept + [a], asked + [a])
  {
    RunOneMore(base, kept, a);
    RunOneMore(base, asked, a);
    AcceptedOneMore(base, kept, a);
    AcceptedOneMore(base, asked, a);
  }

  /** A call refused last, from a sound base, may be forgotten. */
  lemma RefusedMayBeForgotten(base: Db, kept: seq<Action>, asked: seq<Action>, a: Action)
    requires Sound(base) && Tells(base, kept, asked) && Applied(Run(base, asked), a).1.Refused?
    ensures Tells(base, kept, asked + [a])
  {
    SoundThroughout(base, asked);
    RefusedChangesNothing(Run(base, asked), a);
    RunOneMore(base, asked, a);
    AcceptedOneMore(base, asked, a);
  }

  datatype TaskState = TaskState(db: Db, performed: seq<Action>)

  function Calls(lists: map<string, seq<Action>>, task: string): seq<Action> {
    if task in lists then lists[task] else []
  }

  /** Of one task: the table keeps the performed calls up to the last accepted, and the live state is what they left. */
  ghost predicate KeepsOk(base: Db, live: map<string, TaskState>, table: map<string, seq<Action>>, t: string) {
    && Trimmed(base, Calls(table, t)) == Calls(table, t)
    && (t in live ==> live[t].db == Run(base, live[t].performed) && Calls(table, t) == Trimmed(base, live[t].performed))
  }

  /** From a sound base, the table tells what was asked, and so does the live state. */
  ghost predicate TellsOk(base: Db, live: map<string, TaskState>, table: map<string, seq<Action>>, asked: map<string, seq<Action>>, t: string) {
    Tells(base, Calls(table, t), Calls(asked, t)) && (t in live ==> Tells(base, live[t].performed, Calls(asked, t)))
  }

  ghost predicate TaskOk(base: Db, live: map<string, TaskState>, table: map<string, seq<Action>>, asked: map<string, seq<Action>>, t: string) {
    KeepsOk(base, live, table, t) && (Sound(base) ==> TellsOk(base, live, table, asked, t))
  }

  /** What a task's state is rebuilt from, or is there already. */
  function Performed(live: map<string, TaskState>, table: map<string, seq<Action>>, task: string): seq<Action> {
    if task in live then live[task].performed else Calls(table, task)
  }

  /** The task's own part of a call: what is kept afterwards still tells everything asked. */
  lemma CallTells(base: Db, kept: seq<Action>, performed: seq<Action>, asked: seq<Action>, a: Action)
    requires Sound(base) && Tells(base, kept, asked) && Tells(base, performed, asked)
    ensures Applied(Run(base, asked), a).0 == Run(base, asked + [a])
    ensures Tells(base, performed + [a], asked + [a])
    ensures Applied(Run(base, asked), a).1.Refused? ==> Tells(base, kept, asked + [a])
  {
    RunOneMore(base, asked, a);
    TellsOneMore(base, performed, asked, a);
    if Applied(Run(base, asked), a).1.Refused? { RefusedMayBeForgotten(base, kept, asked, a); }
  }

  lemma OthersOk(base: Db, live: map<string, TaskState>, table: map<string, seq<Action>>, asked: map<string, seq<Action>>,
                 live': map<string, TaskState>, table': map<string, seq<Action>>, asked': map<string, seq<Action>>, t: string)
    requires TaskOk(base, live, table, asked, t)
    requires Calls(table', t) == Calls(table, t) && Calls(asked', t) == Calls(asked, t)
    requires t in live' ==> t in live && live'[t] == live[t]
    ensures TaskOk(base, live', table', asked', t)
  {
  }

  class BenchState {
    const base: Db
    var live: map<string, TaskState>
    var table: map<string, seq<Action>>
    /** Every call made on a task since its last reset: what an object never evicted would hold. */
    ghost var asked: map<string, seq<Action>>

    ghost function Asked(task: string): seq<Action>
      reads this
    {
      Calls(asked, task)
    }

    ghost predicate Valid()
      reads this
    {
      forall t :: TaskOk(base, live, table, asked, t)
    }

    constructor (base: Db)
      ensures Valid() && this.base == base && live == map[] && table == map[] && asked == map[]
    {
      this.base := base;
      live, table, asked := map[], map[], map[];
    }

    /** The object is evicted: only the table is left. */
    method Evict()
      requires Valid()
      modifies this
      ensures Valid() && live == map[] && table == old(table) && asked == old(asked)
      // A task is rebuilt as it was exactly when the replay of what is kept tells it.
      ensures forall t :: t in old(live) ==> (Run(base, Calls(table, t)) == old(live)[t].db <==> ReplayTells(base, old(live)[t].performed))
    {
      assert forall t :: TaskOk(base, live, table, asked, t);
      forall t | t in live ensures Run(base, Calls(table, t)) == live[t].db <==> ReplayTells(base, live[t].performed) {
        assert TaskOk(base, live, table, asked, t);
      }
      live := map[];
      assert forall t :: TaskOk(base, old(live), table, asked, t) ==> TaskOk(base, live, table, asked, t);
    }

    /**
     * The task's state, rebuilt from the table if it is not live. From a sound base it is always the database all calls
     * asked for would have left.
     */
    method State(task: string) returns (st: TaskState)
      requires Valid()
      modifies this
      ensures Valid() && table == old(table) && asked == old(asked)
      ensures st == TaskState(Run(base, st.performed), st.performed) && st.performed == Performed(old(live), table, task)
      ensures live == old(live)[task := st]
      ensures Sound(base) ==> st.db == Run(base, Asked(task))
    {
      assert TaskOk(base, live, table, asked, task);
      if task in live {
        st := live[task];
        assert live == live[task := st];
        return;
      }
      var performed := if task in table then table[task] else [];
      var db := base;
      for i := 0 to |performed|
        invariant db == Run(base, performed[..i])
      {
        assert performed[..i + 1][..i] == performed[..i];
        if IsWrite(performed[i]) {
          db := Applied(db, performed[i]).0;
        }
      }
      assert performed[..|performed|] == performed;
      st := TaskState(db, performed);
      live := live[task := st];
      forall t ensures TaskOk(base, live, table, asked, t) {
        assert TaskOk(base, old(live), table, asked, t);
      }
    }

    /** Clears the task: its next state is the base. */
    method Reset(task: string)
      requires Valid()
      modifies this
      ensures Valid() && asked == old(asked)[task := []] && table == old(table) - {task}
      ensures live == old(live)[task := TaskState(base, [])]
    {
      live := live - {task};
      table := table - {task};
      asked := asked[task := []];
      forall t ensures TaskOk(base, live, table, asked, t) {
        assert TaskOk(base, old(live), old(table), old(asked), t);
      }
      var _ := State(task);
    }

    /** Notes what a call left, and keeps the list if the call was accepted. */
    method Note(task: string, st: TaskState, accepted: bool, ghost calls: seq<Action>)
      requires Valid()
      requires st.db == Run(base, st.performed)
      requires Trimmed(base, st.performed) == if accepted then st.performed else Calls(table, task)
      requires Sound(base) ==> Tells(base, st.performed, calls) && (!accepted ==> Tells(base, Calls(table, task), calls))
      modifies this
      ensures Valid() && asked == old(asked)[task := calls] && live == old(live)[task := st]
      ensures table == if accepted then old(table)[task := st.performed] else old(table)
    {
      live := live[task := st];
      if accepted { table := table[task := st.performed]; }
      asked := asked[task := calls];
      forall t ensures TaskOk(base, live, table, asked, t) {
        assert TaskOk(base, old(live), old(table), old(asked), t);
        if t != task { OthersOk(base, old(live), old(table), old(asked), live, table, asked, t); }
      }
    }

    /**
     * One call, answered by the calls performed before it. The list is kept only when the call is accepted, yet from a
     * sound base the answer is always the one an object never evicted would give.
     */
    method Invoke(task: string, a: Action) returns (r: Outcome)
      requires Valid()
      modifies this
      ensures Valid()
      ensures var performed := old(Performed(live, table, task));
              && r == Applied(Run(base, performed), a).1
              && live == old(live)[task := TaskState(Applied(Run(base, performed), a).0, performed + [a])]
              && table == if r.Done? then old(table)[task := performed + [a]] else old(table)
      ensures asked == old(asked)[task := old(Asked(task)) + [a]]
      ensures Sound(base) ==> r == Applied(Run(base, old(Asked(task))), a).1
      ensures Sound(base) ==> live[task].db == Applied(Run(base, old(Asked(task))), a).0
    {
      var st := State(task);
      assert TaskOk(base, live, table, asked, task);
      if Sound(base) { CallTells(base, Calls(table, task), st.performed, Asked(task), a); }
      RunOneMore(base, st.performed, a);
      var (db, out) := Applied(st.db, a);
      Note(task, TaskState(db, st.performed + [a]), out.Done?, Asked(task) + [a]);
      r := out;
    }
  }

  /** From a sound base it never differs: no run of it reaches an action that stops half-way. */
  lemma SoundBaseNeverDiffers(base: Db)
    requires Sound(base)
    ensures !CanDiffer(base) && !CanStopHalfWay(base)
  {
    forall calls, a ensures !StopsHalfWay(Run(base, calls), a) {
      SoundThroughout(base, calls);
      RefusedButChangedExactlyWhen(Run(base, calls), a);
      if Applied(Run(base, calls), a).1.Refused? { RefusedChangesNothing(Run(base, calls), a); }
    }
    CanDifferExactlyWhen(base);
  }

  /** There is one from which it does: a refused cancellation left money that the kept calls do not. */
  lemma UnsoundBaseCanDiffer()
    ensures exists base: Db, a: Action :: !Sound(base) && Applied(base, a).1.Refused? && !ReplayTells(base, [a])
  {
    CancelCanStopHalfWay();
    var base: Db, a: Action :|
      Applied(base, a).1 == Refused(MethodNotFound) && Balance(Applied(base, a).0, "u", "card") == Balance(base, "u", "card") + 500;
    RunOneMore(base, [], a);
    assert [] + [a] == [a];
    assert !ReplayTells(base, [a]);
    if Sound(base) { SoundBaseNeverDiffers(base); }
  }
}
