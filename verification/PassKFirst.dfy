// Exactly when the first-k reading is the same in whatever order the trials ran.
module PassKFirst {
  import opened Binomial
  import opened PassK

  /** Whether a task counts in the first-k reading. */
  function FirstTerm(rows: seq<Row>, id: string, k: nat): nat {
    var trials := TrialsOf(rows, id);
    if |trials| >= k && FirstPass(trials, k) then 1 else 0
  }

  /** The tasks whose first k trials all passed. */
  function FirstReading(rows: seq<Row>, k: nat): nat {
    CountFirst(rows, FirstSeen(rows), k)
  }

  // ----- The order of the tasks does not matter -----

  lemma {:induction false} TakeFirstOut(rows: seq<Row>, ids: seq<string>, at: nat, k: nat)
    requires at < |ids|
    ensures CountFirst(rows, ids, k) == CountFirst(rows, Without(ids, at), k) + FirstTerm(rows, ids[at], k)
  {
    var n := |ids| - 1;
    if at == n {
      assert Without(ids, at) == ids[..n];
    } else {
      TakeFirstOut(rows, ids[..n], at, k);
      var rest := Without(ids, at);
      assert rest == Without(ids[..n], at) + [ids[n]];
      assert rest[..|rest| - 1] == Without(ids[..n], at);
    }
  }

  lemma {:induction false} SameCounts(a: seq<Row>, b: seq<Row>, ids: seq<string>, others: seq<string>, k: nat)
    requires Distinct(ids) && Distinct(others) && forall id :: id in ids <==> id in others
    requires forall id :: id in ids ==> FirstTerm(a, id, k) == FirstTerm(b, id, k)
    ensures CountFirst(a, ids, k) == CountFirst(b, others, k)
    decreases |ids|
  {
    if ids == [] {
      SomeListed(others);
    } else {
      var n := |ids| - 1;
      var last := ids[n];
      assert last in ids && last in others;
      var at :| 0 <= at < |others| && others[at] == last;
      RestIsDistinct(others, at);
      RestIsDistinct(ids, n);
      SameCounts(a, b, Without(ids, n), Without(others, at), k);
      TakeFirstOut(a, ids, n, k);
      TakeFirstOut(b, others, at, k);
    }
  }

  lemma SameRowsSameTasks(a: seq<Row>, b: seq<Row>)
    requires multiset(a) == multiset(b)
    ensures Distinct(FirstSeen(a)) && Distinct(FirstSeen(b)) && forall id :: id in FirstSeen(a) <==> id in FirstSeen(b)
  {
    FirstSeenIsAll(a);
    FirstSeenIsAll(b);
    forall id ensures id in FirstSeen(a) <==> id in FirstSeen(b) {
      SeenByMultiset(a, id);
      SeenByMultiset(b, id);
    }
  }

  // ----- Tasks all of one kind -----

  /** The task ran k trials or more, and among them are a failure and k passes. */
  predicate Mixed(rows: seq<Row>, id: string, k: nat) {
    var trials := TrialsOf(rows, id);
    |trials| >= k && k <= Passes(trials) < |trials|
  }

  predicate NoneMixed(rows: seq<Row>, k: nat) {
    forall id :: id in FirstSeen(rows) ==> !Mixed(rows, id, k)
  }

  lemma {:induction false} PassesOfStart(trials: seq<Row>, k: nat)
    requires k <= |trials|
    ensures FirstPass(trials, k) ==> Passes(trials) >= k
    ensures Passes(trials) == |trials| ==> FirstPass(trials, k)
  {
    if trials != [] {
      var n := |trials| - 1;
      if k <= n {
        PassesOfStart(trials[..n], k);
        assert FirstPass(trials[..n], k) <==> FirstPass(trials, k);
      } else {
        AllPassed(trials);
      }
    }
  }

  lemma UnmixedTerm(rows: seq<Row>, id: string, k: nat)
    requires !Mixed(rows, id, k)
    ensures var trials := TrialsOf(rows, id); FirstTerm(rows, id, k) == if |trials| >= k && Passes(trials) == |trials| then 1 else 0
  {
    if |TrialsOf(rows, id)| >= k { PassesOfStart(TrialsOf(rows, id), k); }
  }

  lemma UnmixedIsOrderFree(a: seq<Row>, b: seq<Row>, k: nat)
    requires multiset(a) == multiset(b) && NoneMixed(a, k)
    ensures FirstReading(a, k) == FirstReading(b, k)
  {
    SameRowsSameTasks(a, b);
    forall id | id in FirstSeen(a) ensures FirstTerm(a, id, k) == FirstTerm(b, id, k) {
      CountsOfTask(a, id);
      CountsOfTask(b, id);
      UnmixedTerm(a, id, k);
      UnmixedTerm(b, id, k);
    }
    SameCounts(a, b, FirstSeen(a), FirstSeen(b), k);
  }

  // ----- A mixed task, its passes first or its failures first -----

  lemma {:induction false} TrialsOfBoth(a: seq<Row>, b: seq<Row>, id: string)
    ensures TrialsOf(a + b, id) == TrialsOf(a, id) + TrialsOf(b, id)
  {
    if b == [] {
      assert a + b == a;
    } else {
      var n := |b| - 1;
      assert (a + b)[..|a + b| - 1] == a + b[..n];
      TrialsOfBoth(a, b[..n], id);
    }
  }

  datatype Part = Passing | Failing | Another

  /** Which of the task's rows it is, or another's. */
  function PartOf(r: Row, id: string): Part {
    if r.id != id then Another else if r.passed then Passing else Failing
  }

  function Pick(rows: seq<Row>, id: string, part: Part): (picked: seq<Row>)
    ensures forall i :: 0 <= i < |picked| ==> PartOf(picked[i], id) == part
  {
    if rows == [] then []
    else
      var last := rows[|rows| - 1];
      Pick(rows[..|rows| - 1], id, part) + if PartOf(last, id) == part then [last] else []
  }

  lemma PickOneMore(rows: seq<Row>, id: string, part: Part)
    requires rows != []
    ensures var last := rows[|rows| - 1];
            multiset(Pick(rows, id, part)) ==
              multiset(Pick(rows[..|rows| - 1], id, part)) + if PartOf(last, id) == part then multiset{last} else multiset{}
  {
  }

  lemma LastApart(rows: seq<Row>)
    requires rows != []
    ensures multiset(rows) == multiset(rows[..|rows| - 1]) + multiset{rows[|rows| - 1]}
  {
    assert rows == rows[..|rows| - 1] + [rows[|rows| - 1]];
  }

  lemma AddToOne(a: multiset<Row>, b: multiset<Row>, c: multiset<Row>, x: multiset<Row>, part: Part)
    ensures (a + if part.Passing? then x else multiset{}) + (b + if part.Failing? then x else multiset{})
            + (c + if part.Another? then x else multiset{}) == (a + b + c) + x
  {
  }

  lemma {:induction false} PartsAreAll(rows: seq<Row>, id: string)
    ensures multiset(Pick(rows, id, Passing)) + multiset(Pick(rows, id, Failing)) + multiset(Pick(rows, id, Another)) == multiset(rows)
  {
    if rows != [] {
      var init, last := rows[..|rows| - 1], rows[|rows| - 1];
      PartsAreAll(init, id);
      PickOneMore(rows, id, Passing);
      PickOneMore(rows, id, Failing);
      PickOneMore(rows, id, Another);
      LastApart(rows);
      AddToOne(multiset(Pick(init, id, Passing)), multiset(Pick(init, id, Failing)), multiset(Pick(init, id, Another)), multiset{last}, PartOf(last, id));
    }
  }

  lemma {:induction false} PartsOfTrials(rows: seq<Row>, id: string)
    ensures |Pick(rows, id, Passing)| == Passes(TrialsOf(rows, id))
    ensures |Pick(rows, id, Passing)| + |Pick(rows, id, Failing)| == |TrialsOf(rows, id)|
  {
    if rows != [] {
      var n := |rows| - 1;
      PartsOfTrials(rows[..n], id);
      if rows[n].id == id { PassesOneMore(TrialsOf(rows[..n], id), rows[n]); } else { assert TrialsOf(rows[..n], id) + [] == TrialsOf(rows[..n], id); }
    }
  }

  /** Rows of one task are its trials, and no other's. */
  lemma {:induction false} TrialsOfOwn(rows: seq<Row>, id: string, other: string)
    requires forall i :: 0 <= i < |rows| ==> rows[i].id == id
    ensures TrialsOf(rows, other) == if other == id then rows else []
  {
    if rows != [] {
      var n := |rows| - 1;
      var init, last := rows[..n], rows[n];
      assert rows == init + [last];
      TrialsOfOwn(init, id, other);
      TrialsOneMore(init, last, other);
    }
  }

  lemma {:induction false} TrialsOfNone(rows: seq<Row>, id: string)
    requires forall i :: 0 <= i < |rows| ==> rows[i].id != id
    ensures TrialsOf(rows, id) == []
  {
    if rows != [] { TrialsOfNone(rows[..|rows| - 1], id); }
  }

  /** The rows with the task's own first, its passes or its failures first of all. */
  function Sorted(rows: seq<Row>, id: string, passesFirst: bool): seq<Row> {
    Own(rows, id, passesFirst) + Pick(rows, id, Another)
  }

  function Own(rows: seq<Row>, id: string, passesFirst: bool): (own: seq<Row>)
    ensures forall i :: 0 <= i < |own| ==> own[i].id == id
  {
    if passesFirst then Pick(rows, id, Passing) + Pick(rows, id, Failing) else Pick(rows, id, Failing) + Pick(rows, id, Passing)
  }

  lemma SortedIsSame(rows: seq<Row>, id: string, passesFirst: bool)
    ensures multiset(Sorted(rows, id, passesFirst)) == multiset(rows)
  {
    PartsAreAll(rows, id);
  }

  lemma SortedTrials(rows: seq<Row>, id: string, passesFirst: bool, other: string)
    ensures TrialsOf(Sorted(rows, id, passesFirst), other) ==
      if other == id then Own(rows, id, passesFirst) else TrialsOf(Pick(rows, id, Another), other)
  {
    var own, others := Own(rows, id, passesFirst), Pick(rows, id, Another);
    TrialsOfBoth(own, others, other);
    TrialsOfOwn(own, id, other);
    if other == id {
      TrialsOfNone(others, id);
      assert own + [] == own;
    } else {
      assert [] + TrialsOf(others, other) == TrialsOf(others, other);
    }
  }

  lemma MixedTerms(rows: seq<Row>, id: string, k: nat)
    requires k >= 1 && Mixed(rows, id, k)
    ensures FirstTerm(Sorted(rows, id, true), id, k) == 1 && FirstTerm(Sorted(rows, id, false), id, k) == 0
  {
    PartsOfTrials(rows, id);
    SortedTrials(rows, id, true, id);
    SortedTrials(rows, id, false, id);
    assert Own(rows, id, false)[0] == Pick(rows, id, Failing)[0];
  }

  /** The two orders of a mixed task's trials give readings one apart. */
  lemma MixedReadings(rows: seq<Row>, id: string, k: nat)
    requires k >= 1 && id in FirstSeen(rows) && Mixed(rows, id, k)
    ensures FirstReading(Sorted(rows, id, true), k) == FirstReading(Sorted(rows, id, false), k) + 1
  {
    var a, b := Sorted(rows, id, true), Sorted(rows, id, false);
    SortedIsSame(rows, id, true);
    SortedIsSame(rows, id, false);
    SameRowsSameTasks(rows, a);
    SameRowsSameTasks(a, b);
    var ids, others := FirstSeen(a), FirstSeen(b);
    var i :| 0 <= i < |ids| && ids[i] == id;
    assert id in others;
    var j :| 0 <= j < |others| && others[j] == id;
    RestIsDistinct(ids, i);
    RestIsDistinct(others, j);
    forall other | other in Without(ids, i) ensures FirstTerm(a, other, k) == FirstTerm(b, other, k) {
      SortedTrials(rows, id, true, other);
      SortedTrials(rows, id, false, other);
    }
    SameCounts(a, b, Without(ids, i), Without(others, j), k);
    TakeFirstOut(a, ids, i, k);
    TakeFirstOut(b, others, j, k);
    MixedTerms(rows, id, k);
  }

  ghost predicate OrderFreeReading(rows: seq<Row>, k: nat) {
    forall other :: multiset(other) == multiset(rows) ==> FirstReading(other, k) == FirstReading(rows, k)
  }

  /**
   * The first-k reading is the same in every order of the rows exactly when no task with k trials or more has both a
   * failure and k passes.
   */
  lemma FirstKIsOrderFreeExactlyWhen(rows: seq<Row>, k: nat)
    requires k >= 1
    ensures OrderFreeReading(rows, k) <==> NoneMixed(rows, k)
  {
    if NoneMixed(rows, k) {
      forall other | multiset(other) == multiset(rows) ensures FirstReading(other, k) == FirstReading(rows, k) {
        UnmixedIsOrderFree(rows, other, k);
      }
    } else {
      var id :| id in FirstSeen(rows) && Mixed(rows, id, k);
      MixedReadings(rows, id, k);
      SortedIsSame(rows, id, true);
      SortedIsSame(rows, id, false);
      assert multiset(Sorted(rows, id, true)) == multiset(Sorted(rows, id, false)) == multiset(rows);
    }
  }
}
