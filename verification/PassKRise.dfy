// Exactly when pass^(k+1) cannot be above pass^k, whatever the trials of a run come to.
module PassKRise {
  import opened Binomial
  import opened PassK

  /** The same trials of the same tasks, whichever passed. */
  predicate SameTasks(a: seq<Row>, b: seq<Row>) {
    |a| == |b| && forall i :: 0 <= i < |a| ==> a[i].id == b[i].id
  }

  lemma {:induction false} SameTrials(a: seq<Row>, b: seq<Row>, id: string)
    requires SameTasks(a, b)
    ensures |TrialsOf(a, id)| == |TrialsOf(b, id)|
  {
    if a != [] { SameTrials(a[..|a| - 1], b[..|a| - 1], id); }
  }

  lemma {:induction false} SameSeen(a: seq<Row>, b: seq<Row>)
    requires SameTasks(a, b)
    ensures FirstSeen(a) == FirstSeen(b)
  {
    if a != [] { SameSeen(a[..|a| - 1], b[..|a| - 1]); }
  }

  lemma {:induction false} ListedHasTrial(rows: seq<Row>, id: string)
    requires id in FirstSeen(rows)
    ensures |TrialsOf(rows, id)| >= 1
  {
    var n := |rows| - 1;
    if id in FirstSeen(rows[..n]) { ListedHasTrial(rows[..n], id); }
  }

  // ----- The results under which the rate rises -----

  /** Every trial of these tasks passes, and no other. */
  function Scored(rows: seq<Row>, winners: set<string>): seq<Row> {
    seq(|rows|, i requires 0 <= i < |rows| => Row(rows[i].id, rows[i].id in winners))
  }

  lemma {:induction false} ScoredPasses(rows: seq<Row>, winners: set<string>, id: string)
    ensures var trials := TrialsOf(Scored(rows, winners), id);
            |trials| == |TrialsOf(rows, id)| && Passes(trials) == if id in winners then |trials| else 0
  {
    if rows != [] {
      var n := |rows| - 1;
      var before, last := Scored(rows[..n], winners), Row(rows[n].id, rows[n].id in winners);
      ScoredPasses(rows[..n], winners, id);
      assert Scored(rows, winners) == before + [last];
      TrialsOneMore(before, last, id);
      if last.id == id { PassesOneMore(TrialsOf(before, id), last); } else { assert TrialsOf(before, id) + [] == TrialsOf(before, id); }
    }
  }

  /** The tasks with a trial beyond the k-th. */
  function Beyond(rows: seq<Row>, k: nat): set<string> {
    set id | id in FirstSeen(rows) && |TrialsOf(rows, id)| > k
  }

  lemma TermOfCounts(rows: seq<Row>, id: string, n: nat, passed: nat, k: nat)
    requires |TrialsOf(rows, id)| == n && Passes(TrialsOf(rows, id)) == passed
    ensures Term(rows, id, k) == if n < k then Sum(0.0, 0) else Sum(Share(passed, n, k), 1)
  {
  }

  /** A task's part of a sum when all of its `n` trials pass if there are more than `k`, and none otherwise. */
  function AllOrNone(n: nat, k: nat): Sum {
    if n > k then Sum(1.0, 1) else if n == k then Sum(0.0, 1) else Sum(0.0, 0)
  }

  lemma AllPass(n: nat, k: nat)
    requires n > k
    ensures Share(n, n, k) == 1.0 && Share(n, n, k + 1) == 1.0
  {
    WholeShare(n, k);
    WholeShare(n, k + 1);
  }

  lemma ScoredTerm(rows: seq<Row>, winners: set<string>, id: string, k: nat)
    requires k >= 1 && (id in winners <==> |TrialsOf(rows, id)| > k)
    ensures var n := |TrialsOf(rows, id)|;
            && Term(Scored(rows, winners), id, k + 1) == (if n > k then Sum(1.0, 1) else Sum(0.0, 0))
            && Term(Scored(rows, winners), id, k) == AllOrNone(n, k)
  {
    ScoredPasses(rows, winners, id);
    var n := |TrialsOf(rows, id)|;
    var passed := if id in winners then n else 0;
    TermOfCounts(Scored(rows, winners), id, n, passed, k);
    TermOfCounts(Scored(rows, winners), id, n, passed, k + 1);
    if n > k { AllPass(n, k); } else if n == k { NoShare(k); }
  }

  lemma WholeShare(n: nat, k: nat)
    requires k <= n
    ensures Share(n, n, k) == 1.0
  {
    SomeWithin(n, k);
    Ratios(Binom(n, k) as real);
  }

  lemma NoShare(k: nat)
    requires k >= 1
    ensures Share(0, k, k) == 0.0
  {
    SomeWithin(k, k);
    NoneBeyond(0, k);
    Ratios(Binom(k, k) as real);
  }

  lemma Ratios(x: real)
    requires x > 0.0
    ensures x / x == 1.0 && 0.0 / x == 0.0
  {
  }

  predicate SomeWith(rows: seq<Row>, ids: seq<string>, k: nat) {
    exists i :: 0 <= i < |ids| && |TrialsOf(rows, ids[i])| == k
  }

  predicate SomeBeyond(rows: seq<Row>, ids: seq<string>, k: nat) {
    exists i :: 0 <= i < |ids| && |TrialsOf(rows, ids[i])| > k
  }

  lemma {:induction false} ScoredSums(rows: seq<Row>, winners: set<string>, ids: seq<string>, k: nat)
    requires k >= 1 && forall i :: 0 <= i < |ids| ==> (ids[i] in winners <==> |TrialsOf(rows, ids[i])| > k)
    ensures var high, low := SumOver(Scored(rows, winners), ids, k + 1), SumOver(Scored(rows, winners), ids, k);
            && high.total == low.total == high.tasks as real && high.tasks <= low.tasks
            && (SomeWith(rows, ids, k) ==> high.tasks < low.tasks) && (SomeBeyond(rows, ids, k) ==> high.tasks > 0)
  {
    if ids != [] {
      var n := |ids| - 1;
      ScoredSums(rows, winners, ids[..n], k);
      assert ids == ids[..n] + [ids[n]];
      SumOneMore(Scored(rows, winners), ids[..n], ids[n], k);
      SumOneMore(Scored(rows, winners), ids[..n], ids[n], k + 1);
      ScoredTerm(rows, winners, ids[n], k);
      SplitLast(rows, ids, k);
    }
  }

  lemma SplitLast(rows: seq<Row>, ids: seq<string>, k: nat)
    requires ids != []
    ensures SomeWith(rows, ids, k) ==> SomeWith(rows, ids[..|ids| - 1], k) || |TrialsOf(rows, ids[|ids| - 1])| == k
    ensures SomeBeyond(rows, ids, k) ==> SomeBeyond(rows, ids[..|ids| - 1], k) || |TrialsOf(rows, ids[|ids| - 1])| > k
  {
    var init := ids[..|ids| - 1];
    assert forall i :: 0 <= i < |init| ==> init[i] == ids[i];
  }

  /** A task that drops out, and one that does not: passing exactly the trials of those with one more makes the rate rise. */
  lemma ScoredRises(rows: seq<Row>, k: nat)
    requires SomeWith(rows, FirstSeen(rows), k) && SomeBeyond(rows, FirstSeen(rows), k)
    ensures SameTasks(Scored(rows, Beyond(rows, k)), rows)
    ensures Rate(Scored(rows, Beyond(rows, k)), k + 1) == 1.0 > Rate(Scored(rows, Beyond(rows, k)), k)
  {
    var ids, scored := FirstSeen(rows), Scored(rows, Beyond(rows, k));
    var i :| 0 <= i < |ids| && |TrialsOf(rows, ids[i])| == k;
    ListedHasTrial(rows, ids[i]);
    SameSeen(scored, rows);
    ScoredSums(rows, Beyond(rows, k), ids, k);
    Below(SumOver(scored, ids, k), SumOver(scored, ids, k + 1));
  }

  lemma Below(low: Sum, high: Sum)
    requires 0 < high.tasks < low.tasks && high.total == low.total == high.tasks as real
    ensures RateOf(low) < 1.0 == RateOf(high)
  {
    var x := low.total / low.tasks as real;
    assert x * low.tasks as real == low.total;
    assert x >= 1.0 ==> x * low.tasks as real >= low.tasks as real;
  }

  // ----- And where no results make it rise -----

  lemma {:induction false} NotNegative(rows: seq<Row>, ids: seq<string>, k: nat)
    ensures SumOver(rows, ids, k).total >= 0.0
  {
    if ids != [] {
      var n := |ids| - 1;
      NotNegative(rows, ids[..n], k);
      assert ids == ids[..n] + [ids[n]];
      SumOneMore(rows, ids[..n], ids[n], k);
      var trials := TrialsOf(rows, ids[n]);
      if |trials| >= k { ShareNotNegative(Passes(trials), |trials|, k); }
    }
  }

  lemma ShareNotNegative(passed: nat, n: nat, k: nat)
    requires k <= n
    ensures Share(passed, n, k) >= 0.0
  {
    SomeWithin(n, k);
  }

  lemma {:induction false} NoneCounted(rows: seq<Row>, ids: seq<string>, k: nat)
    requires !SomeBeyond(rows, ids, k)
    ensures SumOver(rows, ids, k + 1).tasks == 0
  {
    if ids != [] {
      var n := |ids| - 1;
      NoneInFront(rows, ids, k);
      NoneCounted(rows, ids[..n], k);
      assert ids == ids[..n] + [ids[n]];
      SumOneMore(rows, ids[..n], ids[n], k + 1);
    }
  }

  lemma NoneInFront(rows: seq<Row>, ids: seq<string>, k: nat)
    requires ids != [] && !SomeBeyond(rows, ids, k)
    ensures !SomeBeyond(rows, ids[..|ids| - 1], k) && Term(rows, ids[|ids| - 1], k + 1) == Sum(0.0, 0)
  {
    var init := ids[..|ids| - 1];
    assert |TrialsOf(rows, ids[|ids| - 1])| <= k;
    assert forall i :: 0 <= i < |init| ==> init[i] == ids[i];
  }

  lemma NoneRises(rows: seq<Row>, k: nat)
    requires !SomeBeyond(rows, FirstSeen(rows), k)
    ensures Rate(rows, k + 1) <= Rate(rows, k)
  {
    NoneCounted(rows, FirstSeen(rows), k);
    NotNegative(rows, FirstSeen(rows), k);
    var s := SumOver(rows, FirstSeen(rows), k);
    if s.tasks > 0 { DivideBoth(0.0, s.total, s.tasks as real); }
  }

  ghost predicate CanRise(rows: seq<Row>, k: nat) {
    exists other :: SameTasks(other, rows) && Rate(other, k + 1) > Rate(other, k)
  }

  /**
   * Some results of these trials make the rate rise from k to k + 1 exactly when some task ran k trials and no more
   * while another ran more. Where all the tasks with k trials have one more, or none has, no results do.
   */
  lemma RisesExactlyWhen(rows: seq<Row>, k: nat)
    ensures CanRise(rows, k) <==> SomeWith(rows, FirstSeen(rows), k) && SomeBeyond(rows, FirstSeen(rows), k)
  {
    var ids := FirstSeen(rows);
    if SomeWith(rows, ids, k) && SomeBeyond(rows, ids, k) {
      ScoredRises(rows, k);
    } else {
      forall other | SameTasks(other, rows) ensures Rate(other, k + 1) <= Rate(other, k) {
        SameSeen(other, rows);
        forall i | 0 <= i < |ids| ensures |TrialsOf(other, ids[i])| == |TrialsOf(rows, ids[i])| { SameTrials(other, rows, ids[i]); }
        if SomeBeyond(rows, ids, k) { RateFalls(other, k); } else { NoneRises(other, k); }
      }
    }
  }
}
