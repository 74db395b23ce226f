/** The two readings of pass^k: over every draw of k trials, and over the first k in run order. */
module PassK {
  import opened Binomial

  datatype Row = Row(id: string, passed: bool)

  /** A task's rows in run order. */
  function TrialsOf(rows: seq<Row>, id: string): (trials: seq<Row>)
    ensures forall t :: t in trials ==> t.id == id
  {
    if rows == [] then []
    else
      var last := rows[|rows| - 1];
      TrialsOf(rows[..|rows| - 1], id) + if last.id == id then [last] else []
  }

  /** The tasks in the order a row of theirs is first seen. */
  function FirstSeen(rows: seq<Row>): seq<string> {
    if rows == [] then []
    else
      var before := FirstSeen(rows[..|rows| - 1]);
      var id := rows[|rows| - 1].id;
      if id in before then before else before + [id]
  }

  predicate Distinct(ids: seq<string>) {
    forall i, j :: 0 <= i < j < |ids| ==> ids[i] != ids[j]
  }

  lemma TrialsOneMore(rows: seq<Row>, r: Row, id: string)
    ensures TrialsOf(rows + [r], id) == TrialsOf(rows, id) + if r.id == id then [r] else []
  {
    assert (rows + [r])[..|rows|] == rows;
  }

  lemma SeenOneMore(rows: seq<Row>, r: Row)
    ensures FirstSeen(rows + [r]) == FirstSeen(rows) + if r.id in FirstSeen(rows) then [] else [r.id]
  {
    assert (rows + [r])[..|rows|] == rows;
  }

  lemma PassesOneMore(trials: seq<Row>, r: Row)
    ensures Passes(trials + [r]) == Passes(trials) + if r.passed then 1 else 0
  {
    assert (trials + [r])[..|trials|] == trials;
  }

  predicate HasRow(rows: seq<Row>, id: string) {
    exists i :: 0 <= i < |rows| && rows[i].id == id
  }

  /** Every task that has a row, once. */
  ghost predicate Lists(ids: seq<string>, rows: seq<Row>) {
    Distinct(ids) && forall id :: id in ids <==> HasRow(rows, id)
  }

  lemma {:induction false} FirstSeenIsAll(rows: seq<Row>)
    ensures Lists(FirstSeen(rows), rows)
  {
    if rows != [] {
      var n := |rows| - 1;
      FirstSeenIsAll(rows[..n]);
      forall id ensures HasRow(rows, id) <==> HasRow(rows[..n], id) || rows[n].id == id {
        assert forall i :: 0 <= i < n ==> rows[..n][i] == rows[i];
      }
    }
  }

  function Passes(trials: seq<Row>): (n: nat)
    ensures n <= |trials|
  {
    if trials == [] then 0
    else Passes(trials[..|trials| - 1]) + if trials[|trials| - 1].passed then 1 else 0
  }

  /** The share of draws of `k` out of `n` that avoid the trials that failed. */
  function Share(passed: nat, n: nat, k: nat): real
    requires k <= n
  {
    SomeWithin(n, k);
    Binom(passed, k) as real / Binom(n, k) as real
  }

  function TaskShare(trials: seq<Row>, k: nat): real
    requires k <= |trials|
  {
    Share(Passes(trials), |trials|, k)
  }

  // ----- What a share means -----

  ghost function Indices(n: nat): (all: set<nat>)
    ensures |all| == n && forall i: nat :: i in all <==> i < n
  {
    if n == 0 then {} else Indices(n - 1) + {n - 1}
  }

  ghost function Winning(trials: seq<Row>): set<nat> {
    set i: nat | i < |trials| && trials[i].passed
  }

  lemma {:induction false} WinningCount(trials: seq<Row>)
    ensures |Winning(trials)| == Passes(trials)
  {
    if trials != [] {
      var n := |trials| - 1;
      WinningCount(trials[..n]);
      assert Winning(trials) == Winning(trials[..n]) + if trials[n].passed then {n} else {};
    }
  }

  /** The draws of `k` of a task's trials that all pass. */
  ghost function WinningDraws(trials: seq<Row>, k: nat): set<set<nat>> {
    set t | t in Draws(Indices(|trials|), k) && forall i :: i in t ==> i < |trials| && trials[i].passed
  }

  /** A task's share is the fraction of all draws of k of its trials in which all k pass. */
  lemma ShareIsTheFraction(trials: seq<Row>, k: nat)
    requires k <= |trials|
    ensures |Draws(Indices(|trials|), k)| > 0
    ensures TaskShare(trials, k) == |WinningDraws(trials, k)| as real / |Draws(Indices(|trials|), k)| as real
  {
    DrawsCount(Indices(|trials|), k);
    SomeWithin(|trials|, k);
    DrawsCount(Winning(trials), k);
    WinningCount(trials);
    assert WinningDraws(trials, k) == Draws(Winning(trials), k);
  }

  // ----- The run's rate -----

  datatype Sum = Sum(total: real, tasks: nat)

  function Term(rows: seq<Row>, id: string, k: nat): Sum {
    var trials := TrialsOf(rows, id);
    if |trials| < k then Sum(0.0, 0) else Sum(TaskShare(trials, k), 1)
  }

  function Plus(a: Sum, b: Sum): Sum {
    Sum(a.total + b.total, a.tasks + b.tasks)
  }

  function AddUp(terms: seq<Sum>): Sum {
    if terms == [] then Sum(0.0, 0) else Plus(AddUp(terms[..|terms| - 1]), terms[|terms| - 1])
  }

  function Terms(rows: seq<Row>, ids: seq<string>, k: nat): seq<Sum> {
    seq(|ids|, i requires 0 <= i < |ids| => Term(rows, ids[i], k))
  }

  function SumOver(rows: seq<Row>, ids: seq<string>, k: nat): Sum {
    AddUp(Terms(rows, ids, k))
  }

  lemma AddOneMore(terms: seq<Sum>, t: Sum)
    ensures AddUp(terms + [t]) == Plus(AddUp(terms), t)
  {
    assert (terms + [t])[..|terms|] == terms;
  }

  lemma SumOneMore(rows: seq<Row>, ids: seq<string>, id: string, k: nat)
    ensures SumOver(rows, ids + [id], k) == Plus(SumOver(rows, ids, k), Term(rows, id, k))
  {
    var before, t := Terms(rows, ids, k), Term(rows, id, k);
    assert Terms(rows, ids + [id], k) == before + [t];
    AddOneMore(before, t);
  }

  function RateOf(s: Sum): real {
    if s.tasks == 0 then 0.0 else s.total / s.tasks as real
  }

  /** The mean of the shares over the tasks with at least k trials. */
  function Rate(rows: seq<Row>, k: nat): real {
    RateOf(SumOver(rows, FirstSeen(rows), k))
  }

  predicate FirstPass(trials: seq<Row>, k: nat)
    requires k <= |trials|
  {
    forall i :: 0 <= i < k ==> trials[i].passed
  }

  function CountFirst(rows: seq<Row>, ids: seq<string>, k: nat): nat {
    if ids == [] then 0
    else
      var trials := TrialsOf(rows, ids[|ids| - 1]);
      CountFirst(rows, ids[..|ids| - 1], k) + if |trials| >= k && FirstPass(trials, k) then 1 else 0
  }

  function GroupOf(out: map<string, seq<Row>>, id: string): seq<Row> {
    if id in out then out[id] else []
  }

  /** The trials grouped by task, tasks in first-seen order. */
  method ByTask(rows: seq<Row>) returns (groups: seq<seq<Row>>)
    ensures |groups| == |FirstSeen(rows)|
    ensures forall i :: 0 <= i < |groups| ==> groups[i] == TrialsOf(rows, FirstSeen(rows)[i])
  {
    var keys: seq<string> := [];
    var out: map<string, seq<Row>> := map[];
    for n := 0 to |rows|
      invariant Grouped(rows[..n], keys, out)
    {
      var r := rows[n];
      GroupedOneMore(rows[..n], keys, out, r);
      if r.id !in out { keys := keys + [r.id]; }
      out := out[r.id := GroupOf(out, r.id) + [r]];
      assert rows[..n + 1] == rows[..n] + [r];
    }
    assert rows[..|rows|] == rows;
    groups := InOrder(keys, out);
  }

  method InOrder(keys: seq<string>, out: map<string, seq<Row>>) returns (groups: seq<seq<Row>>)
    requires forall id :: id in keys ==> id in out
    ensures |groups| == |keys| && forall j :: 0 <= j < |keys| ==> groups[j] == GroupOf(out, keys[j])
  {
    groups := [];
    for i := 0 to |keys|
      invariant |groups| == i
      invariant forall j :: 0 <= j < i ==> groups[j] == GroupOf(out, keys[j])
    {
      groups := groups + [out[keys[i]]];
    }
  }

  /** The keys as first seen, and each one's rows. */
  ghost predicate Grouped(rows: seq<Row>, keys: seq<string>, out: map<string, seq<Row>>) {
    && keys == FirstSeen(rows) && (forall id :: id in keys <==> id in out)
    && (forall id :: GroupOf(out, id) == TrialsOf(rows, id))
  }

  lemma GroupedOneMore(rows: seq<Row>, keys: seq<string>, out: map<string, seq<Row>>, r: Row)
    requires Grouped(rows, keys, out)
    ensures Grouped(rows + [r], if r.id in out then keys else keys + [r.id], out[r.id := GroupOf(out, r.id) + [r]])
  {
    SeenOneMore(rows, r);
    var more := out[r.id := GroupOf(out, r.id) + [r]];
    assert r.id in out ==> keys + [] == keys;
    forall id ensures GroupOf(more, id) == TrialsOf(rows + [r], id) {
      TrialsOneMore(rows, r, id);
      assert GroupOf(out, id) == TrialsOf(rows, id) && TrialsOf(rows, id) + [] == TrialsOf(rows, id);
    }
  }

  method CountPasses(trials: seq<Row>) returns (n: nat)
    ensures n == Passes(trials)
  {
    n := 0;
    for i := 0 to |trials|
      invariant n == Passes(trials[..i])
    {
      assert trials[..i + 1][..i] == trials[..i];
      if trials[i].passed { n := n + 1; }
    }
    assert trials[..|trials|] == trials;
  }

  method PassAllKTrials(rows: seq<Row>, k: nat) returns (rate: real, tasks: nat)
    ensures rate == Rate(rows, k) && tasks == SumOver(rows, FirstSeen(rows), k).tasks
  {
    var groups := ByTask(rows);
    ghost var ids := FirstSeen(rows);
    var sum := 0.0;
    tasks := 0;
    for i := 0 to |groups|
      invariant Sum(sum, tasks) == SumOver(rows, ids[..i], k)
    {
      assert ids[..i + 1] == ids[..i] + [ids[i]];
      SumOneMore(rows, ids[..i], ids[i], k);
      if |groups[i]| >= k {
        tasks := tasks + 1;
        var passed := CountPasses(groups[i]);
        var good := Choose(passed, k);
        var all := Choose(|groups[i]|, k);
        SomeWithin(|groups[i]|, k);
        sum := sum + good as real / all as real;
      }
    }
    assert ids[..|ids|] == ids;
    rate := if tasks != 0 then sum / tasks as real else 0.0;
  }

  method PassFirstKTrials(rows: seq<Row>, k: nat) returns (passed: nat, tasks: nat)
    ensures passed == CountFirst(rows, FirstSeen(rows), k) && tasks == SumOver(rows, FirstSeen(rows), k).tasks
  {
    var groups := ByTask(rows);
    ghost var ids := FirstSeen(rows);
    passed, tasks := 0, 0;
    for i := 0 to |groups|
      invariant tasks == SumOver(rows, ids[..i], k).tasks && passed == CountFirst(rows, ids[..i], k)
    {
      OneMoreTask(rows, ids, i, k);
      if |groups[i]| >= k {
        tasks := tasks + 1;
        if FirstPass(groups[i], k) { passed := passed + 1; }
      }
    }
    assert ids[..|ids|] == ids;
  }

  lemma OneMoreTask(rows: seq<Row>, ids: seq<string>, i: nat, k: nat)
    requires i < |ids|
    ensures var trials := TrialsOf(rows, ids[i]);
            && SumOver(rows, ids[..i + 1], k).tasks == SumOver(rows, ids[..i], k).tasks + (if |trials| >= k then 1 else 0)
            && CountFirst(rows, ids[..i + 1], k) == CountFirst(rows, ids[..i], k) + if |trials| >= k && FirstPass(trials, k) then 1 else 0
  {
    assert ids[..i + 1] == ids[..i] + [ids[i]];
    SumOneMore(rows, ids[..i], ids[i], k);
    FirstOneMore(rows, ids[..i], ids[i], k);
  }

  // ----- Order-free -----

  lemma {:induction false} CountsOfTask(rows: seq<Row>, id: string)
    ensures Passes(TrialsOf(rows, id)) == multiset(rows)[Row(id, true)]
    ensures |TrialsOf(rows, id)| == multiset(rows)[Row(id, true)] + multiset(rows)[Row(id, false)]
  {
    if rows != [] {
      var n := |rows| - 1;
      var r := rows[n];
      CountsOfTask(rows[..n], id);
      assert rows == rows[..n] + [r];
      TrialsOneMore(rows[..n], r, id);
      var before := TrialsOf(rows[..n], id);
      if r.id == id {
        PassesOneMore(before, r);
      } else {
        assert before + [] == before;
      }
      assert multiset(rows) == multiset(rows[..n]) + multiset{r};
    }
  }

  function Without<T>(items: seq<T>, at: nat): seq<T>
    requires at < |items|
  {
    items[..at] + items[at + 1..]
  }

  lemma {:induction false} TakeTermOut(terms: seq<Sum>, at: nat)
    requires at < |terms|
    ensures AddUp(terms) == Plus(AddUp(Without(terms, at)), terms[at])
  {
    var n := |terms| - 1;
    var init, last := terms[..n], terms[n];
    assert terms == init + [last];
    if at == n {
      assert Without(terms, at) == init;
    } else {
      TakeTermOut(init, at);
      assert Without(terms, at) == Without(init, at) + [last];
      AddOneMore(Without(init, at), last);
    }
  }

  lemma TakeOut(rows: seq<Row>, ids: seq<string>, at: nat, k: nat)
    requires at < |ids|
    ensures SumOver(rows, ids, k) == Plus(SumOver(rows, Without(ids, at), k), Term(rows, ids[at], k))
  {
    TakeTermOut(Terms(rows, ids, k), at);
    assert Without(Terms(rows, ids, k), at) == Terms(rows, Without(ids, at), k);
  }

  lemma SameTerm(a: seq<Row>, b: seq<Row>, id: string, k: nat)
    requires multiset(a) == multiset(b)
    ensures Term(a, id, k) == Term(b, id, k)
  {
    CountsOfTask(a, id);
    CountsOfTask(b, id);
  }

  lemma SomeListed(ids: seq<string>)
    ensures ids == [] || exists id :: id in ids
  {
    if ids != [] { assert ids[0] in ids; }
  }

  /** The sum depends on which tasks there are and on their rows, not on the order of either. */
  lemma {:induction false} SameSums(a: seq<Row>, b: seq<Row>, ids: seq<string>, others: seq<string>, k: nat)
    requires multiset(a) == multiset(b)
    requires Distinct(ids) && Distinct(others) && forall id :: id in ids <==> id in others
    ensures SumOver(a, ids, k) == SumOver(b, others, k)
    decreases |ids|
  {
    if ids == [] {
      SomeListed(others);
    } else {
      var n := |ids| - 1;
      var init, last := ids[..n], ids[n];
      assert ids == init + [last] && last in others;
      var at :| 0 <= at < |others| && others[at] == last;
      RestIsDistinct(others, at);
      RestIsDistinct(ids, n);
      assert Without(ids, n) == init;
      SameSums(a, b, init, Without(others, at), k);
      SumOneMore(a, init, last, k);
      TakeOut(b, others, at, k);
      SameTerm(a, b, last, k);
    }
  }

  lemma RestIsDistinct(ids: seq<string>, at: nat)
    requires Distinct(ids) && at < |ids|
    ensures Distinct(Without(ids, at))
    ensures forall id :: id in Without(ids, at) <==> id in ids && id != ids[at]
  {
    var rest := Without(ids, at);
    assert forall i :: 0 <= i < |rest| ==> rest[i] == if i < at then ids[i] else ids[i + 1];
    forall id | id in ids && id != ids[at] ensures id in rest {
      var i :| 0 <= i < |ids| && ids[i] == id;
      assert rest[if i < at then i else i - 1] == id;
    }
  }

  /** Permuting the rows changes neither the rate nor the number of tasks it is over. */
  lemma OrderFree(a: seq<Row>, b: seq<Row>, k: nat)
    requires multiset(a) == multiset(b)
    ensures Rate(a, k) == Rate(b, k) && SumOver(a, FirstSeen(a), k).tasks == SumOver(b, FirstSeen(b), k).tasks
  {
    FirstSeenIsAll(a);
    FirstSeenIsAll(b);
    forall id ensures id in FirstSeen(a) <==> id in FirstSeen(b) {
      SeenByMultiset(a, id);
      SeenByMultiset(b, id);
    }
    SameSums(a, b, FirstSeen(a), FirstSeen(b), k);
  }

  lemma SeenByMultiset(rows: seq<Row>, id: string)
    ensures id in FirstSeen(rows) <==> Row(id, true) in multiset(rows) || Row(id, false) in multiset(rows)
  {
    FirstSeenIsAll(rows);
    if HasRow(rows, id) {
      var i :| 0 <= i < |rows| && rows[i].id == id;
      assert rows[i] == Row(id, rows[i].passed) && rows[i] in multiset(rows);
    }
    assert forall b :: Row(id, b) in multiset(rows) ==> Row(id, b) in rows;
    assert forall b :: Row(id, b) in rows ==> HasRow(rows, id);
  }

  /** The first-k reading is not: one failure in two trials counts or not by where it fell. */
  lemma FirstKIsNotOrderFree(win: Row, lose: Row)
    requires win.id == lose.id && win.passed && !lose.passed
    ensures multiset([win, lose]) == multiset([lose, win])
    ensures CountFirst([win, lose], FirstSeen([win, lose]), 1) == 1
    ensures CountFirst([lose, win], FirstSeen([lose, win]), 1) == 0
  {
    FirstOfTwo(win, lose);
    FirstOfTwo(lose, win);
    EitherOrder(win, lose);
  }

  lemma EitherOrder(a: Row, b: Row)
    ensures multiset([a, b]) == multiset([b, a])
  {
  }

  lemma FirstOfTwo(a: Row, b: Row)
    requires a.id == b.id
    ensures CountFirst([a, b], FirstSeen([a, b]), 1) == if a.passed then 1 else 0
  {
    TwoRows(a, b);
  }

  lemma FirstOneMore(rows: seq<Row>, ids: seq<string>, id: string, k: nat)
    ensures CountFirst(rows, ids + [id], k)
         == CountFirst(rows, ids, k) + if |TrialsOf(rows, id)| >= k && FirstPass(TrialsOf(rows, id), k) then 1 else 0
  {
    assert (ids + [id])[..|ids|] == ids;
  }

  lemma TwoRows(a: Row, b: Row)
    requires a.id == b.id
    ensures FirstSeen([a, b]) == [a.id] && TrialsOf([a, b], a.id) == [a, b]
    ensures CountFirst([a, b], [a.id], 1) == if a.passed then 1 else 0
  {
    assert [] + [a] == [a] && [a] + [b] == [a, b] && [] + [a.id] == [a.id];
    SeenOneMore([], a);
    SeenOneMore([a], b);
    TrialsOneMore([], a, a.id);
    TrialsOneMore([a], b, a.id);
    FirstOneMore([a, b], [], a.id, 1);
  }

  // ----- Falling in k -----

  lemma ShareFalls(passed: nat, n: nat, k: nat)
    requires passed <= n && k + 1 <= n
    ensures 0.0 <= Share(passed, n, k + 1) <= Share(passed, n, k)
  {
    var p0, p1, n0, n1 := Binom(passed, k), Binom(passed, k + 1), Binom(n, k), Binom(n, k + 1);
    SomeWithin(n, k);
    SomeWithin(n, k + 1);
    if k < passed {
      Along(passed, k);
      Along(n, k);
      CrossMultiply(p0, p1, n0, n1, passed - k, n - k, k + 1);
    } else {
      NoneBeyond(passed, k + 1);
    }
    Fractions(p0, p1, n0, n1);
  }

  lemma CrossMultiply(p0: nat, p1: nat, n0: nat, n1: nat, a: nat, b: nat, m: nat)
    requires m > 0 && a <= b && m * p1 == a * p0 && m * n1 == b * n0
    ensures p1 * n0 <= p0 * n1
  {
    assert m * (p1 * n0) == (m * p1) * n0 == (a * p0) * n0 == a * (p0 * n0);
    assert m * (p0 * n1) == p0 * (m * n1) == p0 * (b * n0) == b * (p0 * n0);
    assert a * (p0 * n0) <= b * (p0 * n0);
  }

  lemma Fractions(p0: nat, p1: nat, n0: nat, n1: nat)
    requires n0 > 0 && n1 > 0 && p1 * n0 <= p0 * n1
    ensures 0.0 <= p1 as real / n1 as real <= p0 as real / n0 as real
  {
    assert (p1 * n0) as real == p1 as real * n0 as real && (p0 * n1) as real == p0 as real * n1 as real;
    RealFractions(p0 as real, p1 as real, n0 as real, n1 as real);
  }

  lemma RealFractions(p0: real, p1: real, n0: real, n1: real)
    requires n0 > 0.0 && n1 > 0.0 && p1 * n0 <= p0 * n1
    ensures p1 / n1 <= p0 / n0
  {
    var x, y := p1 / n1, p0 / n0;
    assert x * n1 == p1 && y * n0 == p0;
    assert x > y ==> (x - y) * (n0 * n1) > 0.0;
    assert (x - y) * (n0 * n1) == (x * n1) * n0 - (y * n0) * n1;
  }

  /** Every task with k trials has another. */
  predicate EnoughFor(rows: seq<Row>, ids: seq<string>, k: nat) {
    forall i :: 0 <= i < |ids| && |TrialsOf(rows, ids[i])| >= k ==> |TrialsOf(rows, ids[i])| >= k + 1
  }

  lemma {:induction false} SumsFall(rows: seq<Row>, ids: seq<string>, k: nat)
    requires EnoughFor(rows, ids, k)
    ensures SumOver(rows, ids, k + 1).tasks == SumOver(rows, ids, k).tasks
    ensures SumOver(rows, ids, k + 1).total <= SumOver(rows, ids, k).total
  {
    if ids != [] {
      var n := |ids| - 1;
      SumsFall(rows, ids[..n], k);
      assert ids == ids[..n] + [ids[n]];
      SumOneMore(rows, ids[..n], ids[n], k);
      SumOneMore(rows, ids[..n], ids[n], k + 1);
      var trials := TrialsOf(rows, ids[n]);
      if |trials| >= k { ShareFalls(Passes(trials), |trials|, k); }
    }
  }

  /** Where no task drops out between k and k + 1, the rate does not rise. */
  lemma RateFalls(rows: seq<Row>, k: nat)
    requires EnoughFor(rows, FirstSeen(rows), k)
    ensures Rate(rows, k + 1) <= Rate(rows, k)
  {
    var ids := FirstSeen(rows);
    SumsFall(rows, ids, k);
    LowerRate(SumOver(rows, ids, k + 1), SumOver(rows, ids, k));
  }

  lemma LowerRate(low: Sum, high: Sum)
    requires low.tasks == high.tasks && low.total <= high.total
    ensures RateOf(low) <= RateOf(high)
  {
    if high.tasks > 0 { DivideBoth(low.total, high.total, high.tasks as real); }
  }

  lemma DivideBoth(x: real, y: real, n: real)
    requires n > 0.0 && x <= y
    ensures x / n <= y / n
  {
  }

  lemma TwoTasks(rows: seq<Row>, x: string, y: string, k: nat)
    ensures SumOver(rows, [x, y], k) == Plus(Term(rows, x, k), Term(rows, y, k))
  {
    assert [] + [x] == [x] && [x] + [y] == [x, y];
    SumOneMore(rows, [], x, k);
    SumOneMore(rows, [x], y, k);
    assert Terms(rows, [], k) == [];
  }

  lemma SeenTwo(a: Row, b: Row)
    requires a.id != b.id
    ensures FirstSeen([a, b, b]) == [a.id, b.id]
  {
    assert [] + [a] == [a] && [a] + [b] == [a, b] && [a, b] + [b] == [a, b, b];
    assert [] + [a.id] == [a.id] && [a.id] + [b.id] == [a.id, b.id];
    SeenOneMore([], a);
    SeenOneMore([a], b);
    SeenOneMore([a, b], b);
  }

  lemma TrialsOfTwo(a: Row, b: Row, id: string)
    requires a.id != b.id
    ensures TrialsOf([a, b, b], id) == if id == a.id then [a] else if id == b.id then [b, b] else []
  {
    assert [] + [a] == [a] && [a] + [b] == [a, b] && [a, b] + [b] == [a, b, b] && [b] + [b] == [b, b];
    TrialsOneMore([], a, id);
    TrialsOneMore([a], b, id);
    TrialsOneMore([a, b], b, id);
  }

  lemma PassesOfFew(a: Row, b: Row)
    requires !a.passed && b.passed
    ensures Passes([a]) == 0 && Passes([b, b]) == 2
  {
    assert [] + [a] == [a] && [] + [b] == [b] && [b] + [b] == [b, b];
    PassesOneMore([], a);
    PassesOneMore([], b);
    PassesOneMore([b], b);
  }

  lemma RisingRows(a: Row, b: Row, k: nat)
    requires a.id != b.id && !a.passed && b.passed
    ensures Rate([a, b, b], k) == RateOf(Plus(Term([a, b, b], a.id, k), Term([a, b, b], b.id, k)))
  {
    SeenTwo(a, b);
    TwoTasks([a, b, b], a.id, b.id, k);
  }

  lemma RisingTerms(a: Row, b: Row)
    requires a.id != b.id && !a.passed && b.passed
    ensures var rows := [a, b, b];
            && Term(rows, a.id, 1) == Sum(0.0, 1) && Term(rows, b.id, 1) == Sum(1.0, 1)
            && Term(rows, a.id, 2) == Sum(0.0, 0) && Term(rows, b.id, 2) == Sum(1.0, 1)
  {
    TrialsOfTwo(a, b, a.id);
    TrialsOfTwo(a, b, b.id);
    PassesOfFew(a, b);
    SmallShares();
  }

  /** One task with one failed trial, another with two passed ones: one half at k = 1, and 1 at k = 2. */
  lemma RateCanRise(a: Row, b: Row)
    requires a.id != b.id && !a.passed && b.passed
    ensures Rate([a, b, b], 1) == 0.5 && Rate([a, b, b], 2) == 1.0
  {
    RisingRows(a, b, 1);
    RisingRows(a, b, 2);
    RisingTerms(a, b);
  }

  lemma SmallShares()
    ensures Share(0, 1, 1) == 0.0 && Share(2, 2, 1) == 1.0 && Share(2, 2, 2) == 1.0
  {
    NoneBeyond(0, 1);
    SomeWithin(2, 2);
    SomeWithin(2, 1);
    SomeWithin(1, 1);
  }

  // ----- Against the other readings -----

  predicate EachHas(rows: seq<Row>, ids: seq<string>, n: nat) {
    forall i :: 0 <= i < |ids| ==> |TrialsOf(rows, ids[i])| == n
  }

  lemma {:induction false} AllPassed(trials: seq<Row>)
    ensures Passes(trials) == |trials| <==> FirstPass(trials, |trials|)
  {
    if trials != [] {
      var n := |trials| - 1;
      AllPassed(trials[..n]);
      assert FirstPass(trials, |trials|) <==> FirstPass(trials[..n], n) && trials[n].passed;
    }
  }

  lemma {:induction false} ExactSums(rows: seq<Row>, ids: seq<string>, k: nat)
    requires EachHas(rows, ids, k)
    ensures SumOver(rows, ids, k) == Sum(CountFirst(rows, ids, k) as real, |ids|)
  {
    if ids != [] {
      var n := |ids| - 1;
      ExactSums(rows, ids[..n], k);
      assert ids == ids[..n] + [ids[n]];
      SumOneMore(rows, ids[..n], ids[n], k);
      var trials := TrialsOf(rows, ids[n]);
      AllPassed(trials);
      SomeWithin(k, k);
      if Passes(trials) < k { NoneBeyond(Passes(trials), k); }
    }
  }

  lemma ExactRate(rows: seq<Row>, ids: seq<string>, k: nat)
    requires rows != [] && EachHas(rows, ids, k) && Lists(ids, rows)
    ensures |ids| > 0 && RateOf(SumOver(rows, ids, k)) == CountFirst(rows, ids, k) as real / |ids| as real
  {
    ListsCovers(ids, rows);
    ExactSums(rows, ids, k);
    RateOfCount(CountFirst(rows, ids, k), |ids|);
  }

  lemma RateOfCount(count: nat, n: nat)
    requires n > 0
    ensures RateOf(Sum(count as real, n)) == count as real / n as real
  {
  }

  /** Where every task ran exactly k trials, the two readings agree. */
  lemma AgreesAtAllTrials(rows: seq<Row>, k: nat)
    requires EachHas(rows, FirstSeen(rows), k) && rows != []
    ensures |FirstSeen(rows)| > 0
    ensures Rate(rows, k) == CountFirst(rows, FirstSeen(rows), k) as real / |FirstSeen(rows)| as real
  {
    FirstSeenIsAll(rows);
    ExactRate(rows, FirstSeen(rows), k);
  }

  /** Passed and run, over the listed tasks. */
  function Won(rows: seq<Row>, ids: seq<string>): nat {
    if ids == [] then 0 else Won(rows, ids[..|ids| - 1]) + Passes(TrialsOf(rows, ids[|ids| - 1]))
  }

  function Ran(rows: seq<Row>, ids: seq<string>): nat {
    if ids == [] then 0 else Ran(rows, ids[..|ids| - 1]) + |TrialsOf(rows, ids[|ids| - 1])|
  }

  /** One more row adds to its own task's counts alone. */
  lemma OneMoreRowOf(rows: seq<Row>, r: Row, id: string)
    ensures |TrialsOf(rows + [r], id)| == |TrialsOf(rows, id)| + if r.id == id then 1 else 0
    ensures Passes(TrialsOf(rows + [r], id)) == Passes(TrialsOf(rows, id)) + if r.id == id && r.passed then 1 else 0
  {
    TrialsOneMore(rows, r, id);
    var before := TrialsOf(rows, id);
    if r.id == id { PassesOneMore(before, r); } else { assert before + [] == before; }
  }

  lemma WonOneMore(rows: seq<Row>, ids: seq<string>, id: string)
    ensures Won(rows, ids + [id]) == Won(rows, ids) + Passes(TrialsOf(rows, id))
    ensures Ran(rows, ids + [id]) == Ran(rows, ids) + |TrialsOf(rows, id)|
  {
    assert (ids + [id])[..|ids|] == ids;
  }

  lemma {:induction false} OneMoreRow(rows: seq<Row>, r: Row, ids: seq<string>)
    requires Distinct(ids)
    ensures Won(rows + [r], ids) == Won(rows, ids) + if r.id in ids && r.passed then 1 else 0
    ensures Ran(rows + [r], ids) == Ran(rows, ids) + if r.id in ids then 1 else 0
  {
    if ids != [] {
      var n := |ids| - 1;
      var init, last := ids[..n], ids[n];
      assert ids == init + [last] && last !in init;
      OneMoreRow(rows, r, init);
      OneMoreRowOf(rows, r, last);
      WonOneMore(rows, init, last);
      WonOneMore(rows + [r], init, last);
    }
  }

  lemma {:induction false} NoRows(ids: seq<string>)
    ensures Won([], ids) == 0 && Ran([], ids) == 0
  {
    if ids != [] { NoRows(ids[..|ids| - 1]); }
  }

  lemma {:induction false} AllRowsCounted(rows: seq<Row>, ids: seq<string>)
    requires Distinct(ids) && forall i :: 0 <= i < |rows| ==> rows[i].id in ids
    ensures Won(rows, ids) == Passes(rows) && Ran(rows, ids) == |rows|
  {
    if rows == [] {
      NoRows(ids);
    } else {
      var n := |rows| - 1;
      AllRowsCounted(rows[..n], ids);
      OneMoreRow(rows[..n], rows[n], ids);
      PassesOneMore(rows[..n], rows[n]);
      assert rows[..n] + [rows[n]] == rows;
      assert rows[n].id in ids;
    }
  }

  lemma ShareOfOne(passed: nat, n: nat)
    requires passed <= n && n >= 1
    ensures Share(passed, n, 1) * n as real == passed as real
  {
    Along(n, 0);
    Along(passed, 0);
    assert Binom(n, 1) == n && Binom(passed, 1) == passed;
  }

  lemma Distribute(total: real, share: real, n: real, won: real, passed: real)
    requires total * n == won && share * n == passed
    ensures (total + share) * n == won + passed
  {
  }

  /** The sum says of the listed tasks how many they are and, over `n` trials each, how many passed. */
  ghost predicate Evenly(s: Sum, tasks: nat, won: nat, n: nat) {
    s.tasks == tasks && s.total * n as real == won as real
  }

  lemma TaskShareOfOne(trials: seq<Row>, n: nat)
    requires n >= 1 && |trials| == n
    ensures TaskShare(trials, 1) * n as real == Passes(trials) as real
  {
    ShareOfOne(Passes(trials), n);
  }

  lemma EvenTask(trials: seq<Row>, n: nat)
    requires n >= 1 && |trials| == n
    ensures Evenly(Sum(TaskShare(trials, 1), 1), 1, Passes(trials), n)
  {
    TaskShareOfOne(trials, n);
  }

  lemma TermIs(rows: seq<Row>, id: string, k: nat)
    requires |TrialsOf(rows, id)| >= k
    ensures Term(rows, id, k) == Sum(TaskShare(TrialsOf(rows, id), k), 1)
  {
  }

  lemma EvenlyOneMore(s: Sum, t: Sum, tasks: nat, won: nat, passed: nat, n: nat)
    requires Evenly(s, tasks, won, n) && Evenly(t, 1, passed, n)
    ensures Evenly(Plus(s, t), tasks + 1, won + passed, n)
  {
    Distribute(s.total, t.total, n as real, won as real, passed as real);
  }

  lemma {:induction false} SumsOfOne(rows: seq<Row>, ids: seq<string>, n: nat)
    requires n >= 1 && EachHas(rows, ids, n)
    ensures Evenly(SumOver(rows, ids, 1), |ids|, Won(rows, ids), n)
  {
    if ids != [] {
      var m := |ids| - 1;
      var init, last := ids[..m], ids[m];
      assert init + [last] == ids;
      SumsOfOne(rows, init, n);
      EvenTask(TrialsOf(rows, last), n);
      TermIs(rows, last, 1);
      SumOneMore(rows, init, last, 1);
      var s, t := SumOver(rows, init, 1), Term(rows, last, 1);
      EvenlyOneMore(s, t, m, Won(rows, init), Passes(TrialsOf(rows, last)), n);
    }
  }

  lemma {:induction false} RanIsEven(rows: seq<Row>, ids: seq<string>, n: nat)
    requires EachHas(rows, ids, n)
    ensures Ran(rows, ids) == n * |ids|
  {
    if ids != [] {
      var m := |ids| - 1;
      RanIsEven(rows, ids[..m], n);
      assert n * (m + 1) == n * m + n;
    }
  }

  lemma MeanOfShares(s: Sum, won: nat, n: nat, m: nat)
    requires n >= 1 && m >= 1 && Evenly(s, m, won, n)
    ensures n * m >= 1 && RateOf(s) == won as real / (n * m) as real
  {
    var x, y := n as real, m as real;
    assert (n * m) as real == x * y;
    RealMean(s.total, won as real, x, y);
  }

  lemma RealMean(total: real, won: real, x: real, y: real)
    requires x > 0.0 && y > 0.0 && total * x == won
    ensures x * y > 0.0 && total / y == won / (x * y)
  {
    var q := total / y;
    assert q * y == total;
    assert q * (x * y) == (q * y) * x;
  }

  /** Where every task ran as many trials, pass^1 is the share of all trials that passed. */
  lemma PassOneIsTheShareOfTrials(rows: seq<Row>, n: nat)
    requires rows != [] && n >= 1 && EachHas(rows, FirstSeen(rows), n)
    ensures Rate(rows, 1) == Passes(rows) as real / |rows| as real
  {
    var ids := FirstSeen(rows);
    FirstSeenIsAll(rows);
    OverTheListed(rows, ids, n);
  }

  lemma ListsCovers(ids: seq<string>, rows: seq<Row>)
    requires Lists(ids, rows)
    ensures forall i :: 0 <= i < |rows| ==> rows[i].id in ids
    ensures rows != [] ==> ids != []
  {
    forall i | 0 <= i < |rows| ensures rows[i].id in ids {
      assert HasRow(rows, rows[i].id);
    }
    assert rows != [] ==> rows[0].id in ids;
  }

  lemma OverTheListed(rows: seq<Row>, ids: seq<string>, n: nat)
    requires rows != [] && n >= 1 && EachHas(rows, ids, n) && Lists(ids, rows)
    ensures RateOf(SumOver(rows, ids, 1)) == Passes(rows) as real / |rows| as real
  {
    ListsCovers(ids, rows);
    SumsOfOne(rows, ids, n);
    RanIsEven(rows, ids, n);
    AllRowsCounted(rows, ids);
    MeanOfShares(SumOver(rows, ids, 1), Passes(rows), n, |ids|);
  }
}
