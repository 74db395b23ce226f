/** A call's image attempts as its object records them: numbered as first heard of, completed once, never changed after. */
module ImageEvidence {
  import opened Wrappers
  import opened ImageAttempts

  const MAX_EVIDENCE_ATTEMPTS: nat := 20

  datatype Kept = Kept(number: nat, report: Report)
  /** One call's attempts by their names. */
  type Attempts = map<string, Kept>

  predicate AllAtMost(m: Attempts, n: nat) {
    forall id :: id in m ==> m[id].number <= n
  }

  predicate Given(m: Attempts, n: nat) {
    exists id :: id in m && m[id].number == n
  }

  /** The largest number given, or none. */
  predicate IsHighest(m: Attempts, n: nat) {
    AllAtMost(m, n) && (n == 0 || Given(m, n))
  }

  /** One report: the attempts it leaves, and whether it was written. `n` is the largest number given so far. */
  function Recorded(m: Attempts, n: nat, r: Report): (Attempts, bool) {
    if r.attemptId in m then
      var known := m[r.attemptId];
      if known.report.provider.Some? || r.provider.None? then (m, false)
      else (m[r.attemptId := Kept(known.number, r)], true)
    else if |m| >= MAX_EVIDENCE_ATTEMPTS then (m, false)
    else (m[r.attemptId := Kept(n + 1, r)], true)
  }

  /** The numbers given are 1 to how many there are, one each. */
  ghost predicate Numbered(m: Attempts) {
    && |m| <= 20 && (forall id :: id in m ==> 1 <= m[id].number <= |m|)
    && (forall a, b :: a in m && b in m && m[a].number == m[b].number ==> a == b)
    && (forall n: nat :: 1 <= n <= |m| ==> Given(m, n))
  }

  lemma HighestIs(m: Attempts, n: nat)
    requires Numbered(m) && IsHighest(m, n)
    ensures n == |m|
  {
    if |m| >= 1 {
      assert Given(m, |m|);
      var last :| last in m && m[last].number == |m|;
    }
  }

  lemma GrowsByOne(m: Attempts, id: string, k: Kept)
    requires id !in m
    ensures |m[id := k]| == |m| + 1
  {
    assert m[id := k].Keys == m.Keys + {id};
  }

  lemma SameSize(m: Attempts, id: string, k: Kept)
    requires id in m
    ensures |m[id := k]| == |m|
  {
    assert m[id := k].Keys == m.Keys;
  }

  /** Every report keeps the numbers 1 to n, n at most the bound, and every number once given. */
  lemma RecordedNumbers(m: Attempts, n: nat, r: Report)
    requires Numbered(m) && IsHighest(m, n)
    ensures var (after, wrote) := Recorded(m, n, r);
            Numbered(after) && (forall id :: id in m ==> id in after && after[id].number == m[id].number)
            && (!wrote ==> after == m)
  {
    HighestIs(m, n);
    if r.attemptId in m {
      CompletedNumbers(m, r.attemptId, r);
    } else if |m| < MAX_EVIDENCE_ATTEMPTS {
      NewNumbers(m, r.attemptId, r);
    }
  }

  lemma CompletedNumbers(m: Attempts, a: string, r: Report)
    requires Numbered(m) && a in m
    ensures Numbered(m[a := Kept(m[a].number, r)])
  {
    var after := m[a := Kept(m[a].number, r)];
    SameSize(m, a, after[a]);
    forall i: nat | 1 <= i <= |after| ensures Given(after, i) {
      assert Given(m, i);
      var id :| id in m && m[id].number == i;
      assert id in after && after[id].number == i;
    }
  }

  lemma NewNumbers(m: Attempts, a: string, r: Report)
    requires Numbered(m) && a !in m && |m| < MAX_EVIDENCE_ATTEMPTS
    ensures Numbered(m[a := Kept(|m| + 1, r)])
  {
    var after := m[a := Kept(|m| + 1, r)];
    GrowsByOne(m, a, after[a]);
    forall i: nat | 1 <= i <= |after| ensures Given(after, i) {
      if i <= |m| {
        assert Given(m, i);
        var id :| id in m && m[id].number == i;
        assert id in after && after[id].number == i;
      } else {
        assert a in after && after[a].number == i;
      }
    }
  }

  /** A completed attempt never changes, and one not completed keeps its record until the report that completes it. */
  lemma CompletedStays(m: Attempts, n: nat, r: Report, id: string)
    requires id in m
    ensures var after := Recorded(m, n, r).0;
            id in after && (after[id] == m[id] || (m[id].report.provider.None? && r.attemptId == id && after[id].report == r && r.provider.Some?))
  {
  }

  // ----- What the consumer sends -----

  /** A delivery of one of an attempt's two reports: at its start, or at its end. */
  datatype Delivery = Delivery(attempt: string, ended: bool)

  /** Each attempt's report as ended. */
  predicate AllEnded(full: map<string, Report>) {
    forall id :: id in full ==> full[id].attemptId == id && full[id].provider.Some?
  }

  predicate AllSent(full: map<string, Report>, ds: seq<Delivery>) {
    AllEnded(full) && forall i :: 0 <= i < |ds| ==> ds[i].attempt in full
  }

  function ReportOf(full: map<string, Report>, d: Delivery): Report
    requires d.attempt in full
  {
    if d.ended then full[d.attempt] else full[d.attempt].(provider := None)
  }

  /** What the attempts are after a delivery, whichever way the numbers were found. */
  ghost predicate Arrives(full: map<string, Report>, m: Attempts, d: Delivery, after: Attempts) {
    d.attempt in full && exists n: nat :: IsHighest(m, n) && after == Recorded(m, n, ReportOf(full, d)).0
  }

  /** The attempts after each of the deliveries, from none. */
  ghost predicate IsRun(full: map<string, Report>, ds: seq<Delivery>, ms: seq<Attempts>) {
    && |ms| == |ds| + 1 && ms[0] == map[]
    && forall i :: 0 <= i < |ds| ==> Arrives(full, ms[i], ds[i], ms[i + 1])
  }

  predicate Began(ds: seq<Delivery>, a: string) {
    exists i :: 0 <= i < |ds| && ds[i].attempt == a
  }

  predicate HasEnded(ds: seq<Delivery>, a: string) {
    Delivery(a, true) in ds
  }

  /** What is to be known of an attempt from the reports delivered, in whatever order. */
  function Told(full: map<string, Report>, ds: seq<Delivery>, a: string): Report
    requires a in full
  {
    ReportOf(full, Delivery(a, HasEnded(ds, a)))
  }

  ghost predicate Tells(full: map<string, Report>, ds: seq<Delivery>, m: Attempts) {
    Numbered(m) && forall a :: TellsOf(full, ds, m, a)
  }

  lemma BeganMore(ds: seq<Delivery>, d: Delivery, a: string)
    ensures Began(ds + [d], a) <==> Began(ds, a) || d.attempt == a
    ensures HasEnded(ds + [d], a) <==> HasEnded(ds, a) || (d.attempt == a && d.ended)
  {
    if Began(ds, a) {
      var i :| 0 <= i < |ds| && ds[i].attempt == a;
      assert (ds + [d])[i].attempt == a;
    }
    if d.attempt == a { assert (ds + [d])[|ds|].attempt == a; }
    if Began(ds + [d], a) && d.attempt != a {
      var i :| 0 <= i < |ds + [d]| && (ds + [d])[i].attempt == a;
      assert ds[i].attempt == a;
    }
  }

  lemma EndedHasBegun(ds: seq<Delivery>, a: string)
    requires HasEnded(ds, a)
    ensures Began(ds, a)
  {
    var i :| 0 <= i < |ds| && ds[i] == Delivery(a, true);
    assert ds[i].attempt == a;
  }

  /** What is told of one attempt. */
  ghost predicate TellsOf(full: map<string, Report>, ds: seq<Delivery>, m: Attempts, a: string) {
    && (a in m ==> a in full && Began(ds, a) && m[a].report == Told(full, ds, a))
    && (Began(ds, a) && a !in m ==> |m| == 20)
  }

  lemma ArrivalTellsOf(full: map<string, Report>, ds: seq<Delivery>, m: Attempts, n: nat, d: Delivery, a: string)
    requires AllEnded(full) && d.attempt in full && TellsOf(full, ds, m, a) && |m| <= MAX_EVIDENCE_ATTEMPTS
    ensures TellsOf(full, ds + [d], Recorded(m, n, ReportOf(full, d)).0, a)
  {
    BeganMore(ds, d, a);
    var r := ReportOf(full, d);
    assert r.attemptId == d.attempt;
    if d.attempt in m {
      SameSize(m, d.attempt, Kept(m[d.attempt].number, r));
    } else if |m| < MAX_EVIDENCE_ATTEMPTS {
      GrowsByOne(m, d.attempt, Kept(n + 1, r));
      if a == d.attempt && HasEnded(ds, a) { EndedHasBegun(ds, a); }
    }
  }

  lemma OneArrival(full: map<string, Report>, ds: seq<Delivery>, m: Attempts, d: Delivery, after: Attempts)
    requires AllEnded(full) && Tells(full, ds, m) && Arrives(full, m, d, after)
    ensures Tells(full, ds + [d], after)
  {
    var n: nat :| IsHighest(m, n) && after == Recorded(m, n, ReportOf(full, d)).0;
    RecordedNumbers(m, n, ReportOf(full, d));
    forall a ensures TellsOf(full, ds + [d], after, a) {
      assert TellsOf(full, ds, m, a);
      ArrivalTellsOf(full, ds, m, n, d, a);
    }
  }

  lemma RunPrefix(full: map<string, Report>, ds: seq<Delivery>, ms: seq<Attempts>)
    requires AllSent(full, ds) && IsRun(full, ds, ms) && ds != []
    ensures var n := |ds| - 1;
            AllSent(full, ds[..n]) && IsRun(full, ds[..n], ms[..n + 1]) && Arrives(full, ms[n], ds[n], ms[n + 1])
  {
    var n := |ds| - 1;
    forall i | 0 <= i < n ensures Arrives(full, ms[..n + 1][i], ds[..n][i], ms[..n + 1][i + 1]) {
      assert Arrives(full, ms[i], ds[i], ms[i + 1]);
    }
  }

  /**
   * Through any deliveries, in any order and repeated: the attempts heard of first are numbered 1 to n, and each one's record is
   * its ended report if that was delivered, else its prepared one. One is left out only when the bound is reached.
   */
  lemma {:induction false} RunTells(full: map<string, Report>, ds: seq<Delivery>, ms: seq<Attempts>)
    requires AllSent(full, ds) && IsRun(full, ds, ms)
    ensures Tells(full, ds, ms[|ds|])
  {
    if ds != [] {
      var n := |ds| - 1;
      RunPrefix(full, ds, ms);
      RunTells(full, ds[..n], ms[..n + 1]);
      OneArrival(full, ds[..n], ms[n], ds[n], ms[n + 1]);
      assert ds == ds[..n] + [ds[n]];
    }
  }

  /** The same deliveries in another order, or repeated, record the same of every attempt both keep, up to its number. */
  lemma OrderDoesNotMatter(full: map<string, Report>, ds: seq<Delivery>, ms: seq<Attempts>, es: seq<Delivery>, ns: seq<Attempts>, a: string)
    requires AllSent(full, ds) && IsRun(full, ds, ms) && AllSent(full, es) && IsRun(full, es, ns)
    requires forall d :: d in ds <==> d in es
    ensures a in ms[|ds|] && a in ns[|es|] ==> ms[|ds|][a].report == ns[|es|][a].report
  {
    RunTells(full, ds, ms);
    RunTells(full, es, ns);
    assert TellsOf(full, ds, ms[|ds|], a) && TellsOf(full, es, ns[|es|], a);
  }

  function Names(ds: seq<Delivery>): set<string> {
    set d | d in ds :: d.attempt
  }

  lemma BeganIsNamed(ds: seq<Delivery>, a: string)
    ensures Began(ds, a) <==> a in Names(ds)
  {
    if Began(ds, a) {
      var i :| 0 <= i < |ds| && ds[i].attempt == a;
      assert ds[i] in ds;
    }
    if a in Names(ds) {
      var d :| d in ds && d.attempt == a;
      var i :| 0 <= i < |ds| && ds[i] == d;
    }
  }

  /** Where no more attempts are named than the bound, every one is kept, and so the order does not matter at all. */
  lemma AllAreKept(full: map<string, Report>, ds: seq<Delivery>, ms: seq<Attempts>, a: string)
    requires AllSent(full, ds) && IsRun(full, ds, ms) && |Names(ds)| <= 20
    ensures a in ms[|ds|] <==> a in Names(ds)
  {
    RunTells(full, ds, ms);
    var m := ms[|ds|];
    forall b ensures (Began(ds, b) <==> b in Names(ds)) && TellsOf(full, ds, m, b) {
      BeganIsNamed(ds, b);
    }
    assert m.Keys <= Names(ds);
    if a in Names(ds) && a !in m {
      assert m.Keys + {a} <= Names(ds);
      Fewer(m.Keys, a, Names(ds));
    }
  }

  lemma Fewer(small: set<string>, a: string, large: set<string>)
    requires small + {a} <= large && a !in small
    ensures |small| < |large|
  {
    Within(small + {a}, large);
  }

  lemma {:induction false} Within(small: set<string>, large: set<string>)
    requires small <= large
    ensures |small| <= |large|
  {
    if small != {} {
      var x :| x in small;
      Within(small - {x}, large - {x});
    }
  }

  // ----- The table in place -----

  /** The attempts of each call, and the calls whose input was recorded. */
  class ImageTable {
    var calls: set<string>
    var images: map<string, Attempts>

    constructor ()
      ensures calls == {} && images == map[]
    {
      calls, images := {}, map[];
    }

    function Of(job: string): Attempts
      reads this
    {
      if job in images then images[job] else map[]
    }

    method Highest(job: string) returns (n: nat)
      ensures IsHighest(Of(job), n)
    {
      var m := Of(job);
      var left := m.Keys;
      n := 0;
      while left != {}
        invariant left <= m.Keys
        invariant forall id :: id in m && id !in left ==> m[id].number <= n
        invariant n == 0 || Given(m, n)
        decreases left
      {
        var id :| id in left;
        if m[id].number > n { n := m[id].number; }
        left := left - {id};
      }
    }

    /** Whether anything was written: only of a recorded call, a report that is one, and an attempt it adds to. */
    method RecordImageAttempt(c: Clock, job: string, raw: Json) returns (wrote: bool)
      modifies this`images
      ensures job !in calls || Clean(c, raw).None? ==> !wrote
      ensures !wrote ==> forall j :: Of(j) == old(Of(j))
      ensures forall j :: j != job ==> Of(j) == old(Of(j))
      ensures job in calls && Clean(c, raw).Some? ==>
        exists n: nat :: IsHighest(old(Of(job)), n) && (Of(job), wrote) == Recorded(old(Of(job)), n, Clean(c, raw).value)
    {
      if job !in calls { return false; }
      var cleaned := Clean(c, raw);
      if cleaned.None? { return false; }
      var r := cleaned.value;
      var m := Of(job);
      var n := Highest(job);
      if r.attemptId in m {
        if m[r.attemptId].report.provider.Some? { return false; }
        if r.provider.None? { return false; }
        images := images[job := m[r.attemptId := Kept(m[r.attemptId].number, r)]];
      } else {
        if |m| >= MAX_EVIDENCE_ATTEMPTS { return false; }
        images := images[job := m[r.attemptId := Kept(n + 1, r)]];
      }
      return true;
    }
  }
}
