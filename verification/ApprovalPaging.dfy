/** The copy's keyset pages: rows in (updated_at, tenant, agent, operation) order, each page starting past the last one's end. */
module ApprovalPaging {
  import opened Wrappers

  /** Text in the order the table keeps it: character by character, a prefix first. */
  predicate Before(a: string, b: string) {
    b != [] && (a == [] || a[0] < b[0] || (a[0] == b[0] && Before(a[1..], b[1..])))
  }

  lemma {:induction false} BeforeIsOrder(a: string, b: string, c: string)
    ensures !Before(a, a)
    ensures Before(a, b) && Before(b, c) ==> Before(a, c)
    ensures Before(a, b) ==> !Before(b, a)
    ensures a != b ==> Before(a, b) || Before(b, a)
  {
    if a != [] {
      BeforeIsOrder(a[1..], if b == [] then [] else b[1..], if c == [] then [] else c[1..]);
      if b != [] && a[0] == b[0] && a[1..] == b[1..] { assert a == [a[0]] + a[1..] && b == [b[0]] + b[1..]; }
    }
  }

  /** A row's sort key; the last three name the row. */
  datatype Name = Name(tenant: string, agent: string, operation: string)
  datatype Place = Place(updatedAt: int, name: Name)

  predicate NameBefore(a: Name, b: Name) {
    || Before(a.tenant, b.tenant)
    || (a.tenant == b.tenant && (Before(a.agent, b.agent) || (a.agent == b.agent && Before(a.operation, b.operation))))
  }

  predicate Less(a: Place, b: Place) {
    a.updatedAt < b.updatedAt || (a.updatedAt == b.updatedAt && NameBefore(a.name, b.name))
  }

  lemma NameIsOrder(a: Name, b: Name, c: Name)
    ensures !NameBefore(a, a)
    ensures NameBefore(a, b) && NameBefore(b, c) ==> NameBefore(a, c)
    ensures a != b ==> NameBefore(a, b) || NameBefore(b, a)
  {
    BeforeIsOrder(a.tenant, b.tenant, c.tenant);
    BeforeIsOrder(a.agent, b.agent, c.agent);
    BeforeIsOrder(a.operation, b.operation, c.operation);
  }

  lemma LessIsOrder(a: Place, b: Place, c: Place)
    ensures !Less(a, a)
    ensures Less(a, b) && Less(b, c) ==> Less(a, c)
    ensures a != b ==> Less(a, b) || Less(b, a)
  {
    NameIsOrder(a.name, b.name, c.name);
  }

  /** Where a page starts: past the cursor, or anywhere. */
  predicate Past(p: Place, after: Option<Place>) {
    after.None? || Less(after.value, p)
  }

  ghost predicate Sorted(rows: seq<Place>) {
    forall i, j :: 0 <= i < j < |rows| ==> Less(rows[i], rows[j])
  }

  datatype Page = Page(rows: seq<Place>, next: Option<Place>)

  /** What the statement answers: the first of the sought rows past the cursor, in order, as many as asked for and one. */
  ghost predicate Selects(sought: set<Place>, after: Option<Place>, most: nat, rows: seq<Place>) {
    && Sorted(rows) && |rows| <= most
    && (forall r :: r in rows ==> r in sought && Past(r, after))
    && (forall r :: r in sought && Past(r, after) && r !in rows ==> |rows| == most && forall i :: 0 <= i < |rows| ==> Less(rows[i], r))
  }

  /** A page of `list`: one row more than the limit is asked for, and tells whether there is another page. */
  ghost predicate IsPage(sought: set<Place>, after: Option<Place>, limit: nat, page: Page) {
    exists rows :: Selects(sought, after, limit + 1, rows) && page == PageFrom(rows, limit)
  }

  function PageFrom(rows: seq<Place>, limit: nat): Page {
    var more := |rows| > limit;
    var page := if more then rows[..limit] else rows;
    Page(page, if more && page != [] then Some(page[|page| - 1]) else None)
  }

  /** What a page says of the rows sought, whichever they are. */
  lemma PageTells(sought: set<Place>, after: Option<Place>, limit: nat, page: Page)
    requires limit >= 1 && IsPage(sought, after, limit, page)
    ensures Sorted(page.rows) && forall r :: r in page.rows ==> r in sought && Past(r, after)
    ensures page.next.None? ==> forall r :: r in sought && Past(r, after) ==> r in page.rows
    ensures page.next.Some? ==> page.rows != [] && page.next.value == page.rows[|page.rows| - 1]
    ensures page.next.Some? ==> forall r :: r in sought && Past(r, after) ==> r in page.rows || Less(page.next.value, r)
  {
    var rows :| Selects(sought, after, limit + 1, rows) && page == PageFrom(rows, limit);
    if |rows| > limit {
      var last := rows[limit - 1];
      assert page.rows == rows[..limit];
      forall r | r in sought && Past(r, after) ensures r in page.rows || Less(last, r) {
        if r in rows {
          var i :| 0 <= i < |rows| && rows[i] == r;
          if i < limit { assert page.rows[i] == r; } else { assert Less(rows[limit - 1], rows[i]); }
        }
      }
    }
  }

  // ----- A walk -----

  /** The pages of one walk, each answered from the rows sought at its own time. */
  ghost predicate IsWalk(seen: seq<set<Place>>, after: Option<Place>, limit: nat, pages: seq<Page>)
    decreases |pages|
  {
    && pages != [] && |seen| == |pages| && IsPage(seen[0], after, limit, pages[0])
    && if |pages| == 1 then pages[0].next.None?
       else pages[0].next.Some? && IsWalk(seen[1..], pages[0].next, limit, pages[1..])
  }

  function Together(pages: seq<Page>): seq<Place>
    decreases |pages|
  {
    if pages == [] then [] else pages[0].rows + Together(pages[1..])
  }

  lemma JoinSorted(a: seq<Place>, b: seq<Place>, last: Place)
    requires Sorted(a) && Sorted(b) && a != [] && last == a[|a| - 1]
    requires forall r :: r in b ==> Less(last, r)
    ensures Sorted(a + b)
  {
    var all := a + b;
    forall i, j | 0 <= i < j < |all| ensures Less(all[i], all[j]) {
      if i < |a| <= j {
        assert b[j - |a|] in b;
        LessIsOrder(a[i], last, all[j]);
      } else if |a| <= i {
        assert Less(b[i - |a|], b[j - |a|]);
      }
    }
  }

  /** However the rows change between the pages, the pages together go strictly forward, so no place is answered twice. */
  lemma {:induction false} WalkGoesForward(seen: seq<set<Place>>, after: Option<Place>, limit: nat, pages: seq<Page>)
    requires limit >= 1 && IsWalk(seen, after, limit, pages)
    ensures Sorted(Together(pages)) && forall r :: r in Together(pages) ==> Past(r, after)
    decreases |pages|
  {
    PageTells(seen[0], after, limit, pages[0]);
    var first := pages[0].rows;
    if |pages| == 1 {
      assert Together(pages) == first + [] == first;
    } else {
      var rest := Together(pages[1..]);
      WalkGoesForward(seen[1..], pages[0].next, limit, pages[1..]);
      JoinSorted(first, rest, pages[0].next.value);
      assert pages[0].next.value in first;
      forall r | r in Together(pages) ensures Past(r, after) {
        if r !in first && after.Some? { LessIsOrder(after.value, pages[0].next.value, r); }
      }
    }
  }

  /** Of rows that do not change, the pages together are all of them past the start, each once, in order. */
  lemma {:induction false} WalkIsTheRows(sought: set<Place>, after: Option<Place>, limit: nat, pages: seq<Page>)
    requires limit >= 1 && IsWalk(seq(|pages|, _ => sought), after, limit, pages)
    ensures Sorted(Together(pages))
    ensures forall r :: r in Together(pages) <==> r in sought && Past(r, after)
    decreases |pages|
  {
    var seen := seq(|pages|, _ => sought);
    WalkGoesForward(seen, after, limit, pages);
    PageTells(sought, after, limit, pages[0]);
    if |pages| > 1 {
      var next := pages[0].next;
      assert seen[1..] == seq(|pages[1..]|, _ => sought);
      WalkIsTheRows(sought, next, limit, pages[1..]);
      forall r ensures r in Together(pages) <==> r in sought && Past(r, after) {
        if after.Some? { LessIsOrder(after.value, next.value, r); }
      }
    }
  }

  /** The row's place at one read, if it is sought then. */
  ghost predicate At(sought: set<Place>, name: Name, updatedAt: int) {
    Place(updatedAt, name) in sought
  }

  /** The row is sought at every read, and its `updated_at` never steps back. */
  ghost predicate OnlyGrows(seen: seq<set<Place>>, name: Name, times: seq<int>) {
    && |times| == |seen| && (forall i :: 0 <= i < |seen| ==> At(seen[i], name, times[i]))
    && (forall i, j :: 0 <= i <= j < |times| ==> times[i] <= times[j])
  }

  /** A row whose `updated_at` only grows during the walk is never skipped: some page answers it where it was then. */
  lemma {:induction false} GrowingRowIsMet(seen: seq<set<Place>>, after: Option<Place>, limit: nat, pages: seq<Page>, name: Name, times: seq<int>)
      returns (met: nat)
    requires limit >= 1 && IsWalk(seen, after, limit, pages) && OnlyGrows(seen, name, times)
    requires Past(Place(times[0], name), after)
    ensures met < |pages| && Place(times[met], name) in pages[met].rows
    decreases |pages|
  {
    PageTells(seen[0], after, limit, pages[0]);
    var here := Place(times[0], name);
    assert At(seen[0], name, times[0]);
    if here in pages[0].rows {
      met := 0;
    } else {
      var later := Place(times[1], name);
      if here != later { LessIsOrder(pages[0].next.value, here, later); }
      var m := GrowingRowIsMet(seen[1..], pages[0].next, limit, pages[1..], name, times[1..]);
      met := m + 1;
    }
  }

  function Ahead(sought: set<Place>, after: Option<Place>): set<Place> {
    set r | r in sought && Past(r, after)
  }

  /** A walk over unchanging rows ends: each page but the last leaves fewer rows past its cursor. */
  lemma PageLeavesFewer(sought: set<Place>, after: Option<Place>, limit: nat, page: Page)
    requires limit >= 1 && IsPage(sought, after, limit, page) && page.next.Some?
    ensures Ahead(sought, page.next) < Ahead(sought, after)
  {
    PageTells(sought, after, limit, page);
    var last := page.next.value;
    assert last in page.rows;
    LessIsOrder(last, last, last);
    forall r | r in Ahead(sought, page.next) ensures r in Ahead(sought, after) {
      if after.Some? { LessIsOrder(after.value, last, r); }
    }
    assert last in Ahead(sought, after) && last !in Ahead(sought, page.next);
  }

  // ----- The statement's own condition, and its answer -----

  /** The condition as the statement spells it, level by level. */
  predicate SpelledPast(p: Place, c: Place) {
    p.updatedAt > c.updatedAt
    || (p.updatedAt == c.updatedAt
        && (Before(c.name.tenant, p.name.tenant)
            || (p.name.tenant == c.name.tenant
                && (Before(c.name.agent, p.name.agent) || (p.name.agent == c.name.agent && Before(c.name.operation, p.name.operation))))))
  }

  /** It is exactly coming after the cursor in the statement's order. */
  lemma SpelledExactly(p: Place, c: Place)
    ensures SpelledPast(p, c) <==> p != c && !Less(p, c)
  {
    LessIsOrder(p, c, p);
  }

  /** Puts a place where it belongs in a sorted list. */
  method PutInOrder(rows: seq<Place>, p: Place) returns (more: seq<Place>)
    requires Sorted(rows) && p !in rows
    ensures Sorted(more) && |more| == |rows| + 1 && forall r :: r in more <==> r in rows || r == p
  {
    var at := 0;
    while at < |rows| && Less(rows[at], p)
      invariant at <= |rows| && forall i :: 0 <= i < at ==> Less(rows[i], p)
      decreases |rows| - at
    {
      at := at + 1;
    }
    more := rows[..at] + [p] + rows[at..];
    forall j | at <= j < |rows| ensures Less(p, rows[j]) {
      LessIsOrder(p, rows[at], rows[j]);
    }
  }

  /** The first `most` of the sought places past the cursor, in order. */
  method Select(sought: set<Place>, after: Option<Place>, most: nat) returns (rows: seq<Place>)
    ensures Selects(sought, after, most, rows)
  {
    var left := sought;
    var all: seq<Place> := [];
    while left != {}
      invariant left <= sought && Sorted(all)
      invariant forall r :: r in all <==> r in sought && r !in left && Past(r, after)
      decreases left
    {
      var p :| p in left;
      left := left - {p};
      if Past(p, after) { all := PutInOrder(all, p); }
    }
    if |all| <= most { return all; }
    rows := all[..most];
    forall r | r in sought && Past(r, after) && r !in rows ensures forall i :: 0 <= i < |rows| ==> Less(rows[i], r) {
      assert all == rows + all[most..];
      var j :| 0 <= j < |all[most..]| && all[most..][j] == r;
      assert all[most + j] == r;
    }
  }

  method List(sought: set<Place>, after: Option<Place>, limit: nat) returns (page: Page)
    ensures IsPage(sought, after, limit, page)
  {
    var rows := Select(sought, after, limit + 1);
    page := PageFrom(rows, limit);
  }

  /** Following the cursor to its end, which there is: the pages are a walk. */
  method Follow(sought: set<Place>, after: Option<Place>, limit: nat) returns (pages: seq<Page>)
    requires limit >= 1
    ensures IsWalk(seq(|pages|, _ => sought), after, limit, pages)
    decreases Ahead(sought, after)
  {
    var page := List(sought, after, limit);
    pages := [page];
    if page.next.Some? {
      PageLeavesFewer(sought, after, limit, page);
      var rest := Follow(sought, page.next, limit);
      pages := pages + rest;
      assert pages[1..] == rest && seq(|pages|, _ => sought)[1..] == seq(|rest|, _ => sought);
    }
  }
}
