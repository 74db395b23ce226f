/** The names a main conversation's tables have, and that no two conversations share one. */
module MainTables {
  /** A whole number as text. */
  function Digits(n: nat): (s: string)
    ensures s != []
    ensures forall i :: 0 <= i < |s| ==> '0' <= s[i] <= '9'
  {
    var d := [('0' as int + n % 10) as char];
    if n < 10 then d else Digits(n / 10) + d
  }

  function ValueOf(s: string): int {
    if s == [] then 0 else 10 * ValueOf(s[..|s| - 1]) + (s[|s| - 1] as int - '0' as int)
  }

  lemma {:induction false} DigitsRead(n: nat)
    ensures ValueOf(Digits(n)) == n
  {
    var s := Digits(n);
    if n >= 10 {
      DigitsRead(n / 10);
      assert s[..|s| - 1] == Digits(n / 10);
    } else {
      assert s[..0] == [];
    }
  }

  function PowerOfTen(k: nat): nat {
    if k == 0 then 1 else 10 * PowerOfTen(k - 1)
  }

  lemma {:induction false} DigitsLength(n: nat, k: nat)
    requires k >= 1 && n < PowerOfTen(k)
    ensures |Digits(n)| <= k
  {
    if n >= 10 {
      assert k > 1;
      DigitsLength(n / 10, k - 1);
    }
  }

  const HEX := "0123456789abcdef"

  function Hex(n: nat): (s: string)
    ensures s != [] && forall i :: 0 <= i < |s| ==> s[i] in HEX
  {
    if n < 16 then [HEX[n]] else Hex(n / 16) + [HEX[n % 16]]
  }

  /** FNV-1a over 32 bits. */
  function Hash(session: string): bv32 {
    if session == [] then 0x811c9dc5
    else
      var last := session[|session| - 1];
      (Hash(session[..|session| - 1]) ^ ((last as int % 0x1_0000_0000) as bv32)) * 0x01000193
  }

  predicate IsWord(c: char) {
    'a' <= c <= 'z' || 'A' <= c <= 'Z' || '0' <= c <= '9'
  }

  function Lower(c: char): char {
    if 'A' <= c <= 'Z' then ((c as int) + 32) as char else c
  }

  function Slugged(s: string): (t: string)
    ensures |t| == |s|
  {
    seq(|s|, i requires 0 <= i < |s| => Lower(if IsWord(s[i]) then s[i] else '_'))
  }

  const SLUG_MAX := 40

  function Slug(s: string): string {
    Slugged(if |s| > SLUG_MAX then s[..SLUG_MAX] else s)
  }

  datatype Kind = Entries | Usage | Values | List | Meta

  function NameOf(k: Kind): string {
    match k
    case Entries => "entries"
    case Usage => "usage"
    case Values => "values"
    case List => "list"
    case Meta => "meta"
  }

  const MAIN := "main"

  /** The table of a session's transcript (`piTables`). */
  function Table(session: string, k: Kind): string {
    if session == MAIN then "pi_" + NameOf(k)
    else "pi_s_" + Slug(session) + "_" + Hex(Hash(session) as int) + "_" + NameOf(k)
  }

  /** The id of the n-th main conversation, and the session an ended one is archived as. */
  function IdOf(n: nat): string {
    if n == 0 then MAIN else MAIN + "." + Digits(n)
  }

  function Archived(id: string): string {
    "archived:" + id
  }

  // ----- Apart -----

  predicate NoBar(s: string) {
    forall i :: 0 <= i < |s| ==> s[i] != '_'
  }

  lemma {:induction false} FirstBar(a: string, x: string, b: string, y: string)
    requires NoBar(a) && NoBar(b) && a + "_" + x == b + "_" + y
    ensures a == b && x == y
  {
    var l, r := a + "_" + x, b + "_" + y;
    assert l[0] == (if a == [] then '_' else a[0]) && r[0] == (if b == [] then '_' else b[0]);
    assert a == [] <==> b == [];
    if a == [] {
      assert x == l[1..] && y == r[1..];
    } else {
      assert l[1..] == a[1..] + "_" + x && r[1..] == b[1..] + "_" + y;
      FirstBar(a[1..], x, b[1..], y);
      assert a == [a[0]] + a[1..] && b == [b[0]] + b[1..];
    }
  }

  lemma HasBar(a: string, x: string)
    ensures !NoBar(a + "_" + x)
  {
    assert (a + "_" + x)[|a|] == '_';
  }

  lemma NamesHaveNoBar(k: Kind)
    ensures NoBar(NameOf(k))
  {
  }

  lemma HexHasNoBar(n: nat)
    ensures NoBar(Hex(n))
  {
  }

  lemma DigitsHaveNoBar(n: nat)
    ensures NoBar(Digits(n))
  {
  }

  lemma SluggedBoth(a: string, b: string)
    ensures Slugged(a + b) == Slugged(a) + Slugged(b)
  {
  }

  lemma SluggedDigits(n: nat)
    ensures Slugged(Digits(n)) == Digits(n)
  {
  }

  /** A generation whose slug is not cut: any below 10^26, and so any the source's numbers reach. */
  predicate Fits(n: nat) {
    |Digits(n)| <= 26
  }

  lemma SafeIntegersFit(n: nat)
    requires n <= 0x20_0000_0000_0000
    ensures Fits(n)
  {
    assert PowerOfTen(4) == 10_000;
    assert PowerOfTen(8) == 10_000 * PowerOfTen(4);
    assert PowerOfTen(12) == 10_000 * PowerOfTen(8);
    assert PowerOfTen(16) == 10_000 * PowerOfTen(12);
    DigitsLength(n, 16);
  }

  /** What follows the slug of the first conversation's archive. */
  function Tail(n: nat): string {
    if n == 0 then [] else "_" + Digits(n)
  }

  lemma SlugOf(n: nat)
    requires Fits(n)
    ensures Slug(Archived(IdOf(n))) == "archived_main" + Tail(n)
  {
    assert Slugged("archived:main") == "archived_main";
    if n > 0 {
      assert Archived(IdOf(n)) == "archived:main" + ("." + Digits(n));
      SluggedBoth("archived:main", "." + Digits(n));
      SluggedBoth(".", Digits(n));
      assert Slugged(".") == "_";
      SluggedDigits(n);
    }
  }

  lemma Regroup(p: string, a: string, t: string, h: string, k: string)
    ensures p + (a + t) + "_" + h + "_" + k == (p + a) + (t + ("_" + (h + "_" + k)))
  {
  }

  function ArchiveHash(n: nat): string {
    Hex(Hash(Archived(IdOf(n))) as int)
  }

  /** An archived table's name past the part all have. */
  function Rest(t: string, h: string, k: Kind): string {
    t + ("_" + (h + "_" + NameOf(k)))
  }

  const ARCHIVE := "pi_s_" + "archived_main"

  lemma ArchiveName(n: nat, k: Kind)
    requires Fits(n)
    ensures Table(Archived(IdOf(n)), k) == ARCHIVE + Rest(Tail(n), ArchiveHash(n), k)
  {
    SlugOf(n);
    assert Archived(IdOf(n))[0] == 'a' && MAIN[0] == 'm';
    Regroup("pi_s_", "archived_main", Tail(n), ArchiveHash(n), NameOf(k));
  }

  lemma SameSuffix(p: string, a: string, b: string)
    requires p + a == p + b
    ensures a == b
  {
    assert a == (p + a)[|p|..] && b == (p + b)[|p|..];
  }

  lemma FirstIsNotLater(h: string, k: Kind, d: string, g: string, l: Kind)
    requires NoBar(h) && NoBar(d)
    ensures "_" + (h + "_" + NameOf(k)) != "_" + (d + "_" + (g + "_" + NameOf(l)))
  {
    NamesHaveNoBar(k);
    HasBar(g, NameOf(l));
    if "_" + (h + "_" + NameOf(k)) == "_" + (d + "_" + (g + "_" + NameOf(l))) {
      SameSuffix("_", h + "_" + NameOf(k), d + "_" + (g + "_" + NameOf(l)));
      FirstBar(h, NameOf(k), d, g + "_" + NameOf(l));
      assert false;
    }
  }

  lemma LaterRest(d: string, h: string, k: Kind)
    ensures Rest("_" + d, h, k) == "_" + (d + "_" + (h + "_" + NameOf(k)))
  {
  }

  lemma FirstRest(h: string, k: Kind)
    ensures Rest([], h, k) == "_" + (h + "_" + NameOf(k))
  {
  }

  lemma TailsApart(n: nat, h: string, k: Kind, m: nat, g: string, l: Kind)
    requires NoBar(h) && NoBar(g) && Rest(Tail(n), h, k) == Rest(Tail(m), g, l)
    ensures n == m && NameOf(k) == NameOf(l)
  {
    DigitsHaveNoBar(n);
    DigitsHaveNoBar(m);
    FirstRest(h, k);
    FirstRest(g, l);
    LaterRest(Digits(n), h, k);
    LaterRest(Digits(m), g, l);
    FirstIsNotLater(h, k, Digits(m), g, l);
    FirstIsNotLater(g, l, Digits(n), h, k);
    if n == 0 {
      SameSuffix("_", h + "_" + NameOf(k), g + "_" + NameOf(l));
      FirstBar(h, NameOf(k), g, NameOf(l));
    } else {
      SameSuffix("_", Digits(n) + "_" + (h + "_" + NameOf(k)), Digits(m) + "_" + (g + "_" + NameOf(l)));
      FirstBar(Digits(n), h + "_" + NameOf(k), Digits(m), g + "_" + NameOf(l));
      FirstBar(h, NameOf(k), g, NameOf(l));
      DigitsRead(n);
      DigitsRead(m);
    }
  }

  lemma KindByName(k: Kind, l: Kind)
    requires NameOf(k) == NameOf(l)
    ensures k == l
  {
    assert "entries"[0] == 'e' && "usage"[0] == 'u' && "values"[0] == 'v' && "list"[0] == 'l' && "meta"[0] == 'm';
  }

  /** Two archived tables of one name are the same table of the same conversation, whatever the hashes are. */
  lemma ArchivesApart(n: nat, k: Kind, m: nat, l: Kind)
    requires Fits(n) && Fits(m) && Table(Archived(IdOf(n)), k) == Table(Archived(IdOf(m)), l)
    ensures n == m && k == l
  {
    var h, g := ArchiveHash(n), ArchiveHash(m);
    ArchiveName(n, k);
    ArchiveName(m, l);
    SameSuffix(ARCHIVE, Rest(Tail(n), h, k), Rest(Tail(m), g, l));
    HexHasNoBar(Hash(Archived(IdOf(n))) as int);
    HexHasNoBar(Hash(Archived(IdOf(m))) as int);
    TailsApart(n, h, k, m, g, l);
    KindByName(k, l);
  }

  /** No archived table has a name of the main tables. */
  lemma MainApart(n: nat, k: Kind, l: Kind)
    requires Fits(n)
    ensures Table(Archived(IdOf(n)), k) != Table(MAIN, l)
  {
    ArchiveName(n, k);
    assert ARCHIVE[3] == 's' && Table(Archived(IdOf(n)), k)[3] == 's';
    assert Table(MAIN, l)[3] == NameOf(l)[0];
  }

  lemma MainKindsApart(k: Kind, l: Kind)
    requires Table(MAIN, k) == Table(MAIN, l)
    ensures k == l
  {
    SameSuffix("pi_", NameOf(k), NameOf(l));
    KindByName(k, l);
  }

  /** The ids are pairwise distinct. */
  lemma IdsApart(n: nat, m: nat)
    requires IdOf(n) == IdOf(m)
    ensures n == m
  {
    if n > 0 && m > 0 {
      assert IdOf(n) == (MAIN + ".") + Digits(n) && IdOf(m) == (MAIN + ".") + Digits(m);
      SameSuffix(MAIN + ".", Digits(n), Digits(m));
      DigitsRead(n);
      DigitsRead(m);
    } else {
      assert n == 0 ==> |IdOf(n)| == 4;
      assert n > 0 ==> |IdOf(n)| >= 6;
      assert m > 0 ==> |IdOf(m)| >= 6;
    }
  }

  lemma IdsDiffer(n: nat, m: nat)
    requires n != m
    ensures IdOf(n) != IdOf(m)
  {
    if IdOf(n) == IdOf(m) { IdsApart(n, m); }
  }
}
