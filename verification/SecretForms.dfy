// The base64 spellings an export is scrubbed of (`secretForms`): for each of the three places a value can have in a
// group of three bytes, the characters that encode its own bytes whatever stands around it.
module SecretForms {
  import opened Wrappers
  import opened Base64

  const EXACT_MIN := 8
  const BASE64_DECODE_MAX := 65536

  /** `String.prototype.slice` for bounds that are not negative: nothing when they cross, cut to the length. */
  function Slice(t: string, from: nat, to: nat): string {
    var end := if to < |t| then to else |t|;
    if from >= end then "" else t[from..end]
  }

  function Zeros(k: nat): seq<Byte> {
    seq(k, _ => 0)
  }

  /** The form built for alignment `k`. */
  function Core(v: seq<Byte>, k: nat): string {
    Slice(Encode(Zeros(k) + v), if k == 0 then 0 else 4, (k + |v|) / 3 * 4)
  }

  /** How many bytes of the value go with the `k` before it into their group. */
  function Head(k: nat): nat
    requires k < 3
  {
    if k == 0 then 0 else 3 - k
  }

  /** The bytes of the value that fill whole groups of their own at alignment `k`. */
  function Whole(v: seq<Byte>, k: nat): (w: seq<Byte>)
    requires k < 3
    ensures |w| % 3 == 0
  {
    var h := Head(k);
    if |v| < h then [] else v[h..h + (|v| - h) / 3 * 3]
  }

  /** Where in the encoding of what surrounds it the form stands. */
  function Offset(before: nat, k: nat): nat
    requires k <= before
  {
    (before - k) / 3 * 4 + if k == 0 then 0 else 4
  }

  lemma Thirds(k: nat, n: nat)
    requires k < 3 && n >= Head(k)
    ensures (k + n) / 3 == (if k == 0 then 0 else 1) + (n - Head(k)) / 3
  {
  }

  /** The bytes before the value's own groups, with what precedes it, fill groups of their own. */
  lemma HeadGroups(p: seq<Byte>, v: seq<Byte>, k: nat)
    requires k < 3 && |p| % 3 == k && |v| >= Head(k)
    ensures |p + v[..Head(k)]| % 3 == 0 && |p + v[..Head(k)]| / 3 * 4 == Offset(|p|, k)
  {
  }

  lemma ThreeParts(a: seq<Byte>, b: seq<Byte>, c: seq<Byte>)
    requires |a| % 3 == 0 && |b| % 3 == 0
    ensures Encode(a + b + c) == Encode(a) + Encode(b) + Encode(c)
    ensures NoPadding(Encode(a)) && |Encode(a)| == |a| / 3 * 4 && NoPadding(Encode(b)) && |Encode(b)| == |b| / 3 * 4
  {
    assert a + b + c == a + (b + c);
    WholeGroups(a, b + c);
    WholeGroups(b, c);
  }

  /** What of the value is left after its own groups. */
  function Rest(v: seq<Byte>, k: nat): seq<Byte>
    requires k < 3 && |v| >= Head(k)
  {
    v[Head(k) + |Whole(v, k)|..]
  }

  /** Around the value's own groups the encoding falls apart into what is before, the groups, and what is after. */
  lemma Parts(p: seq<Byte>, v: seq<Byte>, s: seq<Byte>, k: nat)
    requires k < 3 && |p| % 3 == k && |v| >= Head(k)
    ensures Encode(p + v + s) == Encode(p + v[..Head(k)]) + Encode(Whole(v, k)) + Encode(Rest(v, k) + s)
    ensures NoPadding(Encode(p + v[..Head(k)])) && |Encode(p + v[..Head(k)])| == Offset(|p|, k)
    ensures NoPadding(Encode(Whole(v, k))) && |Encode(Whole(v, k))| == |Whole(v, k)| / 3 * 4
  {
    var a, b, c := p + v[..Head(k)], Whole(v, k), Rest(v, k) + s;
    HeadGroups(p, v, k);
    assert p + v + s == a + b + c;
    ThreeParts(a, b, c);
  }

  /** A form is the encoding of the value's own whole groups: it depends on nothing but the value, and has no padding. */
  lemma CoreIsItsOwnGroups(v: seq<Byte>, k: nat)
    requires k < 3
    ensures Core(v, k) == Encode(Whole(v, k)) && NoPadding(Core(v, k))
  {
    if |v| >= Head(k) {
      CoreBounds(v, k);
      var a, b, c := CoreParts(v, k);
      SliceMiddle(a, b, c);
    }
  }

  lemma CoreBounds(v: seq<Byte>, k: nat)
    requires k < 3 && |v| >= Head(k)
    ensures (k + |v|) / 3 * 4 == Offset(k, k) + |Whole(v, k)| / 3 * 4
  {
    Thirds(k, |v|);
  }

  lemma CoreParts(v: seq<Byte>, k: nat) returns (a: string, b: string, c: string)
    requires k < 3 && |v| >= Head(k)
    ensures Encode(Zeros(k) + v) == a + b + c && b == Encode(Whole(v, k)) && NoPadding(b)
    ensures |a| == Offset(k, k) && |b| == |Whole(v, k)| / 3 * 4
  {
    Parts(Zeros(k), v, [], k);
    assert Zeros(k) + v + [] == Zeros(k) + v;
    a, b, c := Encode(Zeros(k) + v[..Head(k)]), Encode(Whole(v, k)), Encode(Rest(v, k) + []);
  }

  lemma SliceMiddle(a: string, b: string, c: string)
    ensures Slice(a + b + c, |a|, |a| + |b|) == b
  {
    assert b != "" ==> (a + b + c)[|a|..|a| + |b|] == b;
  }

  /** At least eight characters from any value of eight bytes: no alignment is dropped for its length. */
  lemma NoAlignmentDropped(v: seq<Byte>, k: nat)
    requires k < 3 && |v| >= 8
    ensures |Core(v, k)| >= 8
  {
    CoreIsItsOwnGroups(v, k);
    WholeGroups(Whole(v, k), []);
    assert Whole(v, k) + [] == Whole(v, k);
  }

  predicate StandsAt(text: string, form: string, at: nat) {
    at + |form| <= |text| && text[at..at + |form|] == form
  }

  lemma {:induction false} EncodedLength(bytes: seq<Byte>)
    ensures |Encode(bytes)| == (|bytes| + 2) / 3 * 4
    decreases |bytes|
  {
    if |bytes| >= 3 {
      WholeGroups(bytes[..3], bytes[3..]);
      assert bytes == bytes[..3] + bytes[3..];
      EncodedLength(bytes[3..]);
    }
  }

  /** Too short a value to end a group that other bytes began has no bytes of its own to be known by. */
  lemma ShortHasNoForm(v: seq<Byte>, k: nat)
    requires k < 3 && |v| < Head(k)
    ensures Core(v, k) == "" && Url(Core(v, k)) == ""
  {
    CoreIsItsOwnGroups(v, k);
  }

  /** Whatever bytes stand before and after the value, its form stands in their encoding, at the computed place. */
  lemma CoreStandsInside(p: seq<Byte>, v: seq<Byte>, s: seq<Byte>, k: nat)
    requires k < 3 && |p| % 3 == k
    ensures StandsAt(Encode(p + v + s), Core(v, k), Offset(|p|, k))
  {
    if |v| >= Head(k) {
      Parts(p, v, s, k);
      CoreIsItsOwnGroups(v, k);
    } else {
      ShortHasNoForm(v, k);
      EncodedLength(p + v + s);
    }
  }

  /** The same in base64url, whose padding is gone: only a value without a form may stand nearer its end. */
  lemma UrlCoreStandsInside(p: seq<Byte>, v: seq<Byte>, s: seq<Byte>, k: nat)
    requires k < 3 && |p| % 3 == k
    ensures StandsAt(Url(Encode(p + v + s)), Url(Core(v, k)), if |v| >= Head(k) then Offset(|p|, k) else 0)
    ensures |v| < Head(k) ==> Url(Core(v, k)) == ""
  {
    if |v| >= Head(k) {
      Parts(p, v, s, k);
      CoreIsItsOwnGroups(v, k);
      UrlMiddle(Encode(p + v[..Head(k)]), Encode(Whole(v, k)), Encode(Rest(v, k) + s));
    } else {
      ShortHasNoForm(v, k);
    }
  }

  /** Between texts, a text without padding stands in base64url as it is written alone. */
  lemma UrlMiddle(a: string, b: string, c: string)
    requires NoPadding(a) && NoPadding(b)
    ensures StandsAt(Url(a + b + c), Url(b), |a|)
  {
    UrlHead(a + b, c);
    UrlHead(b, "");
    assert b + "" == b;
    assert UrlChars(a + b) == UrlChars(a) + UrlChars(b);
  }

  // ---- the list of forms

  predicate IsForm(t: string, v: seq<Byte>, k: nat) {
    t == Core(v, k) || t == Url(Core(v, k))
  }

  /** The form for one alignment, made from the value set `k` bytes into an array of zeros. */
  method PaddedCore(v: seq<Byte>, k: nat) returns (core: string)
    ensures core == Core(v, k)
  {
    var padded := new Byte[k + |v|](_ => 0);
    for i := 0 to |v|
      invariant forall j :: 0 <= j < k ==> padded[j] == 0
      invariant forall j :: 0 <= j < i ==> padded[k + j] == v[j]
    {
      padded[k + i] := v[i];
    }
    assert padded[..] == Zeros(k) + v;
    core := Slice(Encode(padded[..]), if k == 0 then 0 else 4, (k + |v|) / 3 * 4);
  }

  /** The spellings kept: whole and of the first `n` alignments, each also as base64url, none shorter than eight. */
  ghost predicate KeptBelow(forms: set<string>, v: seq<Byte>, n: nat) {
    forall t :: t in forms <==> |t| >= 8 && (t == Encode(v) || t == Url(Encode(v)) || FormBelow(t, v, n))
  }

  ghost predicate FormBelow(t: string, v: seq<Byte>, n: nat) {
    exists k: nat :: k < n && IsForm(t, v, k)
  }

  lemma FormOneMore(t: string, v: seq<Byte>, n: nat)
    ensures FormBelow(t, v, n + 1) <==> FormBelow(t, v, n) || IsForm(t, v, n)
  {
    if FormBelow(t, v, n + 1) { var j: nat :| j < n + 1 && IsForm(t, v, j); }
  }

  lemma KeptOneMore(forms: set<string>, v: seq<Byte>, n: nat)
    requires KeptBelow(forms, v, n)
    ensures KeptBelow(Add(Add(forms, Core(v, n)), Url(Core(v, n))), v, n + 1)
  {
    forall t ensures FormBelow(t, v, n + 1) <==> FormBelow(t, v, n) || t == Core(v, n) || t == Url(Core(v, n)) {
      FormOneMore(t, v, n);
    }
  }

  method Base64Forms(v: seq<Byte>) returns (forms: set<string>)
    ensures KeptBelow(forms, v, 3)
  {
    var whole := Encode(v);
    forms := Add(Add({}, whole), Url(whole));
    for k := 0 to 3
      invariant KeptBelow(forms, v, k)
    {
      var core := PaddedCore(v, k);
      ghost var was := forms;
      forms := Add(Add(forms, core), Url(core));
      KeptOneMore(was, v, k);
    }
  }

  function Add(forms: set<string>, text: string): set<string> {
    if |text| >= EXACT_MIN then forms + {text} else forms
  }

  /** Any base64 or base64url of bytes holding the value holds a form on the list. */
  lemma SomeFormIsFound(p: seq<Byte>, v: seq<Byte>, s: seq<Byte>, forms: set<string>)
    requires |v| >= 8 && KeptBelow(forms, v, 3)
    ensures exists t, at: nat :: t in forms && StandsAt(Encode(p + v + s), t, at)
    ensures exists t, at: nat :: t in forms && StandsAt(Url(Encode(p + v + s)), t, at)
  {
    var k := |p| % 3;
    NoAlignmentDropped(v, k);
    CoreStandsInside(p, v, s, k);
    UrlCoreStandsInside(p, v, s, k);
    CoreIsItsOwnGroups(v, k);
    UrlHead(Core(v, k), "");
    assert Core(v, k) + "" == Core(v, k);
    assert IsForm(Core(v, k), v, k) && IsForm(Url(Core(v, k)), v, k);
    assert FormBelow(Core(v, k), v, 3) && FormBelow(Url(Core(v, k)), v, 3);
    assert Core(v, k) in forms && Url(Core(v, k)) in forms;
  }

  // ---- decoding a run

  function Trimmed(t: string): string {
    if |t| % 4 == 1 then t[..|t| - 1] else t
  }

  predicate IsAt(bytes: seq<Byte>, v: seq<Byte>, i: nat) {
    i + |v| <= |bytes| && bytes[i..i + |v|] == v
  }

  ghost predicate Holds(bytes: seq<Byte>, v: seq<Byte>) {
    exists i: nat :: IsAt(bytes, v, i)
  }

  function From(run: string, k: nat): string {
    var body := Stripped(run);
    Trimmed(if k <= |body| then body[k..] else "")
  }

  ghost predicate HeldFrom(run: string, v: seq<Byte>, k: nat) {
    var d := Decode(From(run, k));
    d.Some? && Holds(d.value, v)
  }

  /** A run is decoded from each of its first four characters (`base64Run`). */
  method DecodesToHolding(run: string, v: seq<Byte>) returns (found: bool)
    ensures found <==> exists k: nat :: k < 4 && HeldFrom(run, v, k)
  {
    var k: nat := 0;
    while k < 4
      invariant forall j: nat :: j < k && j < 4 ==> !HeldFrom(run, v, j)
    {
      var d := Decode(From(run, k));
      if d.Some? {
        var held := Search(d.value, v);
        if held {
          assert HeldFrom(run, v, k);
          return true;
        }
      }
      assert !HeldFrom(run, v, k);
      k := k + 1;
    }
    return false;
  }

  method Search(bytes: seq<Byte>, v: seq<Byte>) returns (held: bool)
    ensures held <==> Holds(bytes, v)
  {
    var i: nat := 0;
    while i + |v| <= |bytes|
      invariant forall j: nat :: j < i ==> !IsAt(bytes, v, j)
    {
      if IsAt(bytes, v, i) { return true; }
      i := i + 1;
    }
    return false;
  }

  lemma {:induction false} DecodableLength(t: string)
    requires Decode(t).Some?
    ensures |t| % 4 != 1
    decreases |t|
  {
    if |t| >= 4 { DecodableLength(t[4..]); }
  }

  /**
   * Base64 run on from other base64 characters, so that its groups start at any place of the run: one of the four
   * decodings meets its groups and holds what it encodes.
   */
  lemma RunOnIsFound(junk: string, p: seq<Byte>, v: seq<Byte>, s: seq<Byte>)
    requires AllB64(junk)
    ensures exists k: nat :: k < 4 && HeldFrom(junk + Encode(p + v + s), v, k)
  {
    RoundTrip(p + v + s);
    var k := RunOnHolds(junk, Encode(p + v + s), p, v, s);
    assert HeldFrom(junk + Encode(p + v + s), v, k);
  }

  lemma RunOnHolds(junk: string, text: string, p: seq<Byte>, v: seq<Byte>, s: seq<Byte>) returns (at: nat)
    requires AllB64(junk) && Decode(Stripped(text)) == Some(p + v + s)
    ensures at < 4 && HeldFrom(junk + text, v, at)
  {
    var k, front := RunFrom(junk, text, p + v + s);
    HoldsInside(front, p, v, s);
    HeldByDecoding(junk + text, v, k, front + (p + v + s));
    return k;
  }

  lemma HeldByDecoding(run: string, v: seq<Byte>, k: nat, bytes: seq<Byte>)
    requires Decode(From(run, k)) == Some(bytes) && Holds(bytes, v)
    ensures HeldFrom(run, v, k)
  {
  }

  lemma RunFrom(junk: string, text: string, bytes: seq<Byte>) returns (k: nat, front: seq<Byte>)
    requires AllB64(junk) && Decode(Stripped(text)) == Some(bytes)
    ensures k < 4 && Decode(From(junk + text, k)) == Some(front + bytes)
  {
    k := |junk| % 4;
    var t := Stripped(text);
    DecodeTail(junk, t, k);
    front := Decode(junk[k..]).value;
    DecodableLength(junk[k..] + t);
    FromIs(junk, text, k);
  }

  /** Where the decoding starts, and that nothing is cut off at its end. */
  lemma FromIs(junk: string, text: string, k: nat)
    requires AllB64(junk) && k <= |junk| && |junk[k..] + Stripped(text)| % 4 != 1
    ensures From(junk + text, k) == junk[k..] + Stripped(text)
  {
    assert NoPadding(junk) by { assert forall i :: 0 <= i < |junk| ==> IsB64(junk[i]); }
    StrippedTail(junk, text);
    assert (junk + Stripped(text))[k..] == junk[k..] + Stripped(text);
  }

  lemma DecodeTail(junk: string, t: string, k: nat)
    requires AllB64(junk) && k == |junk| % 4 && Decode(t).Some?
    ensures Decode(junk[k..]).Some? && Decode(junk[k..] + t) == Some(Decode(junk[k..]).value + Decode(t).value)
  {
    var a := junk[k..];
    forall i | 0 <= i < |a| ensures IsB64(a[i]) { assert IsB64(junk[k + i]); }
    DecodeAfterGroups(a, t);
  }

  lemma HoldsInside(front: seq<Byte>, p: seq<Byte>, v: seq<Byte>, s: seq<Byte>)
    ensures Holds(front + (p + v + s), v)
  {
    assert IsAt(front + (p + v + s), v, |front| + |p|);
  }
}
