/** Base64 and base64url (sections 4 and 5 of RFC 4648), as `btoa` writes them and `atob` reads them. */
module Base64 {
  import opened Wrappers

  type Byte = n: nat | n < 256

  // ---- characters

  function Char(s: nat): (c: char)
    requires s < 64
    ensures Value(c) == Some(s) && c != '='
  {
    if s < 26 then ('A' as int + s) as char
    else if s < 52 then ('a' as int + (s - 26)) as char
    else if s < 62 then ('0' as int + (s - 52)) as char
    else if s == 62 then '+' else '/'
  }

  /** What a character of either alphabet stands for. */
  function Value(c: char): (v: Option<nat>)
    ensures v.Some? ==> v.value < 64
  {
    if 'A' <= c <= 'Z' then Some(c as int - 'A' as int)
    else if 'a' <= c <= 'z' then Some(c as int - 'a' as int + 26)
    else if '0' <= c <= '9' then Some(c as int - '0' as int + 52)
    else if c == '+' || c == '-' then Some(62)
    else if c == '/' || c == '_' then Some(63)
    else None
  }

  predicate IsB64(c: char) {
    Value(c).Some?
  }

  function UrlChar(c: char): (u: char)
    ensures Value(u) == Value(c) && (c == '=' <==> u == '=')
  {
    if c == '+' then '-' else if c == '/' then '_' else c
  }

  // ---- encoding

  /** Six bits, or the padding of a last group. */
  type Symbol = n: nat | n <= 64
  const PAD: Symbol := 64

  /** Three bytes are four symbols; a last group of one or two is padded. */
  function Symbols(bytes: seq<Byte>): seq<Symbol> {
    if |bytes| == 0 then []
    else if |bytes| == 1 then [bytes[0] / 4, bytes[0] % 4 * 16, PAD, PAD]
    else if |bytes| == 2 then [bytes[0] / 4, bytes[0] % 4 * 16 + bytes[1] / 16, bytes[1] % 16 * 4, PAD]
    else
      [bytes[0] / 4, bytes[0] % 4 * 16 + bytes[1] / 16, bytes[1] % 16 * 4 + bytes[2] / 64, bytes[2] % 64] + Symbols(bytes[3..])
  }

  function SymbolChar(n: Symbol): (c: char)
    ensures c == '=' <==> n == PAD
    ensures n != PAD ==> Value(c) == Some(n)
  {
    if n == PAD then '=' else Char(n)
  }

  function Spelled(s: seq<Symbol>): (t: string)
    ensures |t| == |s| && forall i :: 0 <= i < |s| ==> t[i] == SymbolChar(s[i])
  {
    seq(|s|, i requires 0 <= i < |s| => SymbolChar(s[i]))
  }

  function Encode(bytes: seq<Byte>): string {
    Spelled(Symbols(bytes))
  }

  predicate NoPadding(t: string) {
    forall i :: 0 <= i < |t| ==> t[i] != '='
  }

  lemma SpelledBoth(a: seq<Symbol>, b: seq<Symbol>)
    ensures Spelled(a + b) == Spelled(a) + Spelled(b)
  {
  }

  lemma {:induction false} WholeSymbols(a: seq<Byte>, b: seq<Byte>)
    requires |a| % 3 == 0
    ensures Symbols(a + b) == Symbols(a) + Symbols(b)
    ensures |Symbols(a)| == |a| / 3 * 4 && forall i :: 0 <= i < |Symbols(a)| ==> Symbols(a)[i] != PAD
  {
    if a == [] {
      assert a + b == b;
    } else {
      var all := a + b;
      assert all[0] == a[0] && all[1] == a[1] && all[2] == a[2] && all[3..] == a[3..] + b;
      WholeSymbols(a[3..], b);
    }
  }

  /** Whole groups encode on their own, whatever follows them. */
  lemma WholeGroups(a: seq<Byte>, b: seq<Byte>)
    requires |a| % 3 == 0
    ensures Encode(a + b) == Encode(a) + Encode(b)
    ensures |Encode(a)| == |a| / 3 * 4 && NoPadding(Encode(a))
  {
    WholeSymbols(a, b);
    SpelledBoth(Symbols(a), Symbols(b));
  }

  function Url(t: string): string {
    Stripped(UrlChars(t))
  }

  function UrlChars(t: string): (u: string)
    ensures |u| == |t| && forall i :: 0 <= i < |t| ==> u[i] == UrlChar(t[i])
  {
    seq(|t|, i requires 0 <= i < |t| => UrlChar(t[i]))
  }

  /** The text without its trailing padding. */
  function Stripped(t: string): string {
    if t != "" && t[|t| - 1] == '=' then Stripped(t[..|t| - 1]) else t
  }

  /** Padding is stripped from the end alone: text before it that has none stays whole. */
  lemma {:induction false} StrippedTail(a: string, b: string)
    requires NoPadding(a)
    ensures Stripped(a + b) == a + Stripped(b)
  {
    if b == "" {
      assert a + b == a;
    } else {
      assert (a + b)[|a + b| - 1] == b[|b| - 1];
      if b[|b| - 1] == '=' {
        assert (a + b)[..|a + b| - 1] == a + b[..|b| - 1];
        StrippedTail(a, b[..|b| - 1]);
      }
    }
  }

  lemma UrlHead(a: string, b: string)
    requires NoPadding(a)
    ensures Url(a + b) == UrlChars(a) + Url(b) && Url(a) == UrlChars(a)
  {
    assert UrlChars(a + b) == UrlChars(a) + UrlChars(b);
    StrippedTail(UrlChars(a), UrlChars(b));
    StrippedTail(UrlChars(a), "");
    assert UrlChars(a) + "" == UrlChars(a);
  }

  // ---- decoding

  predicate AllB64(t: string) {
    forall i :: 0 <= i < |t| ==> IsB64(t[i])
  }

  /** The bytes of up to four characters, the leftover bits dropped. */
  function Bytes(t: string): seq<Byte>
    requires 2 <= |t| <= 4 && AllB64(t)
  {
    var first := Value(t[0]).value * 4 + Value(t[1]).value / 16;
    if |t| == 2 then [first]
    else
      var second := Value(t[1]).value % 16 * 16 + Value(t[2]).value / 4;
      if |t| == 3 then [first, second]
      else [first, second, Value(t[2]).value % 4 * 64 + Value(t[3]).value]
  }

  /** Unpadded text of either alphabet, as `atob` reads it: one character over is no text. */
  function Decode(t: string): Option<seq<Byte>> {
    if |t| == 0 then Some([])
    else if |t| == 1 || !AllB64(if |t| < 4 then t else t[..4]) then None
    else if |t| < 4 then Some(Bytes(t))
    else
      var rest := Decode(t[4..]);
      if rest.None? then None else Some(Bytes(t[..4]) + rest.value)
  }

  /** Six and two bits, four and four, two and six: the three bytes come back from the four values. */
  lemma Bits(a: Byte, b: Byte, c: Byte)
    ensures a / 4 * 4 + (a % 4 * 16 + b / 16) / 16 == a
    ensures (a % 4 * 16 + b / 16) % 16 * 16 + (b % 16 * 4 + c / 64) / 4 == b
    ensures (b % 16 * 4 + c / 64) % 4 * 64 + c % 64 == c
  {
  }

  /** The bytes a group's symbols stand for, read from their characters. */
  lemma SymbolsRead(s: seq<Symbol>)
    requires 2 <= |s| <= 4 && forall i :: 0 <= i < |s| ==> s[i] != PAD
    ensures AllB64(Spelled(s))
    ensures forall i :: 0 <= i < |s| ==> Value(Spelled(s)[i]) == Some(s[i])
  {
  }

  lemma GroupDecodes(bytes: seq<Byte>, t: string)
    requires |bytes| == 3 && Decode(t).Some?
    ensures NoPadding(Encode(bytes)) && |Encode(bytes)| == 4
    ensures Decode(Encode(bytes) + t) == Some(bytes + Decode(t).value)
  {
    WholeGroups(bytes, []);
    var g := Encode(bytes);
    var u := g + t;
    assert u[4..] == t && u[..4] == g;
    GroupReads(bytes);
  }

  lemma GroupReads(bytes: seq<Byte>)
    requires |bytes| == 3
    ensures |Encode(bytes)| == 4 && AllB64(Encode(bytes)) && Bytes(Encode(bytes)) == bytes
  {
    assert Symbols(bytes[3..]) == [];
    SymbolsRead(Symbols(bytes));
    Bits(bytes[0], bytes[1], bytes[2]);
  }

  /** The symbols of a last group before its padding read as its bytes. */
  lemma PairReads(bytes: seq<Byte>, s: seq<Symbol>)
    requires |bytes| == 2 && s == [bytes[0] / 4, bytes[0] % 4 * 16 + bytes[1] / 16, bytes[1] % 16 * 4]
    ensures NoPadding(Spelled(s)) && Decode(Spelled(s)) == Some(bytes)
  {
    SymbolsRead(s);
    Bits(bytes[0], bytes[1], 0);
    assert Bytes(Spelled(s)) == bytes;
  }

  lemma SingleReads(bytes: seq<Byte>, s: seq<Symbol>)
    requires |bytes| == 1 && s == [bytes[0] / 4, bytes[0] % 4 * 16]
    ensures NoPadding(Spelled(s)) && Decode(Spelled(s)) == Some(bytes)
  {
    SymbolsRead(s);
    Bits(bytes[0], 0, 0);
    assert Bytes(Spelled(s)) == bytes;
  }

  lemma LastGroup(bytes: seq<Byte>) returns (s: seq<Symbol>)
    requires 1 <= |bytes| <= 2
    ensures NoPadding(Spelled(s)) && Decode(Spelled(s)) == Some(bytes)
    ensures Encode(bytes) == Spelled(s) + if |bytes| == 2 then "=" else "=="
  {
    if |bytes| == 2 {
      s := [bytes[0] / 4, bytes[0] % 4 * 16 + bytes[1] / 16, bytes[1] % 16 * 4];
      PairReads(bytes, s);
      assert Symbols(bytes) == s + [PAD] && Spelled([PAD]) == "=";
      SpelledBoth(s, [PAD]);
    } else {
      s := [bytes[0] / 4, bytes[0] % 4 * 16];
      SingleReads(bytes, s);
      assert Symbols(bytes) == s + [PAD, PAD] && Spelled([PAD, PAD]) == "==";
      SpelledBoth(s, [PAD, PAD]);
    }
  }

  lemma PaddingStripped(t: string)
    requires NoPadding(t)
    ensures Stripped(t + "=") == t && Stripped(t + "==") == t
  {
    assert "="[..0] == "" && "=="[..1] == "=" && Stripped("=") == "" && Stripped("==") == "";
    StrippedTail(t, "=");
    StrippedTail(t, "==");
    assert t + "" == t;
  }

  /** Decoding what was encoded, its padding stripped, gives the bytes back. */
  lemma {:induction false} RoundTrip(bytes: seq<Byte>)
    ensures Decode(Stripped(Encode(bytes))) == Some(bytes)
  {
    if |bytes| >= 3 {
      var first, rest := bytes[..3], bytes[3..];
      RoundTrip(rest);
      WholeGroups(first, rest);
      GroupDecodes(first, Stripped(Encode(rest)));
      StrippedTail(Encode(first), Encode(rest));
      assert first + rest == bytes;
    } else if bytes != [] {
      var s := LastGroup(bytes);
      PaddingStripped(Spelled(s));
    }
  }

  /** A character of the other alphabet reads the same. */
  lemma {:induction false} SameValuesDecodeAlike(t: string, u: string)
    requires |t| == |u| && forall i :: 0 <= i < |t| ==> Value(t[i]) == Value(u[i])
    ensures Decode(t) == Decode(u)
    decreases |t|
  {
    if |t| >= 4 {
      SameValuesDecodeAlike(t[4..], u[4..]);
      assert AllB64(t[..4]) <==> AllB64(u[..4]) by {
        assert forall i :: 0 <= i < 4 ==> t[..4][i] == t[i] && u[..4][i] == u[i];
      }
    }
  }

  /** Text of whole groups before a text decodes to bytes before its bytes. */
  lemma {:induction false} DecodeAfterGroups(a: string, t: string)
    requires |a| % 4 == 0 && AllB64(a) && Decode(t).Some?
    ensures Decode(a).Some? && Decode(a + t) == Some(Decode(a).value + Decode(t).value)
    decreases |a|
  {
    if a == "" {
      assert a + t == t;
      assert [] + Decode(t).value == Decode(t).value;
    } else {
      assert (a + t)[4..] == a[4..] + t && (a + t)[..4] == a[..4];
      DecodeAfterGroups(a[4..], t);
      var head, rest := Bytes(a[..4]), Decode(a[4..]).value;
      assert head + (rest + Decode(t).value) == head + rest + Decode(t).value;
    }
  }

  // ---- the alphabets and the test vectors of RFC 4648

  const UPPER := "ABCDEFGHIJKLMNOPQRSTUVWXYZ"
  const LOWER := "abcdefghijklmnopqrstuvwxyz"
  const DIGITS := "0123456789"

  /** Table 1 of section 4, and the two other characters of table 2 in section 5. */
  lemma AlphabetsAre(n: nat)
    requires n < 64
    ensures |UPPER| == |LOWER| == 26 && |DIGITS| == 10
    ensures Char(n) == if n < 26 then UPPER[n] else if n < 52 then LOWER[n - 26] else if n < 62 then DIGITS[n - 52] else if n == 62 then '+' else '/'
    ensures UrlChar(Char(n)) == if n == 62 then '-' else if n == 63 then '_' else Char(n)
  {
    assert UPPER == seq(26, i requires 0 <= i < 26 => ('A' as int + i) as char);
    assert LOWER == seq(26, i requires 0 <= i < 26 => ('a' as int + i) as char);
    assert DIGITS == seq(10, i requires 0 <= i < 10 => ('0' as int + i) as char);
  }

  /** Two characters whole, and one with its padding. */
  lemma Spellings()
    ensures Spelled([25, 32, PAD, PAD]) == "Zg==" && Spelled([25, 38, 60, PAD]) == "Zm8=" && Spelled([25, 38, 61, 47]) == "Zm9v"
    ensures Spelled([24, 32, PAD, PAD]) == "Yg==" && Spelled([24, 38, 4, PAD]) == "YmE=" && Spelled([24, 38, 5, 50]) == "YmFy"
  {
  }

  lemma LastGroups()
    ensures Symbols([102]) == [25, 32, PAD, PAD] && Symbols([102, 111]) == [25, 38, 60, PAD]
    ensures Symbols([98]) == [24, 32, PAD, PAD] && Symbols([98, 97]) == [24, 38, 4, PAD]
  {
  }

  lemma ThreeBytes(a: Byte, b: Byte, c: Byte)
    ensures Symbols([a, b, c]) == [a / 4, a % 4 * 16 + b / 16, b % 16 * 4 + c / 64, c % 64]
  {
    assert [a, b, c][3..] == [];
  }

  /** The vectors of section 10, "f" to "foobar" as bytes. */
  lemma VectorsAre()
    ensures Encode([]) == "" && Encode([102]) == "Zg==" && Encode([102, 111]) == "Zm8=" && Encode([102, 111, 111]) == "Zm9v"
    ensures Encode([102, 111, 111] + [98]) == "Zm9v" + "Yg==" && Encode([102, 111, 111] + [98, 97]) == "Zm9v" + "YmE="
    ensures Encode([102, 111, 111] + [98, 97, 114]) == "Zm9v" + "YmFy"
  {
    LastGroups();
    ThreeBytes(102, 111, 111);
    ThreeBytes(98, 97, 114);
    Spellings();
    WholeGroups([102, 111, 111], [98]);
    WholeGroups([102, 111, 111], [98, 97]);
    WholeGroups([102, 111, 111], [98, 97, 114]);
  }
}
