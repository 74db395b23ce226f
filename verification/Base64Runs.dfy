/** The scan that hands every run of base64 characters of a text to a rewriter (`eachBase64Run`). */
module Base64Runs {
  import opened Wrappers
  import opened Base64
  import SecretForms

  const MIN_RUN := 24
  const MAX_RUN := SecretForms.BASE64_DECODE_MAX

  /** How many characters at the front are base64's. */
  function Body(t: string): (n: nat)
    ensures n <= |t| && (forall i :: 0 <= i < n ==> IsB64(t[i])) && (n < |t| ==> !IsB64(t[n]))
  {
    if t == "" || !IsB64(t[0]) then 0 else 1 + Body(t[1..])
  }

  /** The padding taken after `n` characters of a run, while the run is short enough to matter. */
  function Pads(t: string, n: nat): (j: nat)
    requires n <= |t|
    ensures n <= j <= |t| && (forall i :: n <= i < j ==> t[i] == '=')
    ensures j < |t| ==> t[j] != '=' || j >= MAX_RUN + 2
    decreases |t| - n
  {
    if n < |t| && n < MAX_RUN + 2 && t[n] == '=' then Pads(t, n + 1) else n
  }

  function RunEnd(t: string): (j: nat)
    requires t != "" && IsB64(t[0])
    ensures 0 < j <= |t|
  {
    Pads(t, Body(t))
  }

  function Swapped(run: string, swap: string -> Option<string>): string {
    if MIN_RUN <= |run| <= MAX_RUN && swap(run).Some? then swap(run).value else run
  }

  function Rewrite(t: string, swap: string -> Option<string>): string {
    if t == "" then ""
    else if !IsB64(t[0]) then [t[0]] + Rewrite(t[1..], swap)
    else Swapped(t[..RunEnd(t)], swap) + Rewrite(t[RunEnd(t)..], swap)
  }

  /** What the scan does at the front of a text: how far it goes, and what it writes for that. */
  function Step(t: string): (n: nat)
    requires t != ""
    ensures 0 < n <= |t|
  {
    if IsB64(t[0]) then RunEnd(t) else 1
  }

  function Written(t: string, swap: string -> Option<string>): string
    requires t != ""
  {
    if IsB64(t[0]) then Swapped(t[..RunEnd(t)], swap) else [t[0]]
  }

  lemma RewriteStep(t: string, swap: string -> Option<string>)
    requires t != ""
    ensures Rewrite(t, swap) == Written(t, swap) + Rewrite(t[Step(t)..], swap)
  {
  }

  method EndOfRun(text: string, i: nat) returns (j: nat)
    requires i < |text| && IsB64(text[i])
    ensures j == i + RunEnd(text[i..])
  {
    ghost var rest := text[i..];
    j := i;
    while j < |text| && IsB64(text[j])
      invariant i <= j <= |text| && Body(rest) == j - i + Body(text[j..])
    {
      assert text[j..][1..] == text[j + 1..];
      j := j + 1;
    }
    while j < |text| && j - i < MAX_RUN + 2 && text[j] == '='
      invariant i + Body(rest) <= j <= |text| && Pads(rest, Body(rest)) == Pads(rest, j - i)
    {
      j := j + 1;
    }
  }

  /** One turn of the scan: where it goes on, and what replaces the run it passed, if anything. */
  method OneStep(text: string, i: nat, swap: string -> Option<string>) returns (j: nat, r: Option<string>)
    requires i < |text|
    ensures j == i + Step(text[i..]) && j <= |text|
    ensures Written(text[i..], swap) == if r.Some? then r.value else text[i..j]
  {
    if !IsB64(text[i]) { return i + 1, None; }
    j := EndOfRun(text, i);
    var run := text[i..j];
    assert run == text[i..][..j - i];
    if MIN_RUN <= |run| <= MAX_RUN { return j, swap(run); }
    return j, None;
  }

  /** One turn's text written, the rest still to be rewritten. */
  lemma TurnIsRewrite(text: string, i: nat, j: nat, before: string, swap: string -> Option<string>)
    requires i < |text| && j == i + Step(text[i..])
    ensures j <= |text| && before + Rewrite(text[i..], swap) == (before + Written(text[i..], swap)) + Rewrite(text[j..], swap)
  {
    RewriteStep(text[i..], swap);
    assert text[i..][j - i..] == text[j..];
    Regroup(before, Written(text[i..], swap), Rewrite(text[j..], swap));
  }

  /** What is written so far: the pieces kept apart, and the text not yet copied. */
  function SoFar(out: string, text: string, last: nat, i: nat): string
    requires last <= i <= |text|
  {
    out + text[last..i]
  }

  lemma CopiedLater(out: string, text: string, last: nat, i: nat, j: nat)
    requires last <= i <= j <= |text|
    ensures SoFar(out, text, last, j) == SoFar(out, text, last, i) + text[i..j]
  {
    assert text[last..j] == text[last..i] + text[i..j];
    Regroup(out, text[last..i], text[i..j]);
  }

  method EachBase64Run(text: string, swap: string -> Option<string>) returns (r: string)
    ensures r == Rewrite(text, swap)
  {
    var out := "";
    var last, i := 0, 0;
    assert text[0..] == text && SoFar("", text, 0, 0) == "";
    while i < |text|
      invariant 0 <= last <= i <= |text| && (last == 0 ==> out == "")
      invariant SoFar(out, text, last, i) + Rewrite(text[i..], swap) == Rewrite(text, swap)
    {
      var j, run := OneStep(text, i, swap);
      TurnIsRewrite(text, i, j, SoFar(out, text, last, i), swap);
      if run.Some? {
        ghost var was := SoFar(out, text, last, i);
        out := out + text[last..i] + run.value;
        last := j;
        assert SoFar(out, text, last, j) == was + run.value;
      } else {
        CopiedLater(out, text, last, i, j);
      }
      i := j;
    }
    assert text[|text|..] == "";
    r := if last == 0 then text else out + text[last..];
    assert r == SoFar(out, text, last, |text|);
  }

  lemma WrittenUnswapped(t: string, swap: string -> Option<string>)
    requires t != "" && forall run :: swap(run).None?
    ensures Written(t, swap) == t[..Step(t)]
  {
  }

  lemma StepUnswapped(t: string, swap: string -> Option<string>)
    requires t != "" && forall run :: swap(run).None?
    ensures Rewrite(t, swap) == t[..Step(t)] + Rewrite(t[Step(t)..], swap)
  {
    RewriteStep(t, swap);
    WrittenUnswapped(t, swap);
    assert Rewrite(t, swap) == Written(t, swap) + Rewrite(t[Step(t)..], swap);
  }

  /** A rewriter that replaces nothing leaves the text as it was. */
  lemma {:induction false} NothingSwapped(t: string, swap: string -> Option<string>)
    requires forall run :: swap(run).None?
    ensures Rewrite(t, swap) == t
    decreases |t|
  {
    if t != "" {
      StepUnswapped(t, swap);
      NothingSwapped(t[Step(t)..], swap);
      InTwo(t, Step(t));
    }
  }

  lemma InTwo(t: string, n: nat)
    requires n <= |t|
    ensures t[..n] + t[n..] == t
  {
  }

  lemma {:induction false} BodyOf(a: string, b: string)
    requires a != "" && (!IsB64(a[|a| - 1]) || (b != "" ==> !IsB64(b[0])))
    ensures Body(a + b) == Body(a)
  {
    if IsB64(a[0]) {
      if |a| == 1 {
        assert (a + b)[1..] == b;
        assert Body(b) == 0;
      } else {
        assert (a + b)[1..] == a[1..] + b;
        BodyOf(a[1..], b);
      }
    }
  }

  lemma {:induction false} PadsOf(a: string, b: string, n: nat)
    requires n <= |a| && (b != "" ==> b[0] != '=')
    ensures Pads(a + b, n) == Pads(a, n)
    decreases |a| - n
  {
    if n < |a| && n < MAX_RUN + 2 && a[n] == '=' { PadsOf(a, b, n + 1); }
  }

  lemma Regroup(a: string, b: string, c: string)
    ensures a + (b + c) == (a + b) + c
  {
  }

  /** A scan's first step is the same whatever follows the text, unless a run is cut there. */
  lemma StepBefore(pre: string, rest: string, swap: string -> Option<string>)
    requires pre != "" && !IsB64(pre[|pre| - 1]) && (rest != "" ==> rest[0] != '=')
    ensures Step(pre + rest) == Step(pre) && Written(pre + rest, swap) == Written(pre, swap)
  {
    if IsB64(pre[0]) {
      BodyOf(pre, rest);
      PadsOf(pre, rest, Body(pre));
      assert (pre + rest)[..Step(pre)] == pre[..Step(pre)];
    }
  }

  lemma StretchFirst(stretch: string, post: string, swap: string -> Option<string>)
    requires AllB64(stretch) && MIN_RUN <= |stretch| <= MAX_RUN
    requires post == "" || (!IsB64(post[0]) && post[0] != '=')
    ensures Rewrite(stretch + post, swap) == Swapped(stretch, swap) + Rewrite(post, swap)
  {
    var t := stretch + post;
    BodyOf(stretch, post);
    assert Body(stretch) == |stretch|;
    PadsOf(stretch, post, |stretch|);
    assert t[..|stretch|] == stretch && t[|stretch|..] == post;
    assert t[0] == stretch[0] && IsB64(t[0]);
    RewriteStep(t, swap);
  }

  lemma StepApart(pre: string, rest: string, swap: string -> Option<string>)
    requires pre != "" && !IsB64(pre[|pre| - 1]) && (rest != "" ==> rest[0] != '=')
    ensures Rewrite(pre, swap) == Written(pre, swap) + Rewrite(pre[Step(pre)..], swap)
    ensures Rewrite(pre + rest, swap) == Written(pre, swap) + Rewrite(pre[Step(pre)..] + rest, swap)
    ensures pre[Step(pre)..] == "" || !IsB64(pre[Step(pre)..][|pre[Step(pre)..]| - 1])
  {
    StepBefore(pre, rest, swap);
    RewriteStep(pre, swap);
    RewriteStep(pre + rest, swap);
    TailOf(pre, rest, Step(pre));
  }

  lemma TailOf(pre: string, rest: string, n: nat)
    requires n <= |pre|
    ensures (pre + rest)[n..] == pre[n..] + rest
  {
  }

  /** Two texts rewrite apart where no run reaches across. */
  lemma {:induction false} RewriteApart(pre: string, rest: string, swap: string -> Option<string>)
    requires pre == "" || !IsB64(pre[|pre| - 1])
    requires rest == "" || rest[0] != '='
    ensures Rewrite(pre + rest, swap) == Rewrite(pre, swap) + Rewrite(rest, swap)
    decreases |pre|
  {
    if pre == "" {
      assert pre + rest == rest;
    } else {
      StepApart(pre, rest, swap);
      RewriteApart(pre[Step(pre)..], rest, swap);
      Regroup(Written(pre, swap), Rewrite(pre[Step(pre)..], swap), Rewrite(rest, swap));
    }
  }

  /**
   * A stretch of base64 characters with none beside it, of a length the scan takes, is handed over whole, and what is
   * before and after it is rewritten as if it stood alone.
   */
  lemma StretchIsHandedOver(pre: string, stretch: string, post: string, swap: string -> Option<string>)
    requires AllB64(stretch) && 24 <= |stretch| <= 65_536
    requires pre == "" || !IsB64(pre[|pre| - 1])
    requires post == "" || (!IsB64(post[0]) && post[0] != '=')
    ensures Rewrite(pre + (stretch + post), swap) == Rewrite(pre, swap) + (Swapped(stretch, swap) + Rewrite(post, swap))
  {
    assert IsB64(stretch[0]) && (stretch + post)[0] == stretch[0];
    StretchFirst(stretch, post, swap);
    RewriteApart(pre, stretch + post, swap);
  }
}
