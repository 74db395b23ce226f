/** The binomial coefficient: what the loop of `choose` computes, and what it counts. */
module Binomial {
  /** Pascal's triangle. */
  function Binom(n: nat, k: nat): nat {
    if k == 0 then 1 else if n == 0 then 0 else Binom(n - 1, k - 1) + Binom(n - 1, k)
  }

  lemma {:induction false} NoneBeyond(n: nat, k: nat)
    requires k > n
    ensures Binom(n, k) == 0
  {
    if n > 0 {
      NoneBeyond(n - 1, k - 1);
      NoneBeyond(n - 1, k);
    }
  }

  lemma {:induction false} SomeWithin(n: nat, k: nat)
    requires k <= n
    ensures Binom(n, k) >= 1 && (k == n ==> Binom(n, k) == 1)
  {
    if k > 0 {
      SomeWithin(n - 1, k - 1);
      if k == n { NoneBeyond(n - 1, k); }
    }
  }

  /** One step along a row of the triangle, as the loop takes it. */
  lemma {:induction false} Along(n: nat, k: nat)
    requires k <= n
    ensures (k + 1) * Binom(n, k + 1) == (n - k) * Binom(n, k)
  {
    if k == n {
      NoneBeyond(n, k + 1);
    } else if k == 0 {
      if n == 1 { NoneBeyond(0, 1); } else { Along(n - 1, 0); }
    } else {
      Along(n - 1, k);
      Along(n - 1, k - 1);
      AlongSums(n, k, Binom(n - 1, k - 1), Binom(n - 1, k), Binom(n - 1, k + 1));
    }
  }

  lemma AlongSums(n: int, k: int, a: int, b: int, c: int)
    requires (k + 1) * c == (n - 1 - k) * b && k * b == (n - k) * a
    ensures (k + 1) * (b + c) == (n - k) * (a + b)
  {
    assert (k + 1) * (b + c) == k * b + b + (k + 1) * c;
    assert (n - k) * (a + b) == (n - k) * a + (n - k) * b;
  }

  /** `choose`: nothing outside 0 to n, and otherwise the loop, whose every division is exact. */
  method Choose(n: nat, k: int) returns (c: nat)
    ensures c == if k < 0 then 0 else Binom(n, k)
  {
    if k < 0 || k > n {
      if k > n { NoneBeyond(n, k); }
      return 0;
    }
    c := 1;
    for i := 0 to k
      invariant c == Binom(n, i)
    {
      Along(n, i);
      assert c * (n - i) == Binom(n, i + 1) * (i + 1);
      DividesExactly(c * (n - i), Binom(n, i + 1), i + 1);
      c := c * (n - i) / (i + 1);
    }
  }

  lemma DividesExactly(product: nat, quotient: nat, divisor: nat)
    requires divisor > 0 && product == quotient * divisor
    ensures product / divisor == quotient
  {
    var d, r := product / divisor, product % divisor;
    assert product == d * divisor + r;
    var gap: int := quotient - d;
    assert gap * divisor == r;
    assert gap >= 1 ==> gap * divisor >= divisor;
    assert gap <= -1 ==> gap * divisor + divisor <= 0;
  }

  // ----- What it counts -----

  /** The ways to draw `k` members of a set. */
  ghost function Draws(s: set<nat>, k: nat): set<set<nat>> {
    set t: set<nat> | t <= s && |t| == k
  }

  ghost function Joined(x: nat, draws: set<set<nat>>): set<set<nat>> {
    set t | t in draws :: t + {x}
  }

  lemma JoinedApart(x: nat, t: set<nat>, u: set<nat>)
    requires x !in t && x !in u && t + {x} == u + {x}
    ensures t == u
  {
    assert t == (t + {x}) - {x} && u == (u + {x}) - {x};
  }

  lemma {:induction false} JoinedCount(x: nat, draws: set<set<nat>>)
    requires forall t :: t in draws ==> x !in t
    ensures |Joined(x, draws)| == |draws|
  {
    if draws != {} {
      var t :| t in draws;
      var rest := draws - {t};
      JoinedCount(x, rest);
      if t + {x} in Joined(x, rest) {
        var u :| u in rest && u + {x} == t + {x};
        JoinedApart(x, t, u);
      }
      assert Joined(x, draws) == Joined(x, rest) + {t + {x}};
    }
  }

  /** Draws without `x`, and draws of one fewer with `x` put in. */
  lemma DrawsSplit(s: set<nat>, x: nat, k: nat)
    requires x in s && k > 0
    ensures Draws(s, k) == Draws(s - {x}, k) + Joined(x, Draws(s - {x}, k - 1))
    ensures Draws(s - {x}, k) !! Joined(x, Draws(s - {x}, k - 1))
  {
    forall t | t in Draws(s, k) ensures t in Draws(s - {x}, k) || t in Joined(x, Draws(s - {x}, k - 1)) {
      if x in t {
        var rest := t - {x};
        assert rest in Draws(s - {x}, k - 1) && rest + {x} == t;
      }
    }
  }

  /** There are Binom(|s|, k) ways to draw k of a set. */
  lemma {:induction false} DrawsCount(s: set<nat>, k: nat)
    ensures |Draws(s, k)| == Binom(|s|, k)
  {
    if k == 0 {
      DrawNone(s);
    } else if s == {} {
      assert Draws(s, k) == {};
    } else {
      var x :| x in s;
      DrawsCount(s - {x}, k);
      DrawsCount(s - {x}, k - 1);
      DrawsAdd(s, x, k);
    }
  }

  lemma DrawsAdd(s: set<nat>, x: nat, k: nat)
    requires x in s && k > 0
    ensures |s - {x}| == |s| - 1 && |Draws(s, k)| == |Draws(s - {x}, k)| + |Draws(s - {x}, k - 1)|
  {
    DrawsSplit(s, x, k);
    JoinedCount(x, Draws(s - {x}, k - 1));
  }

  lemma DrawNone(s: set<nat>)
    ensures Draws(s, 0) == {{}} && |Draws(s, 0)| == 1
  {
    assert forall t :: t in Draws(s, 0) <==> t == {};
  }
}
