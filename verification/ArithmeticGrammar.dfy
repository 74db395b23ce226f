// The calculator's grammar, exactly: what it evaluates is what writes some expression, and to that expression's value.
module ArithmeticGrammar {
  import opened Wrappers
  import opened Arithmetic

  /** The tree is written there as needed for the level, and its value is the one read. */
  predicate Reads<N(==)>(a: Arith<N>, s: string, i: nat, p: Parse<N>, t: Tree, level: nat) {
    WellFormed(a, t) && p.Got? && i <= p.next <= |s| && s[i..p.next] == Print(t, level) && ValueOf(a, t) == p.value
  }

  lemma Glue(s: string, i: nat, mid: nat, end: nat)
    requires i <= mid <= end <= |s|
    ensures s[i..end] == s[i..mid] + s[mid..end]
  {
  }

  lemma GlueOne(s: string, i: nat, end: nat)
    requires i < end <= |s|
    ensures s[i..end] == [s[i]] + s[i + 1..end]
  {
  }

  lemma SignBetween(s: string, i: nat, mid: nat, end: nat)
    requires i <= mid < end <= |s|
    ensures s[i..end] == s[i..mid] + ([s[mid]] + s[mid + 1..end])
  {
    Glue(s, i, mid, end);
    GlueOne(s, mid, end);
  }

  lemma Within(s: string, i: nat, end: nat)
    requires i + 1 < end <= |s|
    ensures s[i..end] == [s[i]] + s[i + 1..end - 1] + [s[end - 1]]
  {
  }

  lemma {:induction false} FactorTree<N>(a: Arith<N>, s: string, i: nat) returns (t: Tree)
    requires i <= |s| && FactorAt(a, s, i).Got?
    ensures Reads(a, s, i, FactorAt(a, s, i), t, 2) && !t.Binary?
    decreases |s| - i, 0
  {
    var end := FactorAt(a, s, i).next;
    if i < |s| && s[i] == '-' {
      var e := FactorTree(a, s, i + 1);
      GlueOne(s, i, end);
      t := Negated(e);
    } else if i < |s| && s[i] == '+' {
      var e := FactorTree(a, s, i + 1);
      GlueOne(s, i, end);
      t := Signed(e);
    } else if i < |s| && s[i] == '(' {
      var e := ExpressionTree(a, s, i + 1);
      Within(s, i, end);
      t := Group(e);
    } else {
      t := Literal(s[i..end]);
    }
  }

  lemma {:induction false} TermTree<N>(a: Arith<N>, s: string, i: nat) returns (t: Tree)
    requires i <= |s| && TermAt(a, s, i).Got?
    ensures Reads(a, s, i, TermAt(a, s, i), t, 1) && (t.Binary? ==> Binding(t.op) == 1)
    decreases |s| - i, 2
  {
    var f := FactorAt(a, s, i);
    var l := FactorTree(a, s, i);
    t := TermRest(a, s, i, f.next, f.value, l);
  }

  lemma {:induction false} TermRest<N>(a: Arith<N>, s: string, i: nat, mid: nat, v: N, l: Tree) returns (t: Tree)
    requires i < mid <= |s| && TermFrom(a, s, mid, v).Got?
    requires Reads(a, s, i, Got(v, mid), l, 1) && (l.Binary? ==> Binding(l.op) == 1)
    ensures Reads(a, s, i, TermFrom(a, s, mid, v), t, 1) && (t.Binary? ==> Binding(t.op) == 1)
    decreases |s| - mid, 1
  {
    if mid < |s| && IsProductSign(s[mid]) {
      var f := FactorAt(a, s, mid + 1);
      var r := FactorTree(a, s, mid + 1);
      SignBetween(s, i, mid, f.next);
      var both := Binary(OpOf(s[mid]), l, r);
      t := TermRest(a, s, i, f.next, a.apply(OpOf(s[mid]), v, f.value), both);
    } else {
      t := l;
    }
  }

  lemma {:induction false} ExpressionTree<N>(a: Arith<N>, s: string, i: nat) returns (t: Tree)
    requires i <= |s| && ExpressionAt(a, s, i).Got?
    ensures Reads(a, s, i, ExpressionAt(a, s, i), t, 0)
    decreases |s| - i, 4
  {
    var f := TermAt(a, s, i);
    var l := TermTree(a, s, i);
    t := ExpressionRest(a, s, i, f.next, f.value, l);
  }

  lemma {:induction false} ExpressionRest<N>(a: Arith<N>, s: string, i: nat, mid: nat, v: N, l: Tree) returns (t: Tree)
    requires i < mid <= |s| && ExpressionFrom(a, s, mid, v).Got? && Reads(a, s, i, Got(v, mid), l, 0)
    ensures Reads(a, s, i, ExpressionFrom(a, s, mid, v), t, 0)
    decreases |s| - mid, 3
  {
    if mid < |s| && IsSumSign(s[mid]) {
      var f := TermAt(a, s, mid + 1);
      var r := TermTree(a, s, mid + 1);
      SignBetween(s, i, mid, f.next);
      var both := Binary(OpOf(s[mid]), l, r);
      t := ExpressionRest(a, s, i, f.next, a.apply(OpOf(s[mid]), v, f.value), both);
    } else {
      t := l;
    }
  }

  /** The text, but for its spaces, is how an expression of that value is written. */
  ghost predicate Spells<N>(a: Arith<N>, expr: string, t: Tree, v: N) {
    WellFormed(a, t) && WithoutSpaces(expr) == Print(t, 0) && ValueOf(a, t) == v
  }

  /** A text evaluates to a value exactly when it spells an expression of that value, and fails when it spells none. */
  lemma EvaluatesExactlyWhen<N>(a: Arith<N>, expr: string, v: N)
    ensures Evaluated(a, expr) == Some(v) <==> exists t :: Spells(a, expr, t, v)
  {
    if Evaluated(a, expr) == Some(v) {
      var src := WithoutSpaces(expr);
      var t := ExpressionTree(a, src, 0);
      assert src[0..|src|] == src;
      assert Spells(a, expr, t, v);
    }
    if t :| Spells(a, expr, t, v) { PrintedEvaluates(a, expr, t); }
  }

  // ---- the signs

  /** Each sign is the one it is written as, and products bind closer than sums. */
  lemma SignsAre(op: Op)
    ensures (OpOf('+'), OpOf('-'), OpOf('*'), OpOf('/')) == (Plus, Minus, Times, Over) && OpOf(Sign(op)) == op
    ensures Binding(Times) == Binding(Over) > Binding(Plus) == Binding(Minus)
    ensures IsSumSign(Sign(op)) <==> op.Plus? || op.Minus?
    ensures IsProductSign(Sign(op)) <==> op.Times? || op.Over?
  {
  }
}
