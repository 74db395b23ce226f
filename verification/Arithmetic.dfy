// The bench's calculator (`arithmetic`): a recursive-descent evaluator over an index that moves through the text.
//
// It is modelled over any arithmetic: a type of numbers, how a text of digits is read as one, and what each sign does to
// them. So what is proved holds of the engine's own numbers, rounding and division by zero included.
module Arithmetic {
  import opened Wrappers

  // ---- the text

  predicate IsSpace(c: char) {
    c == ' ' || '\t' <= c <= '\r' || c == '\U{A0}' || c == '\U{1680}' || '\U{2000}' <= c <= '\U{200A}'
    || c == '\U{2028}' || c == '\U{2029}' || c == '\U{202F}' || c == '\U{205F}' || c == '\U{3000}' || c == '\U{FEFF}'
  }

  function WithoutSpaces(t: string): string {
    if t == "" then "" else (if IsSpace(t[0]) then [] else [t[0]]) + WithoutSpaces(t[1..])
  }

  predicate IsDigit(c: char) {
    '0' <= c <= '9'
  }

  predicate InNumber(c: char) {
    IsDigit(c) || c == '.'
  }

  predicate Allowed(c: char) {
    InNumber(c) || c in "+-*/()"
  }

  // ---- numbers

  datatype Op = Plus | Minus | Times | Over

  /** An arithmetic. `read` is none where the text is no finite number. */
  datatype Arith<!N> = Arith(read: string -> Option<N>, negate: N -> N, apply: (Op, N, N) -> N)

  function Sign(op: Op): char {
    match op
    case Plus => '+'
    case Minus => '-'
    case Times => '*'
    case Over => '/'
  }

  predicate IsSumSign(c: char) {
    c == '+' || c == '-'
  }

  predicate IsProductSign(c: char) {
    c == '*' || c == '/'
  }

  function OpOf(c: char): Op {
    if c == '+' then Plus else if c == '-' then Minus else if c == '*' then Times else Over
  }

  // ---- what the evaluator answers, from any index

  datatype Parse<N> = Got(value: N, next: nat) | Failed

  function NumberEnd(s: string, i: nat): (j: nat)
    requires i <= |s|
    ensures i <= j <= |s| && (forall k :: i <= k < j ==> InNumber(s[k])) && (j < |s| ==> !InNumber(s[j]))
    decreases |s| - i
  {
    if i < |s| && InNumber(s[i]) then NumberEnd(s, i + 1) else i
  }

  function NumberAt<N>(a: Arith<N>, s: string, i: nat): (p: Parse<N>)
    requires i <= |s|
    ensures p.Got? ==> i < p.next <= |s|
  {
    var j := NumberEnd(s, i);
    if i == j || a.read(s[i..j]).None? then Failed else Got(a.read(s[i..j]).value, j)
  }

  function FactorAt<N>(a: Arith<N>, s: string, i: nat): (p: Parse<N>)
    requires i <= |s|
    ensures p.Got? ==> i < p.next <= |s|
    decreases |s| - i, 0
  {
    if i < |s| && s[i] == '-' then
      var f := FactorAt(a, s, i + 1);
      if f.Got? then Got(a.negate(f.value), f.next) else Failed
    else if i < |s| && s[i] == '+' then FactorAt(a, s, i + 1)
    else if i < |s| && s[i] == '(' then
      var e := ExpressionAt(a, s, i + 1);
      if e.Got? && e.next < |s| && s[e.next] == ')' then Got(e.value, e.next + 1) else Failed
    else NumberAt(a, s, i)
  }

  function TermAt<N>(a: Arith<N>, s: string, i: nat): (p: Parse<N>)
    requires i <= |s|
    ensures p.Got? ==> i < p.next <= |s|
    decreases |s| - i, 2
  {
    var f := FactorAt(a, s, i);
    if f.Got? then TermFrom(a, s, f.next, f.value) else Failed
  }

  /** The rest of a term, `v` being what has been worked out so far. */
  function TermFrom<N>(a: Arith<N>, s: string, i: nat, v: N): (p: Parse<N>)
    requires i <= |s|
    ensures p.Got? ==> i <= p.next <= |s|
    decreases |s| - i, 1
  {
    if i < |s| && IsProductSign(s[i]) then
      var f := FactorAt(a, s, i + 1);
      if f.Got? then TermFrom(a, s, f.next, a.apply(OpOf(s[i]), v, f.value)) else Failed
    else Got(v, i)
  }

  function ExpressionAt<N>(a: Arith<N>, s: string, i: nat): (p: Parse<N>)
    requires i <= |s|
    ensures p.Got? ==> i < p.next <= |s|
    decreases |s| - i, 4
  {
    var t := TermAt(a, s, i);
    if t.Got? then ExpressionFrom(a, s, t.next, t.value) else Failed
  }

  function ExpressionFrom<N>(a: Arith<N>, s: string, i: nat, v: N): (p: Parse<N>)
    requires i <= |s|
    ensures p.Got? ==> i <= p.next <= |s|
    decreases |s| - i, 3
  {
    if i < |s| && IsSumSign(s[i]) then
      var t := TermAt(a, s, i + 1);
      if t.Got? then ExpressionFrom(a, s, t.next, a.apply(OpOf(s[i]), v, t.value)) else Failed
    else Got(v, i)
  }

  function Evaluated<N>(a: Arith<N>, expr: string): Option<N> {
    var src := WithoutSpaces(expr);
    if src == "" || exists i :: 0 <= i < |src| && !Allowed(src[i]) then None
    else
      var p := ExpressionAt(a, src, 0);
      if p.Got? && p.next == |src| then Some(p.value) else None
  }

  // ---- the evaluator

  /** The shared index moves through the text; every call ends, on any text. */
  class Evaluator<!N> {
    const a: Arith<N>
    const src: string
    var i: nat

    constructor (a: Arith<N>, src: string)
      ensures this.a == a && this.src == src && i == 0
    {
      this.a := a;
      this.src := src;
      i := 0;
    }

    method Number() returns (v: Option<N>)
      requires i <= |src|
      modifies this
      ensures i <= |src| && v.Some? == NumberAt(a, src, old(i)).Got?
      ensures v.Some? ==> NumberAt(a, src, old(i)) == Got(v.value, i)
    {
      var start := i;
      while i < |src| && InNumber(src[i])
        invariant start <= i <= |src| && NumberEnd(src, start) == NumberEnd(src, i)
      {
        i := i + 1;
      }
      if start == i { return None; }
      return a.read(src[start..i]);
    }

    method Factor() returns (v: Option<N>)
      requires i <= |src|
      modifies this
      ensures i <= |src| && v.Some? == FactorAt(a, src, old(i)).Got?
      ensures v.Some? ==> FactorAt(a, src, old(i)) == Got(v.value, i)
      decreases |src| - i, 0
    {
      if i < |src| && src[i] == '-' {
        i := i + 1;
        v := Factor();
        return if v.Some? then Some(a.negate(v.value)) else None;
      }
      if i < |src| && src[i] == '+' {
        i := i + 1;
        v := Factor();
        return;
      }
      if i < |src| && src[i] == '(' {
        i := i + 1;
        v := Expression();
        if v.None? || i >= |src| || src[i] != ')' { return None; }
        i := i + 1;
        return;
      }
      v := Number();
    }

    method Term() returns (v: Option<N>)
      requires i <= |src|
      modifies this
      ensures i <= |src| && v.Some? == TermAt(a, src, old(i)).Got?
      ensures v.Some? ==> TermAt(a, src, old(i)) == Got(v.value, i)
      decreases |src| - i, 1
    {
      v := Factor();
      if v.None? { return; }
      while i < |src| && IsProductSign(src[i])
        invariant old(i) < i <= |src| && v.Some? && TermAt(a, src, old(i)) == TermFrom(a, src, i, v.value)
        decreases |src| - i
      {
        var op := OpOf(src[i]);
        i := i + 1;
        var r := Factor();
        if r.None? { return None; }
        v := Some(a.apply(op, v.value, r.value));
      }
    }

    method Expression() returns (v: Option<N>)
      requires i <= |src|
      modifies this
      ensures i <= |src| && v.Some? == ExpressionAt(a, src, old(i)).Got?
      ensures v.Some? ==> ExpressionAt(a, src, old(i)) == Got(v.value, i)
      decreases |src| - i, 2
    {
      v := Term();
      if v.None? { return; }
      while i < |src| && IsSumSign(src[i])
        invariant old(i) < i <= |src| && v.Some? && ExpressionAt(a, src, old(i)) == ExpressionFrom(a, src, i, v.value)
        decreases |src| - i
      {
        var op := OpOf(src[i]);
        i := i + 1;
        var r := Term();
        if r.None? { return None; }
        v := Some(a.apply(op, v.value, r.value));
      }
    }
  }

  method Evaluate<N>(a: Arith<N>, expr: string) returns (v: Option<N>)
    ensures v == Evaluated(a, expr)
  {
    var src := WithoutSpaces(expr);
    if src == "" || exists i :: 0 <= i < |src| && !Allowed(src[i]) { return None; }
    var e := new Evaluator(a, src);
    v := e.Expression();
    if v.Some? && e.i != |src| { return None; }
  }

  // ---- expressions and how they are written

  /** A group is in parentheses whether they are needed or not. */
  datatype Tree = Literal(text: string) | Negated(e: Tree) | Signed(e: Tree) | Group(e: Tree) | Binary(op: Op, l: Tree, r: Tree)

  predicate IsLiteral<N>(a: Arith<N>, t: string) {
    t != "" && (forall i :: 0 <= i < |t| ==> InNumber(t[i])) && a.read(t).Some?
  }

  predicate WellFormed<N>(a: Arith<N>, t: Tree) {
    match t
    case Literal(text) => IsLiteral(a, text)
    case Negated(e) => WellFormed(a, e)
    case Signed(e) => WellFormed(a, e)
    case Group(e) => WellFormed(a, e)
    case Binary(_, l, r) => WellFormed(a, l) && WellFormed(a, r)
  }

  function ValueOf<N>(a: Arith<N>, t: Tree): N
    requires WellFormed(a, t)
  {
    match t
    case Literal(text) => a.read(text).value
    case Negated(e) => a.negate(ValueOf(a, e))
    case Signed(e) => ValueOf(a, e)
    case Group(e) => ValueOf(a, e)
    case Binary(op, l, r) => a.apply(op, ValueOf(a, l), ValueOf(a, r))
  }

  /** Sums bind at 0, products at 1, everything else at 2. */
  function Binding(op: Op): nat {
    if op.Plus? || op.Minus? then 0 else 1
  }

  /** As written where at least `level` is needed: parentheses of its own only where precedence or left associativity asks. */
  function Print(t: Tree, level: nat): string
    decreases t, 1
  {
    match t
    case Literal(text) => text
    case Negated(e) => "-" + Print(e, 2)
    case Signed(e) => "+" + Print(e, 2)
    case Group(e) => "(" + Print(e, 0) + ")"
    case Binary(op, _, _) => if level > Binding(op) then "(" + Flat(t) + ")" else Flat(t)
  }

  /** A sum or product without parentheses of its own. */
  function Flat(t: Tree): string
    requires t.Binary?
    decreases t, 0
  {
    Print(t.l, Binding(t.op)) + ([Sign(t.op)] + Print(t.r, Binding(t.op) + 1))
  }

  predicate At(s: string, i: nat, p: string) {
    i + |p| <= |s| && s[i..i + |p|] == p
  }

  lemma AtParts(s: string, i: nat, x: string, y: string)
    requires At(s, i, x + y)
    ensures At(s, i, x) && At(s, i + |x|, y)
  {
    assert (x + y)[..|x|] == x && (x + y)[|x|..] == y;
    assert s[i..i + |x|] == s[i..i + |x + y|][..|x|];
    assert s[i + |x|..i + |x| + |y|] == s[i..i + |x + y|][|x|..];
  }

  predicate NumberEndsAt(s: string, i: nat) {
    i < |s| ==> !InNumber(s[i])
  }

  predicate TermEndsAt(s: string, i: nat) {
    NumberEndsAt(s, i) && (i < |s| ==> s[i] != '*' && s[i] != '/')
  }

  lemma {:induction false} NumberStops(s: string, i: nat, j: nat)
    requires i <= j <= |s| && (forall k :: i <= k < j ==> InNumber(s[k])) && NumberEndsAt(s, j)
    ensures NumberEnd(s, i) == j
    decreases j - i
  {
    if i < j { NumberStops(s, i + 1, j); }
  }

  // ---- one step of each

  lemma LiteralIsRead<N>(a: Arith<N>, s: string, i: nat, text: string)
    requires IsLiteral(a, text) && At(s, i, text) && NumberEndsAt(s, i + |text|)
    ensures FactorAt(a, s, i) == Got(a.read(text).value, i + |text|)
  {
    assert forall k :: i <= k < i + |text| ==> s[k] == s[i..i + |text|][k - i];
    NumberStops(s, i, i + |text|);
  }

  lemma NegatedIsRead<N>(a: Arith<N>, s: string, i: nat, p: Parse<N>)
    requires At(s, i, "-") && p.Got? && FactorAt(a, s, i + 1) == p
    ensures FactorAt(a, s, i) == Got(a.negate(p.value), p.next)
  {
    assert s[i] == s[i..i + 1][0];
  }

  lemma SignedIsRead<N>(a: Arith<N>, s: string, i: nat, p: Parse<N>)
    requires At(s, i, "+") && p.Got? && FactorAt(a, s, i + 1) == p
    ensures FactorAt(a, s, i) == p
  {
    assert s[i] == s[i..i + 1][0];
  }

  lemma ParenthesesAreRead<N>(a: Arith<N>, s: string, i: nat, end: nat, v: N)
    requires At(s, i, "(") && i < end && At(s, end, ")") && ExpressionAt(a, s, i + 1) == ExpressionFrom(a, s, end, v)
    ensures FactorAt(a, s, i) == Got(v, end + 1)
  {
    assert s[i] == s[i..i + 1][0] && s[end] == s[end..end + 1][0];
  }

  lemma SignThere(s: string, mid: nat, op: Op)
    requires At(s, mid, [Sign(op)])
    ensures mid < |s| && s[mid] == Sign(op) && OpOf(s[mid]) == op
    ensures IsProductSign(s[mid]) == (Binding(op) == 1) && IsSumSign(s[mid]) == (Binding(op) == 0)
  {
    assert s[mid] == s[mid..mid + 1][0];
  }

  lemma ProductReads<N>(a: Arith<N>, s: string, i: nat, mid: nat, end: nat, op: Op, v: N, x: N)
    requires i <= mid < end <= |s| && At(s, mid, [Sign(op)]) && Binding(op) == 1
    requires TermAt(a, s, i) == TermFrom(a, s, mid, v) && FactorAt(a, s, mid + 1) == Got(x, end)
    ensures TermAt(a, s, i) == TermFrom(a, s, end, a.apply(op, v, x))
  {
    SignThere(s, mid, op);
  }

  lemma TermStops<N>(a: Arith<N>, s: string, i: nat, v: N)
    requires i <= |s| && TermEndsAt(s, i)
    ensures TermFrom(a, s, i, v) == Got(v, i)
  {
  }

  lemma SumReads<N>(a: Arith<N>, s: string, i: nat, mid: nat, end: nat, op: Op, v: N, x: N)
    requires i <= mid < end <= |s| && At(s, mid, [Sign(op)]) && Binding(op) == 0 && TermEndsAt(s, end)
    requires ExpressionAt(a, s, i) == ExpressionFrom(a, s, mid, v) && TermAt(a, s, mid + 1) == TermFrom(a, s, end, x)
    ensures ExpressionAt(a, s, i) == ExpressionFrom(a, s, end, a.apply(op, v, x))
  {
    SignThere(s, mid, op);
    TermStops(a, s, end, x);
  }

  /** Both operands of a sum or product, the sign between them, and where each ends. */
  lemma BinaryParts(s: string, i: nat, t: Tree, level: nat, next: nat)
    requires t.Binary? && At(s, i, Flat(t)) && level == Binding(t.op) && next == level + 1
    ensures var mid := i + |Print(t.l, level)|;
            && At(s, i, Print(t.l, level)) && At(s, mid, [Sign(t.op)]) && At(s, mid + 1, Print(t.r, next))
            && i + |Flat(t)| == mid + 1 + |Print(t.r, next)|
            && NumberEndsAt(s, mid) && (level == 0 ==> TermEndsAt(s, mid))
  {
    var l, r := Print(t.l, level), Print(t.r, next);
    assert Flat(t) == l + ([Sign(t.op)] + r);
    AtParts(s, i, l, [Sign(t.op)] + r);
    AtParts(s, i + |l|, [Sign(t.op)], r);
    SignThere(s, i + |l|, t.op);
  }

  // ---- a written tree is read as the tree

  /** A tree written for a factor is read as one factor, with its value. */
  lemma {:induction false} FactorIsRead<N>(a: Arith<N>, s: string, i: nat, t: Tree, end: nat)
    requires WellFormed(a, t) && At(s, i, Print(t, 2)) && end == i + |Print(t, 2)| && NumberEndsAt(s, end)
    ensures FactorAt(a, s, i) == Got(ValueOf(a, t), end)
    decreases t, 3
  {
    match t
    case Literal(text) => LiteralIsRead(a, s, i, text);
    case Negated(e) =>
      AtParts(s, i, "-", Print(e, 2));
      FactorIsRead(a, s, i + 1, e, end);
      NegatedIsRead(a, s, i, Got(ValueOf(a, e), end));
    case Signed(e) =>
      AtParts(s, i, "+", Print(e, 2));
      FactorIsRead(a, s, i + 1, e, end);
      SignedIsRead(a, s, i, Got(ValueOf(a, e), end));
    case Group(e) => WholeIsRead(a, s, i, e, end);
    case Binary(_, _, _) =>
      GroupIsRead(a, s, i, t, end);
  }

  lemma {:induction false} WholeIsRead<N>(a: Arith<N>, s: string, i: nat, e: Tree, end: nat)
    requires WellFormed(a, e) && At(s, i, "(" + Print(e, 0) + ")") && end == i + |Print(e, 0)| + 2
    ensures FactorAt(a, s, i) == Got(ValueOf(a, e), end)
    decreases e, 6
  {
    AtParts(s, i, "(" + Print(e, 0), ")");
    AtParts(s, i, "(", Print(e, 0));
    assert s[end - 1] == s[end - 1..end][0];
    ExpressionIsRead(a, s, i + 1, e, end - 1);
    ParenthesesAreRead(a, s, i, end - 1, ValueOf(a, e));
  }

  lemma {:induction false} GroupIsRead<N>(a: Arith<N>, s: string, i: nat, t: Tree, end: nat)
    requires WellFormed(a, t) && t.Binary? && At(s, i, "(" + Flat(t) + ")") && end == i + |Flat(t)| + 2
    ensures FactorAt(a, s, i) == Got(ValueOf(a, t), end)
    decreases t, 2
  {
    AtParts(s, i, "(" + Flat(t), ")");
    AtParts(s, i, "(", Flat(t));
    assert s[end - 1] == s[end - 1..end][0];
    FlatExpressionIsRead(a, s, i + 1, t, end - 1);
    ParenthesesAreRead(a, s, i, end - 1, ValueOf(a, t));
  }

  /** A tree written for a term is read as the front of one: what follows goes on from its value. */
  lemma {:induction false} TermIsRead<N>(a: Arith<N>, s: string, i: nat, t: Tree, end: nat)
    requires WellFormed(a, t) && At(s, i, Print(t, 1)) && end == i + |Print(t, 1)| && NumberEndsAt(s, end)
    ensures TermAt(a, s, i) == TermFrom(a, s, end, ValueOf(a, t))
    decreases t, 4
  {
    if t.Binary? && Binding(t.op) == 1 {
      FlatTermIsRead(a, s, i, t, end);
    } else {
      assert Print(t, 1) == Print(t, 2);
      FactorIsRead(a, s, i, t, end);
    }
  }

  lemma {:induction false} FlatTermIsRead<N>(a: Arith<N>, s: string, i: nat, t: Tree, end: nat)
    requires WellFormed(a, t) && t.Binary? && Binding(t.op) == 1 && At(s, i, Flat(t)) && end == i + |Flat(t)| && NumberEndsAt(s, end)
    ensures TermAt(a, s, i) == TermFrom(a, s, end, ValueOf(a, t))
    decreases t, 0
  {
    var mid := i + |Print(t.l, 1)|;
    BinaryParts(s, i, t, 1, 2);
    var v, x := ValueOf(a, t.l), ValueOf(a, t.r);
    assert ValueOf(a, t) == a.apply(t.op, v, x);
    FactorIsRead(a, s, mid + 1, t.r, end);
    TermIsRead(a, s, i, t.l, mid);
    ProductReads(a, s, i, mid, end, t.op, v, x);
  }

  /** A tree written for a whole expression is read as the front of one. */
  lemma {:induction false} ExpressionIsRead<N>(a: Arith<N>, s: string, i: nat, t: Tree, end: nat)
    requires WellFormed(a, t) && At(s, i, Print(t, 0)) && end == i + |Print(t, 0)| && TermEndsAt(s, end)
    ensures ExpressionAt(a, s, i) == ExpressionFrom(a, s, end, ValueOf(a, t))
    decreases t, 5
  {
    if t.Binary? {
      FlatExpressionIsRead(a, s, i, t, end);
    } else {
      assert Print(t, 0) == Print(t, 1);
      TermIsRead(a, s, i, t, end);
      TermStops(a, s, end, ValueOf(a, t));
    }
  }

  lemma {:induction false} FlatExpressionIsRead<N>(a: Arith<N>, s: string, i: nat, t: Tree, end: nat)
    requires WellFormed(a, t) && t.Binary? && At(s, i, Flat(t)) && end == i + |Flat(t)| && TermEndsAt(s, end)
    ensures ExpressionAt(a, s, i) == ExpressionFrom(a, s, end, ValueOf(a, t))
    decreases t, 1
  {
    if Binding(t.op) == 1 {
      FlatTermIsRead(a, s, i, t, end);
      TermStops(a, s, end, ValueOf(a, t));
    } else {
      FlatSumIsRead(a, s, i, t, end);
    }
  }

  lemma {:induction false} FlatSumIsRead<N>(a: Arith<N>, s: string, i: nat, t: Tree, end: nat)
    requires WellFormed(a, t) && t.Binary? && Binding(t.op) == 0 && At(s, i, Flat(t)) && end == i + |Flat(t)| && TermEndsAt(s, end)
    ensures ExpressionAt(a, s, i) == ExpressionFrom(a, s, end, ValueOf(a, t))
    decreases t, 0
  {
    var mid := i + |Print(t.l, 0)|;
    BinaryParts(s, i, t, 0, 1);
    var v, x := ValueOf(a, t.l), ValueOf(a, t.r);
    assert ValueOf(a, t) == a.apply(t.op, v, x);
    TermIsRead(a, s, mid + 1, t.r, end);
    ExpressionIsRead(a, s, i, t.l, mid);
    SumReads(a, s, i, mid, end, t.op, v, x);
  }

  lemma {:induction false} PrintedIsAllowed<N>(a: Arith<N>, t: Tree, level: nat)
    requires WellFormed(a, t)
    ensures Print(t, level) != "" && forall i :: 0 <= i < |Print(t, level)| ==> Allowed(Print(t, level)[i])
    decreases t
  {
    match t
    case Literal(_) =>
    case Negated(e) => PrintedIsAllowed(a, e, 2);
    case Signed(e) => PrintedIsAllowed(a, e, 2);
    case Group(e) => PrintedIsAllowed(a, e, 0);
    case Binary(op, l, r) =>
      PrintedIsAllowed(a, l, Binding(op));
      PrintedIsAllowed(a, r, Binding(op) + 1);
  }

  /** However it is spaced, the written form of a tree evaluates to the tree's value. */
  lemma PrintedEvaluates<N>(a: Arith<N>, expr: string, t: Tree)
    requires WellFormed(a, t) && WithoutSpaces(expr) == Print(t, 0)
    ensures Evaluated(a, expr) == Some(ValueOf(a, t))
  {
    var src := Print(t, 0);
    PrintedIsAllowed(a, t, 0);
    assert src[0..|src|] == src;
    ExpressionIsRead(a, src, 0, t, |src|);
  }
}
