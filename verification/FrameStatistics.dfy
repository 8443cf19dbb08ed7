/** The statistics of the video renderer: running sums per frame, and the standard deviations that are
    read off them with an integer square root. */
module FrameStatistics {
  import opened Arithmetic
  import opened WideArithmetic
  import opened BaseTypes
  import opened Bits

  function Sum(s: seq<int>): int {
    if s == [] then 0 else Sum(s[..|s| - 1]) + s[|s| - 1]
  }

  function SumSq(s: seq<int>): int {
    if s == [] then 0 else SumSq(s[..|s| - 1]) + s[|s| - 1] * s[|s| - 1]
  }

  lemma SumAppend(s: seq<int>, x: int)
    ensures Sum(s + [x]) == Sum(s) + x
    ensures SumSq(s + [x]) == SumSq(s) + x * x
  {
    assert (s + [x])[..|s|] == s;
  }

  predicate Within(s: seq<int>, bound: int) {
    forall i :: 0 <= i < |s| ==> -bound <= s[i] <= bound
  }

  // ------------------------------------------------------------- the sums never betray us

  lemma CauchyStep(k: nat, t: int, q: int, x: int)
    requires t * t <= k * q && (k == 0 ==> t == 0 && q == 0)
    ensures (t + x) * (t + x) <= (k + 1) * (q + x * x)
  {
    if k > 0 {
      var cross := 2 * (t * x);
      assert (k * x - t) * (k * x - t) >= 0;
      calc {
        k * cross;
        2 * (k * x * t);
      <= { assert (k * x - t) * (k * x - t) == (k * x) * (k * x) - 2 * (k * x * t) + t * t; }
        (k * x) * (k * x) + t * t;
      <=
        (k * x) * (k * x) + k * q;
        { assert (k * x) * (k * x) == k * (k * (x * x)); }
        k * (k * (x * x) + q);
      }
      CancelFactor(k, cross, k * (x * x) + q);
      assert (t + x) * (t + x) == t * t + cross + x * x;
      assert (k + 1) * (q + x * x) == k * q + k * (x * x) + q + x * x;
    }
  }

  lemma CancelFactor(k: nat, a: int, b: int)
    requires k > 0 && k * a <= k * b
    ensures a <= b
  {
    if a > b {
      MulMono(b + 1, a, k);
    }
  }

  /** Cauchy-Schwarz: the square of the sum is at most the count times the sum of squares. */
  lemma {:induction false} CauchySchwarz(s: seq<int>)
    ensures Sum(s) * Sum(s) <= |s| * SumSq(s)
  {
    if s != [] {
      var r := s[..|s| - 1];
      CauchySchwarz(r);
      CauchyStep(|r|, Sum(r), SumSq(r), s[|s| - 1]);
    }
  }

  lemma {:induction false} SumBounds(s: seq<int>, b: nat)
    requires Within(s, b)
    ensures -(b * |s|) <= Sum(s) <= b * |s|
    ensures 0 <= SumSq(s) <= b * b * |s|
  {
    if s != [] {
      var x, init := s[|s| - 1], s[..|s| - 1];
      SumBounds(init, b);
      BoundStep(Sum(init), |init|, b, x);
      SquareStep(SumSq(init), |init|, b, x);
    }
  }

  lemma BoundStep(t: int, n: nat, b: nat, x: int)
    requires -(b * n) <= t <= b * n && Abs(x) <= b
    ensures -(b * (n + 1)) <= t + x <= b * (n + 1)
  {
    MulDistrib(n, 1, b);
  }

  lemma SquareStep(t: int, n: nat, b: nat, x: int)
    requires 0 <= t <= b * b * n && Abs(x) <= b
    ensures 0 <= t + x * x <= b * b * (n + 1)
  {
    SquareMono(Abs(x), b);
    MulDistrib(n, 1, b * b);
  }

  lemma SquareMono(x: nat, y: nat)
    requires x <= y
    ensures x * x <= y * y
  {
    MulMono(x, y, x);
    MulMono(x, y, y);
  }

  // ----------------------------------------------------------------------- square root

  /** r is the integer part of the square root of x. */
  predicate IsRoot(r: nat, x: nat) {
    r * r <= x < (r + 1) * (r + 1)
  }

  /** One Newton-Raphson step on integers. */
  function Newton(s: nat, x: nat): nat
    requires s > 0
  {
    (s * s + x) / (2 * s)
  }

  lemma NewtonEquation(s: nat, x: nat)
    requires s > 0
    ensures var n := Newton(s, x); 2 * s * n <= s * s + x < 2 * s * n + 2 * s
  {
    DivisionEquation(s * s + x, 2 * s);
    assert Newton(s, x) * (2 * s) == 2 * s * Newton(s, x);
  }

  lemma TwiceProduct(s: nat, r: nat)
    ensures 2 * (s * r) <= s * s + r * r
  {
    assert (s - r) * (s - r) >= 0;
    assert (s - r) * (s - r) == s * s - 2 * (s * r) + r * r;
  }

  /** A step never lands below the root... */
  lemma NewtonNotBelow(s: nat, x: nat, r: nat)
    requires s > 0 && r * r <= x
    ensures Newton(s, x) >= r
  {
    NewtonEquation(s, x);
    TwiceProduct(s, r);
    var n := Newton(s, x);
    assert r * (2 * s) == 2 * (s * r) && n * (2 * s) == 2 * s * n;
    MulDistrib(n, 1, 2 * s);
    if n < r { MulMono(n + 1, r, 2 * s); }
  }

  /** ...and from the root or the number after it, it stays there. */
  lemma NewtonStays(s: nat, x: nat, r: nat)
    requires s > 0 && IsRoot(r, x) && (s == r || s == r + 1)
    ensures Newton(s, x) == r || Newton(s, x) == r + 1
  {
    NewtonNotBelow(s, x, r);
    assert s * s + x < (r + 2) * (2 * s) by {
      if s == r {
        assert (r + 1) * (r + 1) == r * r + 2 * r + 1;
        assert (r + 2) * (2 * r) == 2 * (r * r) + 4 * r;
      } else {
        assert (r + 2) * (2 * s) == 2 * (s * s) + 2 * s;
      }
    }
    DivBound(s * s + x, 2 * s, r + 2);
  }

  /** Contraction: with u = p/q, if s lies between sqrt(x)/u and u*sqrt(x), the next value is at most
      (u + 1/u)/2 * sqrt(x). */
  lemma NewtonContracts(s: nat, x: nat, p: nat, q: nat)
    requires s > 0 && p >= q > 0
    requires q * q * (s * s) <= p * p * x && q * q * x <= p * p * (s * s)
    ensures var n := Newton(s, x); 4 * (p * p) * (q * q) * (n * n) <= (p * p + q * q) * (p * p + q * q) * x
  {
    var n, y := Newton(s, x), s * s;
    var pp, qq := p * p, q * q;
    NewtonEquation(s, x);
    SquareMono(2 * s * n, y + x);
    assert (2 * s * n) * (2 * s * n) == 4 * y * (n * n);
    ContractionBound(y, x, pp, qq);
    // 4 pp qq (4 y n^2) <= 4 pp qq (y + x)^2 <= 4 (pp + qq)^2 x y, and y > 0
    var k := pp * qq;
    assert k >= 0;
    MulMono(4 * y * (n * n), (y + x) * (y + x), k);
    var left, right := 4 * pp * qq * (n * n), (pp + qq) * (pp + qq) * x;
    assert 4 * y * (n * n) * k == y * left;
    assert (y + x) * (y + x) * k <= y * right;
    CancelFactor(y, left, right);
  }

  lemma ContractionBound(y: nat, x: nat, pp: nat, qq: nat)
    requires qq * y <= pp * x && qq * x <= pp * y
    ensures (y + x) * (y + x) * (pp * qq) <= y * ((pp + qq) * (pp + qq) * x)
  {
    var a, b, c, d := pp * x, qq * y, pp * y, qq * x;
    assert (a - b) * (c - d) >= 0;
    assert (a - b) * (c - d) == a * c - a * d - b * c + b * d;
    ExpandLeft(y, x, pp, qq);
    ExpandRight(y, x, pp, qq);
  }

  lemma ExpandLeft(y: nat, x: nat, pp: nat, qq: nat)
    ensures (y + x) * (y + x) * (pp * qq) == (qq * y) * (pp * y) + 2 * ((pp * x) * (qq * y)) + (pp * x) * (qq * x)
  {
    assert (y + x) * (y + x) == y * y + 2 * (x * y) + x * x;
    assert y * y * (pp * qq) == (qq * y) * (pp * y);
    assert x * x * (pp * qq) == (pp * x) * (qq * x);
    assert x * y * (pp * qq) == (pp * x) * (qq * y);
  }

  lemma ExpandRight(y: nat, x: nat, pp: nat, qq: nat)
    ensures y * ((pp + qq) * (pp + qq) * x) == (pp * x) * (pp * y) + 2 * ((pp * x) * (qq * y)) + (qq * y) * (qq * x)
  {
    assert (pp + qq) * (pp + qq) == pp * pp + 2 * (pp * qq) + qq * qq;
    assert y * ((pp + qq) * (pp + qq) * x) == (pp * pp + 2 * (pp * qq) + qq * qq) * (x * y);
    assert pp * pp * (x * y) == (pp * x) * (pp * y);
    assert qq * qq * (x * y) == (qq * y) * (qq * x);
    assert pp * qq * (x * y) == (pp * x) * (qq * y);
  }

  ghost function Root(x: nat): (r: nat)
    ensures IsRoot(r, x)
  {
    if x == 0 then 0
    else
      var r := Root(x - 1);
      assert (r + 2) * (r + 2) > (r + 1) * (r + 1);
      if (r + 1) * (r + 1) <= x then r + 1 else r
  }

  predicate Near(s: nat, r: nat) { s == r || s == r + 1 }

  lemma StepOne(s: nat, x: nat, r: nat)
    requires s > 0 && x <= s * s && (s == 1 || s * s < 4 * x) && IsRoot(r, x)
    ensures var n := Newton(s, x); n >= r && (Near(n, r) || 16 * (n * n) <= 25 * x)
  {
    NewtonNotBelow(s, x, r);
    if s == 1 {
      if r > 1 { SquareMono(2, r); }
      assert Newton(1, x) == (1 + x) / 2;
    } else {
      NewtonContracts(s, x, 2, 1);
    }
  }

  lemma StepTwo(s: nat, x: nat, r: nat)
    requires s >= r > 0 && (Near(s, r) || 16 * (s * s) <= 25 * x) && IsRoot(r, x)
    ensures var n := Newton(s, x); n >= r && (Near(n, r) || 1600 * (n * n) <= 1681 * x)
  {
    NewtonNotBelow(s, x, r);
    if Near(s, r) {
      NewtonStays(s, x, r);
    } else {
      AboveRoot(s, x, r);
      NewtonContracts(s, x, 5, 4);
    }
  }

  lemma StepThree(s: nat, x: nat, r: nat)
    requires s >= r > 0 && (Near(s, r) || 1600 * (s * s) <= 1681 * x) && IsRoot(r, x) && r <= 3279
    ensures Near(Newton(s, x), r)
  {
    NewtonNotBelow(s, x, r);
    if Near(s, r) {
      NewtonStays(s, x, r);
    } else {
      AboveRoot(s, x, r);
      NewtonContracts(s, x, 41, 40);
      CloseEnough(Newton(s, x), x, r);
    }
  }

  /** Three steps from a guess between 1 and 2 times the root: the root, or one more. */
  lemma ThreeSteps(s: nat, x: nat, r: nat)
    requires s > 0 && x > 0 && x <= s * s && (s == 1 || s * s < 4 * x)
    requires IsRoot(r, x) && r <= 3279
    ensures r > 0
    ensures var s1 := Newton(s, x); s1 > 0 && var s2 := Newton(s1, x); s2 > 0 && Near(Newton(s2, x), r)
  {
    StepOne(s, x, r);
    StepTwo(Newton(s, x), x, r);
    StepThree(Newton(Newton(s, x), x), x, r);
  }

  lemma AboveRoot(s: nat, x: nat, r: nat)
    requires IsRoot(r, x) && s >= r && !Near(s, r)
    ensures s * s > x
  {
    SquareMono(r + 1, s);
  }

  lemma CloseEnough(n: nat, x: nat, r: nat)
    requires IsRoot(r, x) && r <= 3279 && n >= r
    requires 10758400 * (n * n) <= 10764961 * x
    ensures Near(n, r)
  {
    if n >= r + 2 {
      assert (3281 * (r + 1)) * (3281 * (r + 1)) == 10764961 * ((r + 1) * (r + 1));
      assert (3280 * (r + 2)) * (3280 * (r + 2)) == 10758400 * ((r + 2) * (r + 2));
      SquareMono(3281 * (r + 1), 3280 * (r + 2));
      SquareMono(r + 2, n);
    }
  }

  lemma NewtonNotAbove(s: nat, x: nat)
    requires s > 0 && x <= s * s
    ensures Newton(s, x) <= s
  {
    assert (s + 1) * (2 * s) == 2 * (s * s) + 2 * s;
    DivBound(s * s + x, 2 * s, s + 1);
  }

  /** No step climbs above the first guess, so no product climbs above its square. */
  lemma NewtonBounded(s: nat, x: nat, r: nat, top: nat)
    requires IsRoot(r, x) && s > 0 && r <= s <= top && x <= top * top
    ensures r <= Newton(s, x) <= top
  {
    NewtonNotBelow(s, x, r);
    if s * s >= x {
      NewtonNotAbove(s, x);
    } else {
      if s > r { SquareMono(r + 1, s); }
      NewtonStays(s, x, r);
      if r + 1 > top { SquareMono(top, r); }
    }
  }

  /** A C computation on 32-bit numbers that comes to a value, or overflows or divides by zero. */
  datatype Checked = Value(s: int) | Trap

  /** One assignment of the source, with its 32-bit intermediates. */
  method NewtonStep(s: int, x: int) returns (r: Checked)
    ensures r == if s != 0 && Int32(s * s) && Int32(s * s + x) && Int32(2 * s) then Value(TruncDiv(s * s + x, 2 * s)) else Trap
  {
    if s == 0 || !Int32(s * s) || !Int32(s * s + x) || !Int32(2 * s) { return Trap; }
    r := Value(TruncDiv(s * s + x, 2 * s));
  }

  lemma StepIsExact(s: nat, x: nat)
    requires 0 < s <= 0x8000 && x < 0x4000_0000
    ensures Int32(s * s) && Int32(s * s + x) && Int32(2 * s) && TruncDiv(s * s + x, 2 * s) == Newton(s, x)
  {
    SquareMono(s, 0x8000);
    assert Abs(s * s + x) == s * s + x && Abs(2 * s) == 2 * s;
  }

  lemma Pow2Small(k: nat)
    requires k <= 15
    ensures Pow2(k) <= 0x8000 && (Pow2(k) < 0x8000 ==> Pow2(k) <= 0x4000 && k < 15)
  {
    Pow2Mono(k, 15);
    assert Pow2(15) == 0x8000 by { assert Pow2(8) == 0x100; }
    if k < 15 { Pow2Mono(k, 14); assert Pow2(15) == 2 * Pow2(14); }
  }

  /** The starting guess: the smallest power of two that is not below the root. */
  method FirstGuess(x: int) returns (s: nat)
    requires x <= 0x4000_0000
    ensures 0 < s <= 0x8000 && x <= s * s && (s == 1 || s * s < 4 * x)
    ensures (x <= 1 ==> s == 1) && (x == 0x4000_0000 ==> s == 0x8000)
  {
    s := 1;
    ghost var k := 0;
    while s * s < x
      invariant k <= 15 && s == Pow2(k) && 0 < s <= 0x8000
      invariant s == 1 || s * s < 4 * x
      decreases 0x8000 - s
    {
      SquareMono(s, 0x8000);
      if s == 0x8000 { assert false; }
      Pow2Small(k);
      assert (2 * s) * (2 * s) == 4 * (s * s);
      s := 2 * s;
      k := k + 1;
    }
    if s < 0x8000 { SquareMono(s, 0x7FFF); }
  }

  /** The source takes its first branch for safe; these are exactly the arguments at which it is not: the first
      sum overflows at 0x40000000, and -1 and -2 lead to a division by zero. */
  method Isqrt(x: int) returns (r: Checked)
    requires Int32(x)
    ensures r == Trap <==> x == 0x4000_0000 || x == -1 || x == -2
    ensures x > 0x4000_0000 ==> r == Value(0x8000)
    ensures x < -2 ==> r == Value(TruncDiv(1 + x, 2))
    ensures 0 <= x < 3280 * 3280 ==> r.Value? && r.s >= 0 && Near(r.s, Root(x))
  {
    if x > 0x4000_0000 {
      return Value(0x8000);
    }
    var s := FirstGuess(x);
    if x == 0 {
      return Value(0);
    }
    r := NewtonStep(s, x);
    ghost var first := r;
    if r.Value? && r.s >= 0 { r := NewtonStep(r.s, x); }
    ghost var second := r;
    if r.Value? && r.s >= 0 { r := NewtonStep(r.s, x); }
    if 0 < x < 0x4000_0000 { StepsAreExact(s, x, first, second, r); }
  }

  function StepOf(r: Checked, x: int): Checked {
    if r.Trap? || r.s < 0 then r
    else if r.s != 0 && Int32(r.s * r.s) && Int32(r.s * r.s + x) && Int32(2 * r.s)
    then Value(TruncDiv(r.s * r.s + x, 2 * r.s)) else Trap
  }

  /** Between 0 and 0x40000000 no step climbs above the guess, and all three are exact. */
  lemma StepsAreExact(s: nat, x: nat, first: Checked, second: Checked, third: Checked)
    requires 0 < s <= 0x8000 && 0 < x < 0x4000_0000 && x <= s * s && (s == 1 || s * s < 4 * x)
    requires first == StepOf(Value(s), x) && second == StepOf(first, x) && third == StepOf(second, x)
    ensures third.Value? && third.s > 0
    ensures x < 3280 * 3280 ==> Near(third.s, Root(x))
  {
    var r := RootBelow(s, x);
    var s1 := StepIs(s, x, r, s);
    var s2 := StepIs(s1, x, r, s);
    var s3 := StepIs(s2, x, r, s);
    if x < 3280 * 3280 { SmallRoot(s, x, r); }
  }

  lemma RootBelow(s: nat, x: nat) returns (r: nat)
    requires 0 < x <= s * s
    ensures r == Root(x) && 0 < r <= s
  {
    r := Root(x);
    if r > s { SquareMono(s + 1, r); }
  }

  /** A step that is exact and stays between the root and the guess. */
  lemma StepIs(s: nat, x: nat, r: nat, top: nat) returns (n: nat)
    requires IsRoot(r, x) && 0 < r <= s <= top <= 0x8000 && x < 0x4000_0000 && x <= top * top
    ensures StepOf(Value(s), x) == Value(n) && n == Newton(s, x) && r <= n <= top
  {
    n := Newton(s, x);
    StepIsExact(s, x);
    NewtonBounded(s, x, r, top);
  }

  lemma SmallRoot(s: nat, x: nat, r: nat)
    requires s > 0 && 0 < x < 3280 * 3280 && x <= s * s && (s == 1 || s * s < 4 * x) && r == Root(x)
    ensures var s1 := Newton(s, x); s1 > 0 && var s2 := Newton(s1, x); s2 > 0 && Near(Newton(s2, x), r)
  {
    if r > 3279 { SquareMono(3280, r); }
    ThreeSteps(s, x, r);
  }

  // ------------------------------------------------------------------ the renderer's fields

  /** What GetStdDev computes under the root.  The count it is given is one more than the number of
      observations, because the second frame is counted but not recorded. */
  ghost function Spread(data: seq<int>): int
    requires data != []
  {
    (SumSq(data) - Sum(data) * Sum(data) / (|data| + 1)) / |data|
  }

  lemma QuotientWithin(t: int, q: int, k: nat)
    requires t * t <= k * q && q >= 0
    ensures 0 <= t * t / (k + 1) <= q
  {
    assert t * t >= 0;
    DivisionEquation(t * t, k + 1);
    MulDistrib(k, 1, q);
    assert k * q + q < (q + 1) * (k + 1);
    DivBound(t * t, k + 1, q + 1);
    if t * t / (k + 1) < 0 { MulMono(t * t / (k + 1), -1, k + 1); }
  }

  /** The argument of the square root is never negative and never above the square of the bound. */
  lemma {:induction false} SpreadBounds(data: seq<int>, b: nat)
    requires data != [] && Within(data, b)
    ensures 0 <= Sum(data) * Sum(data) / (|data| + 1) <= SumSq(data) <= b * b * |data|
    ensures 0 <= Spread(data) <= b * b
  {
    var k := |data|;
    CauchySchwarz(data);
    SumBounds(data, b);
    QuotientWithin(Sum(data), SumSq(data), k);
    var top := SumSq(data) - Sum(data) * Sum(data) / (k + 1);
    DivisionEquation(top, k);
    MulDistrib(b * b, 1, k);
    DivBound(top, k, b * b + 1);
    if top / k < 0 { MulMono(top / k, -1, k); }
  }

  // -------------------------------------------------------------- what the spread stands for

  /** The squares of the differences from x. */
  function Distances(s: seq<int>, x: int): int {
    if s == [] then 0 else Distances(s[..|s| - 1], x) + (s[|s| - 1] - x) * (s[|s| - 1] - x)
  }

  /** The squares of the differences of all pairs. */
  function PairDistances(s: seq<int>): int {
    if s == [] then 0 else PairDistances(s[..|s| - 1]) + Distances(s[..|s| - 1], s[|s| - 1])
  }

  lemma {:induction false} DistancesAre(s: seq<int>, x: int)
    ensures Distances(s, x) == SumSq(s) - 2 * (x * Sum(s)) + |s| * (x * x)
  {
    if s != [] {
      var r, y := s[..|s| - 1], s[|s| - 1];
      DistancesAre(r, x);
      assert (y - x) * (y - x) == y * y - 2 * (x * y) + x * x;
      assert x * (Sum(r) + y) == x * Sum(r) + x * y;
      assert (|r| + 1) * (x * x) == |r| * (x * x) + x * x;
    }
  }

  /** Count times sum of squares less the square of the sum is the sum over all pairs. */
  lemma {:induction false} PairDistancesAre(s: seq<int>)
    ensures PairDistances(s) == |s| * SumSq(s) - Sum(s) * Sum(s)
  {
    if s != [] {
      var r, x := s[..|s| - 1], s[|s| - 1];
      PairDistancesAre(r);
      DistancesAre(r, x);
      PairStep(|r|, SumSq(r), Sum(r), x);
    }
  }

  lemma PairStep(n: nat, q: int, t: int, x: int)
    ensures (n * q - t * t) + (q - 2 * (x * t) + n * (x * x)) == (n + 1) * (q + x * x) - (t + x) * (t + x)
  {
    assert (t + x) * (t + x) == t * t + 2 * (x * t) + x * x;
    assert (n + 1) * (q + x * x) == n * q + q + n * (x * x) + x * x;
  }

  /** s is d / ((n + 1) * n), to less than one. */
  predicate IsMeanOf(s: int, d: int, n: nat) {
    (n + 1) * (n * s) < d + (n + 1) && d <= (n + 1) * (n * (s + 1) - 1)
  }

  /** The spread is the mean over all pairs of the square of their difference, halved, which is the variance: but
      of the observations and one more of zero, which the count too large by one stands for. It is out by less
      than one through rounding. */
  lemma {:induction false} SpreadIsVariance(data: seq<int>)
    requires data != []
    ensures IsMeanOf(Spread(data), PairDistances(data + [0]), |data|)
  {
    PairsWithZero(data);
    RoundedQuotient(|data|, SumSq(data), Sum(data) * Sum(data), PairDistances(data + [0]));
  }

  lemma {:induction false} PairsWithZero(data: seq<int>)
    ensures PairDistances(data + [0]) == (|data| + 1) * SumSq(data) - Sum(data) * Sum(data)
  {
    SumAppend(data, 0);
    PairsBy(data + [0], |data| + 1, SumSq(data), Sum(data));
  }

  lemma {:induction false} PairsBy(s: seq<int>, n: nat, q: int, t: int)
    requires |s| == n && SumSq(s) == q && Sum(s) == t
    ensures PairDistances(s) == n * q - t * t
  {
    PairDistancesAre(s);
  }

  /** What two divisions, rounded down, make of d / ((n + 1) * n). */
  lemma RoundedQuotient(n: nat, q: int, tt: int, d: int)
    requires n > 0 && d == (n + 1) * q - tt
    ensures IsMeanOf((q - tt / (n + 1)) / n, d, n)
  {
    var f, r := tt / (n + 1), tt % (n + 1);
    DivisionEquation(tt, n + 1);
    var top := q - f;
    MulDistrib(q, f, n + 1);
    assert (n + 1) * q == q * (n + 1);
    assert top * (n + 1) == d + r;
    var s := top / n;
    DivisionEquation(top, n);
    Between(top, n, s);
    Scale(n * s, top, n * (s + 1) - 1, n + 1);
  }

  lemma Between(top: int, n: nat, s: int)
    requires n > 0 && top == s * n + top % n
    ensures n * s <= top <= n * (s + 1) - 1
  {
    assert n * s == s * n && n * (s + 1) == n * s + n;
  }

  lemma Scale(x: int, y: int, z: int, m: nat)
    requires x <= y <= z
    ensures m * x <= y * m <= m * z
  {
    MulMono(x, y, m);
    MulMono(y, z, m);
  }

  // --------------------------------------------------------------------- what is recorded

  /** C's truncating division by a constant. */
  function Milliseconds(t: int): int { if t < 0 then -((-t) / 10000) else t / 10000 }

  /** Whole milliseconds, toward zero. */
  lemma MillisecondsIs(t: int)
    ensures var m := Milliseconds(t); 10000 * Abs(m) <= Abs(t) < 10000 * (Abs(m) + 1) && (m < 0 ==> t < 0) && (m > 0 ==> t > 0)
  {
    DivisionEquation(Abs(t), 10000);
  }

  function ClampLate(t: int): int {
    if t > 1000 then 1000 else if t < -1000 then -1000 else t
  }

  /** The lateness recorded is within a second, and none such is nearer to t. */
  lemma ClampLateIs(t: int, other: int)
    requires -1000 <= other <= 1000
    ensures -1000 <= ClampLate(t) <= 1000 && Abs(ClampLate(t) - t) <= Abs(other - t)
  {
  }

  function ClampGap(t: int): int {
    if t > 1000 || t < 0 then 1000 else t
  }

  /** A gap is recorded as it is if it is one and no longer than a second, and as a second otherwise. */
  lemma ClampGapIs(t: int)
    ensures 0 <= ClampGap(t) <= 1000 && (ClampGap(t) != t ==> ClampGap(t) == 1000)
  {
  }

  class VideoRendererStatistics {
    var framesDrawn: nat
    var totAcc: int
    var sumSqAcc: int
    var sumSqFrameTime: int
    var sumFrameTime: int
    var hasClock: bool

    ghost var late: seq<int>    // the latenesses that were recorded, in milliseconds
    ghost var gaps: seq<int>    // the inter-frame times that were recorded

    ghost predicate LateOk()
      reads `totAcc, `sumSqAcc, `late
    {
      totAcc == Sum(late) && sumSqAcc == SumSq(late) && Within(late, 1000)
    }

    ghost predicate GapsOk()
      reads `sumFrameTime, `sumSqFrameTime, `gaps
    {
      sumFrameTime == Sum(gaps) && sumSqFrameTime == SumSq(gaps) && Within(gaps, 1000)
    }

    /** The sums are the sums of what was recorded, and the frame count says how much that is. */
    ghost predicate Valid()
      reads this
    {
      && framesDrawn <= 0x7FFF_FFFF
      && |late| == Max(0, framesDrawn - 2) && LateOk()
      && |gaps| == Max(0, framesDrawn - 3) && GapsOk()
    }

    constructor (clock: bool)
      ensures Valid() && framesDrawn == 0 && hasClock == clock
    {
      hasClock := clock;
      framesDrawn, totAcc, sumSqAcc, sumSqFrameTime, sumFrameTime := 0, 0, 0, 0, 0;
      late, gaps := [], [];
    }

    method ResetStreamingTimes()
      modifies this
      ensures Valid() && framesDrawn == 0 && late == [] && gaps == [] && hasClock == old(hasClock)
    {
      framesDrawn, totAcc, sumSqAcc, sumSqFrameTime, sumFrameTime := 0, 0, 0, 0, 0;
      late, gaps := [], [];
    }

    /** The first two frames leave no lateness and the first three no inter-frame time; later ones are
        recorded in milliseconds, clamped to one second. */
    method RecordFrameLateness(trLate: int, trFrame: int)
      requires Valid() && Int32(trLate) && Int32(trFrame) && framesDrawn < 0x7FFF_FFFF
      modifies this
      ensures Valid() && framesDrawn == old(framesDrawn) + 1 && hasClock == old(hasClock)
      ensures late == old(late) + if old(framesDrawn) > 1 then [ClampLate(Milliseconds(trLate))] else []
      ensures gaps == old(gaps) + if old(framesDrawn) > 2 then [ClampGap(Milliseconds(trFrame))] else []
    {
      RecordBoth(trLate, trFrame);
      framesDrawn := framesDrawn + 1;
    }

    method RecordBoth(trLate: int, trFrame: int)
      requires LateOk() && GapsOk()
      modifies this`totAcc, this`sumSqAcc, this`late, this`sumFrameTime, this`sumSqFrameTime, this`gaps
      ensures LateOk() && late == old(late) + if framesDrawn > 1 then [ClampLate(Milliseconds(trLate))] else []
      ensures GapsOk() && gaps == old(gaps) + if framesDrawn > 2 then [ClampGap(Milliseconds(trFrame))] else []
    {
      RecordLateness(trLate);
      RecordGap(trFrame);
    }

    method RecordLateness(trLate: int)
      requires LateOk() && GapsOk()
      modifies this`totAcc, this`sumSqAcc, this`late
      ensures LateOk() && late == old(late) + if framesDrawn > 1 then [ClampLate(Milliseconds(trLate))] else []
      ensures GapsOk()
    {
      var tLate := Lateness(trLate);
      if framesDrawn > 1 { AddLate(tLate); }
    }

    method RecordGap(trFrame: int)
      requires GapsOk() && LateOk()
      modifies this`sumFrameTime, this`sumSqFrameTime, this`gaps
      ensures GapsOk() && gaps == old(gaps) + if framesDrawn > 2 then [ClampGap(Milliseconds(trFrame))] else []
      ensures LateOk()
    {
      if framesDrawn > 2 {
        var tFrame := InterFrame(trFrame);
        AddGap(tFrame);
      }
    }

    /** Inter-frame times that cannot be right count as a second. */
    method InterFrame(trFrame: int) returns (tFrame: int)
      ensures 0 <= tFrame <= 1000 && tFrame == ClampGap(Milliseconds(trFrame))
    {
      tFrame := Milliseconds(trFrame);
      if tFrame > 1000 || tFrame < 0 {
        tFrame := 1000;
      }
    }

    /** Very late frames are ignored at the start and clamped afterwards. */
    method Lateness(trLate: int) returns (tLate: int)
      ensures -1000 <= tLate <= 1000
      ensures framesDrawn > 1 ==> tLate == ClampLate(Milliseconds(trLate))
    {
      tLate := Milliseconds(trLate);
      if tLate > 1000 || tLate < -1000 {
        if framesDrawn <= 1 {
          tLate := 0;
        } else if tLate > 0 {
          tLate := 1000;
        } else {
          tLate := -1000;
        }
      }
    }

    method AddLate(t: int)
      requires LateOk() && -1000 <= t <= 1000
      modifies this`totAcc, this`sumSqAcc, this`late
      ensures LateOk() && late == old(late) + [t]
    {
      SumAppend(late, t);
      totAcc := totAcc + t;
      sumSqAcc := sumSqAcc + t * t;
      late := late + [t];
    }

    method AddGap(t: int)
      requires GapsOk() && 0 <= t <= 1000
      modifies this`sumFrameTime, this`sumSqFrameTime, this`gaps
      ensures GapsOk() && gaps == old(gaps) + [t]
    {
      SumAppend(gaps, t);
      sumSqFrameTime := sumSqFrameTime + t * t;
      sumFrameTime := sumFrameTime + t;
      gaps := gaps + [t];
    }

    /** Given the sums of some recorded data: zero without a clock or without data, else the square root
        of their spread, to the nearest millisecond below or above. */
    method GetStdDev(nSamples: int, sumSq: int, tot: int, ghost data: seq<int>) returns (r: nat)
      requires Within(data, 1000) && |data| <= 0x7FFF_FFFF && sumSq == SumSq(data) && tot == Sum(data)
      requires if data == [] then nSamples <= 1 else nSamples == |data| + 1 && nSamples <= 0x7FFF_FFFF
      ensures !hasClock || data == [] ==> r == 0
      ensures hasClock && data != [] ==> 0 <= Spread(data) <= 1000000 && Near(r, Root(Spread(data)))
    {
      if !hasClock || nSamples <= 1 {
        return 0;
      }
      SpreadBounds(data, 1000);
      SumBounds(data, 1000);
      assert tot * tot >= 0;
      QuotientIsExact(tot, nSamples, sumSq);
      var square := LlMulDiv(tot, tot, nSamples, 0);
      var x := sumSq - square;
      DivIsTrunc(x, nSamples - 1);
      x := TruncDiv(x, nSamples - 1);
      assert x == Spread(data);
      var root := Isqrt(x);
      r := root.s;
    }

    lemma QuotientIsExact(t: int, n: int, q: int)
      requires n > 0 && 0 <= t * t / n <= q <= 1000000 * 0x7FFF_FFFF && t * t >= 0
      ensures MulDivValue(t, t, n, 0) == t * t / n
    {
      assert TruncDiv(t * t + 0, n) == t * t / n;
      MulDivOutcome(t, t, n, 0);
    }

    lemma DivIsTrunc(x: int, d: int)
      requires x >= 0 && d > 0
      ensures TruncDiv(x, d) == x / d
    {
    }

    method GetDevSyncOffset() returns (r: nat)
      requires Valid()
      ensures !hasClock || late == [] ==> r == 0
      ensures hasClock && late != [] ==> 0 <= Spread(late) <= 1000000 && Near(r, Root(Spread(late)))
    {
      r := GetStdDev(framesDrawn - 1, sumSqAcc, totAcc, late);
    }

    method GetJitter() returns (r: nat)
      requires Valid()
      ensures !hasClock || gaps == [] ==> r == 0
      ensures hasClock && gaps != [] ==> 0 <= Spread(gaps) <= 1000000 && Near(r, Root(Spread(gaps)))
    {
      r := GetStdDev(framesDrawn - 2, sumSqFrameTime, sumFrameTime, gaps);
    }
  }
}
