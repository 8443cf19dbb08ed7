/** (a * b + d) / c in more than 64 bits, out of 32-bit limbs.

    ULARGE_INTEGER is a natural number below 2^64 with a low and a high 32-bit part; every wrap the
    source relies on is written out. */
module WideArithmetic {
  import opened Arithmetic
  import opened BaseTypes
  import opened Bits

  function Lo(q: nat): nat { q % W32 }

  function Hi(q: nat): nat { q / W32 }

  function Join(hi: nat, lo: nat): nat { hi * W32 + lo }

  /** Conversion to DWORDLONG and to LONGLONG: modulo 2^64. */
  function U64(x: int): nat { x % W64 }

  function S64(x: int): int {
    var u := x % W64;
    if u <= MAX64 then u else u - W64
  }

  function Wide(p1: nat, p0: nat): nat { p1 * W64 + p0 }

  function Saturated(negative: bool): int { if negative then MIN64 else MAX64 }

  /** n / c truncated toward zero, saturated at 64 unsigned bits and otherwise reinterpreted as signed.
      Division by zero saturates too; zeroSign is the sign used when n is zero as well. */
  function Quotient64(n: int, c: int, zeroSign: bool): int {
    if c == 0 then Saturated(if n != 0 then n < 0 else zeroSign)
    else
      var q := TruncDiv(n, c);
      if Abs(q) >= W64 then Saturated(q < 0) else S64(q)
  }

  /** What the two functions compute, over the integers. */
  function MulDivValue(a: int, b: int, c: int, d: int): int {
    Quotient64(a * b + d, c, (a < 0) != (b < 0))
  }

  // ---------------------------------------------------------------------- lemmas

  lemma LimbsOf(q: nat)
    ensures q == Join(Hi(q), Lo(q)) && Lo(q) < W32
    ensures q < W64 ==> Hi(q) < W32
  {
  }

  lemma Schoolbook(ah: nat, al: nat, bh: nat, bl: nat)
    ensures (ah * W32 + al) * (bh * W32 + bl) == ah * bh * W64 + (al * bh + ah * bl) * W32 + al * bl
  {
    var a, b := ah * W32 + al, bh * W32 + bl;
    calc {
      a * b;
      ah * W32 * b + al * b;
      { assert ah * W32 * b == ah * b * W32; }
      ah * b * W32 + al * b;
      { assert ah * b == ah * bh * W32 + ah * bl; assert al * b == al * bh * W32 + al * bl; }
      (ah * bh * W32 + ah * bl) * W32 + al * bh * W32 + al * bl;
    }
  }

  lemma ProductBound(x: nat, y: nat, mx: nat, my: nat)
    requires x <= mx && y <= my
    ensures 0 <= x * y <= mx * my
  {
    MulMono(x, mx, y);
    MulMono(y, my, mx);
  }

  lemma AbsProduct(a: int, b: int)
    ensures a * b == if (a < 0) != (b < 0) then -(Abs(a) * Abs(b)) else Abs(a) * Abs(b)
  {
  }

  // -------------------------------------------------------------------- the steps

  /** The absolute value, as the source takes it: the most negative number maps to 2^63. */
  function Magnitude64(x: int): (r: nat)
    requires Int64(x)
    ensures r == Abs(x)
  {
    U64(if x >= 0 then x else S64(-x))
  }

  /** Long multiplication.  Neither intermediate sum carries out of its 64 bits. */
  method LongMultiply(ua: nat, ub: nat) returns (p1: nat, p0: nat)
    requires ua <= 0x8000_0000_0000_0000 && ub <= 0x8000_0000_0000_0000
    ensures Wide(p1, p0) == ua * ub && p0 < W64 && p1 <= 0x4000_0000_0000_0000
  {
    var al, ah, bl, bh := Lo(ua), Hi(ua), Lo(ub), Hi(ub);
    ProductBound(al, bl, W32 - 1, W32 - 1);
    ProductBound(al, bh, W32 - 1, 0x8000_0000);
    ProductBound(ah, bl, 0x8000_0000, W32 - 1);
    ProductBound(ah, bh, 0x8000_0000, 0x8000_0000);
    Schoolbook(ah, al, bh, bl);
    p0 := al * bl;
    var x := al * bh + ah * bl + Hi(p0);
    assert x < W64;
    LimbsOf(p0);
    LimbsOf(x);
    p0 := Join(Lo(x), Lo(p0));
    p1 := ah * bh + Hi(x);
    assert Wide(p1, p0) == ua * ub;
    ProductBound(ua, ub, 0x8000_0000_0000_0000, 0x8000_0000_0000_0000);
  }

  /** A register that is 32 or 64 bits wide. */
  function Wrap(x: nat, top: nat): (r: nat)
    requires top == W32 || top == W64
    ensures x < top ==> r == x
    ensures top <= x < 2 * top ==> r == x - top
  {
    if top == W32 then x % W32 else x % W64
  }

  /** Extended addition by 32-bit steps; the top part is `top` wide and wraps. */
  method ExtendedAdd(p1: nat, p0: nat, ud1: nat, ud0: nat, top: nat) returns (r1: nat, r0: nat)
    requires top == W32 || top == W64
    requires p0 < W64 && ud0 < W64 && p1 < top && ud1 < top
    ensures var carry := if p0 + ud0 >= W64 then 1 else 0;
            r0 == p0 + ud0 - carry * W64 && r1 == Wrap(p1 + ud1 + carry, top)
  {
    LimbsOf(p0);
    LimbsOf(ud0);
    var total := Lo(ud0) + Lo(p0);
    var low := Lo(total);
    LimbsOf(total);
    total := Hi(total);
    total := total + Hi(ud0) + Hi(p0);
    LimbsOf(total);
    r0 := Join(Lo(total), low);
    assert p0 + ud0 == Hi(total) * W64 + r0 && r0 < W64;
    r1 := Wrap(p1 + ud1 + Hi(total), top);
  }

  /** Negation in two's complement over both parts. */
  method Negate(p1: nat, p0: nat, top: nat) returns (r1: nat, r0: nat)
    requires top == W32 || top == W64
    requires p1 < top && p0 < W64
    ensures p0 == 0 ==> r0 == 0 && r1 == Wrap(top - p1, top)
    ensures p0 != 0 ==> r0 == W64 - p0 && r1 == top - 1 - p1
  {
    r0 := W64 - 1 - p0;
    r1 := top - 1 - p1;
    r0 := U64(r0 + 1);
    r1 := Wrap(r1 + if r0 == 0 then 1 else 0, top);
  }

  /** d or -d as a two's complement number of the full width. */
  function Addend(d: int, negative: bool): int { if negative then -d else d }

  /** Add d to a magnitude of the given sign, by two's complement, and take the magnitude again. */
  method AddSigned(p1: nat, p0: nat, negative: bool, d: int, top: nat) returns (m1: nat, m0: nat, sign: bool)
    requires top == W32 || top == W64
    requires p0 < W64 && p1 <= top / 4 && Int64(d)
    ensures var t := Wide(p1, p0) + Addend(d, negative);
            && Wide(m1, m0) == Abs(t)
            && sign == (negative != (t < 0))
    ensures m0 < W64 && m1 <= top / 4 + 1
  {
    m1, m0, sign := p1, p0, negative;
    if d != 0 {
      var ud0, ud1: nat;
      if negative {
        ud0 := U64(S64(-d));
        ud1 := if d > 0 then top - 1 else 0;
      } else {
        ud0 := U64(d);
        ud1 := if d < 0 then top - 1 else 0;
      }
      ghost var e := Addend(d, negative);
      assert if e < 0 then ud0 == W64 + e && ud1 == top - 1 else ud0 == e && ud1 == 0;
      m1, m0 := ExtendedAdd(p1, p0, ud1, ud0, top);
      if m1 >= top / 2 {
        assert m1 == top - 1 && m0 == W64 + Wide(p1, p0) + e;
        sign := !sign;
        m1, m0 := Negate(m1, m0, top);
      } else {
        assert Wide(m1, m0) == Wide(p1, p0) + e;
      }
    }
  }

  /** The hardware divide of 64 by 32 bits: it faults unless the quotient fits in 32 bits. */
  method EnlargedUnsignedDivide(dividend: nat, divisor: nat) returns (q: nat, r: nat)
    requires dividend < W64 && Hi(dividend) < divisor < W32
    ensures q == dividend / divisor && r == dividend % divisor && q < W32
  {
    q, r := dividend / divisor, dividend % divisor;
    MulMono(Hi(dividend) + 1, divisor, W32);
    assert divisor * W32 == W32 * divisor;
    DivBound(dividend, divisor, W32);
  }

  /** Schoolbook division by one 32-bit limb: the remainder of the high part leads the low part. */
  lemma TwoDigitQuotient(hi: nat, lo: nat, c: nat)
    requires c > 0
    ensures (hi * W32 + lo) / c == hi / c * W32 + (hi % c * W32 + lo) / c
  {
    var q1, r1 := hi / c, hi % c;
    var rest := r1 * W32 + lo;
    var q0, r0 := rest / c, rest % c;
    assert hi == q1 * c + r1;
    assert hi * W32 + lo == q1 * c * W32 + rest;
    assert (q1 * W32 + q0) * c == q1 * W32 * c + q0 * c;
    assert q1 * W32 * c == q1 * c * W32;
    DivModUnique(hi * W32 + lo, q1 * W32 + q0, r0, c);
  }

  lemma DwordQuotient(p1: nat, p0: nat, c: nat)
    requires p1 < c < W32 && p0 < W64
    ensures var dividend := Join(p1, Hi(p0));
            && Wide(p1, p0) / c == dividend / c * W32 + Join(dividend % c, Lo(p0)) / c
            && dividend / c < W32 && Join(dividend % c, Lo(p0)) / c < W32
  {
    LimbsOf(p0);
    var dividend := Join(p1, Hi(p0));
    TwoDigitQuotient(dividend, Lo(p0), c);
    assert Wide(p1, p0) == dividend * W32 + Lo(p0);
    OneDigit(p1, Hi(p0), c);
    OneDigit(dividend % c, Lo(p0), c);
  }

  lemma OneDigit(hi: nat, lo: nat, c: nat)
    requires hi < c < W32 && lo < W32
    ensures Join(hi, lo) / c < W32
  {
    MulMono(hi + 1, c, W32);
    assert c * W32 == W32 * c;
    DivBound(Join(hi, lo), c, W32);
  }

  /** The compiler's own 64-bit division. */
  method CompilerDivide(dividend: nat, divisor: nat) returns (q: nat, r: nat)
    requires dividend < W64 && divisor > 0
    ensures q == dividend / divisor && r == dividend % divisor
  {
    q, r := dividend / divisor, dividend % divisor;
  }

  /** llMulDiv with a divisor of one DWORD: two 64-by-32 divisions by the compiler. */
  method DivideByDword(p1: nat, p0: nat, c: nat) returns (q: nat)
    requires p1 < c < W32 && p0 < W64
    ensures q == Wide(p1, p0) / c && q < W64
  {
    DwordQuotient(p1, p0, c);
    var dividend := Join(p1, Hi(p0));
    var high, rem := CompilerDivide(dividend, c);
    var low, _ := CompilerDivide(Join(rem, Lo(p0)), c);
    JoinLow(high, low);
    q := U64(low + Join(high % W32, 0));
  }

  lemma JoinLow(high: nat, low: nat)
    requires high < W32 && low < W32
    ensures U64(low + Join(high % W32, 0)) == Join(high, low) < W64
  {
  }

  lemma NoFirstDigit(hi: nat, lo: nat, c: nat)
    requires Join(hi, lo) < c < W32
    ensures Join(hi, lo) / c == 0 && Join(hi, lo) % c == lo
  {
    DivModUnique(Join(hi, lo), 0, lo, c);
  }

  /** Int64x32Div32: the same with the hardware divide, skipping the first one when it would give zero. */
  method DivideByHardware(p1: nat, p0: nat, c: nat) returns (q: nat)
    requires p1 < c < W32 && p0 < W64
    ensures q == Wide(p1, p0) / c && q < W64
  {
    DwordQuotient(p1, p0, c);
    LimbsOf(p0);
    var dividend := Join(p1, Hi(p0));
    var high, rem := 0, Hi(p0);
    if dividend >= c {
      high, rem := EnlargedUnsignedDivide(dividend, c);
    } else {
      NoFirstDigit(p1, Hi(p0), c);
    }
    var low, _ := EnlargedUnsignedDivide(Join(rem, Lo(p0)), c);
    q := Join(high, low);
  }

  // ------------------------------------------------------------ shift and subtract

  /** Adding one to the low part of an even number carries nothing into the high part. */
  lemma IncrementLow(x: nat)
    requires x % 2 == 0
    ensures Lo(x) + 1 < W32 && Join(Hi(x), Lo(x) + 1) == x + 1
  {
  }

  /** Shift the 128-bit register left by one; its top bit is known to be clear. */
  method ShiftLeft(p1: nat, p0: nat) returns (n1: nat, n0: nat)
    requires p1 < 0x8000_0000_0000_0000 && p0 < W64
    ensures n0 < W64 && Wide(n1, n0) == 2 * Wide(p1, p0)
  {
    n1 := U64(2 * p1);
    assert n1 == 2 * p1;
    if Hi(p0) >= 0x8000_0000 {
      IncrementLow(n1);
      n1 := Join(Hi(n1), (Lo(n1) + 1) % W32);
    }
    n0 := U64(2 * p0);
  }

  /** One turn of the long division: shift, compare, subtract. */
  method DivideStep(p1: nat, p0: nat, c: nat, q: nat) returns (n1: nat, n0: nat, nq: nat)
    requires p1 < c <= 0x8000_0000_0000_0000 && p0 < W64 && q <= MAX64
    ensures n1 < c && n0 < W64
    ensures nq == 2 * q || nq == 2 * q + 1
    ensures Wide(n1, n0) == 2 * Wide(p1, p0) - if nq == 2 * q then 0 else c * W64
  {
    nq := U64(2 * q);
    n1, n0 := ShiftLeft(p1, p0);
    if c <= n1 {
      n1 := n1 - c;
      nq := nq + 1;
    }
  }

  /** The 64-step loop.  After i steps the quotient so far and the register still make up 2^i times the dividend. */
  method LongDivide(d1: nat, d0: nat, c: nat) returns (q: nat)
    requires d1 < c <= 0x8000_0000_0000_0000 && d0 < W64
    ensures q == Wide(d1, d0) / c && q < W64
  {
    var p1: nat, p0: nat := d1, d0;
    q := 0;
    ghost var m := Wide(d1, d0);
    Pow2Words();
    for i := 0 to 64
      invariant p1 < c && p0 < W64 && q < Pow2(i)
      invariant m * Pow2(i) == q * c * W64 + Wide(p1, p0)
    {
      Pow2Bound(i);
      var oldQ := q;
      ghost var r := Wide(p1, p0);
      p1, p0, q := DivideStep(p1, p0, c, q);
      Doubled(m, Pow2(i), oldQ, c, r, q - 2 * oldQ);
      assert (q - 2 * oldQ) * c * W64 == if q == 2 * oldQ then 0 else c * W64;
    }
    assert q * c * W64 == (q * c) * W64;
    assert m * W64 == (q * c + p1) * W64 + p0;
    assert m == q * c + p1 && p0 == 0;
    DivModUnique(m, q, p1, c);
  }

  lemma Pow2Bound(i: nat)
    requires i < 64
    ensures Pow2(i) <= 0x8000_0000_0000_0000
  {
    Pow2Mono(i, 63);
    Pow2Words();
    assert Pow2(64) == 2 * Pow2(63);
  }

  lemma Doubled(m: nat, w: nat, q: nat, c: nat, r: nat, bit: int)
    requires m * w == q * c * W64 + r
    ensures m * (2 * w) == (2 * q + bit) * c * W64 + (2 * r - bit * c * W64)
  {
    MulDistrib(2 * q, bit, c);
    assert 2 * q * c == 2 * (q * c);
    assert m * (2 * w) == 2 * (m * w);
  }

  // ----------------------------------------------------------------- the two functions

  /** The last line of every path: negate as a LONGLONG. */
  function SignedResult(q: nat, negative: bool): int {
    if negative then S64(-S64(q)) else S64(q)
  }

  lemma NegateWraps(q: nat)
    requires q < W64
    ensures S64(-S64(q)) == S64(0 - q)
  {
    if q > MAX64 {
      assert S64(q) == q - W64;
      assert (W64 - q) % W64 == W64 - q && (0 - q) % W64 == W64 - q;
    } else {
      assert S64(q) == q;
    }
  }

  /** From a magnitude and a sign back to the value over the integers. */
  lemma ValueFromMagnitude(n: int, c: int, q: nat, zeroSign: bool, sign: bool)
    requires c != 0 && q == Abs(n) / Abs(c)
    requires sign == (if n != 0 then n < 0 else zeroSign)
    ensures Quotient64(n, c, zeroSign) == if q >= W64 then Saturated(sign != (c < 0)) else SignedResult(q, sign != (c < 0))
  {
    if q < W64 { NegateWraps(q); }
    if n == 0 {
      DivModUnique(0, 0, 0, Abs(c));
    }
    assert TruncDiv(n, c) == if sign != (c < 0) && n != 0 then 0 - q else q;
  }

  /** The test that catches c == 0 and overflow. */
  lemma OverflowTest(m1: nat, m0: nat, c: nat)
    requires m0 < W64 && c > 0
    ensures c <= m1 <==> Wide(m1, m0) / c >= W64
  {
    if c <= m1 {
      var q := Wide(m1, m0) / c;
      if q < W64 {
        assert Wide(m1, m0) == q * c + Wide(m1, m0) % c;
        MulMono(q, W64 - 1, c);
        MulDistrib(W64, 1, c);
      }
    } else {
      assert Wide(m1, m0) < c * W64 == W64 * c;
      DivBound(Wide(m1, m0), c, W64);
    }
  }

  /** The sign bookkeeping of the addition, in terms of a * b + d. */
  lemma SumSign(a: int, b: int, d: int, sign: bool)
    requires var p, s0 := Abs(a) * Abs(b), (a < 0) != (b < 0);
             sign == (s0 != (p + Addend(d, s0) < 0))
    ensures var n, s0 := a * b + d, (a < 0) != (b < 0);
            && Abs(n) == Abs(Abs(a) * Abs(b) + Addend(d, s0))
            && sign == (if n != 0 then n < 0 else s0)
  {
    AbsProduct(a, b);
  }

  /** The three ways to divide, chosen by the size of the operands. */
  method Divide(p1: nat, p0: nat, uc: nat) returns (q: nat)
    requires p1 < uc <= 0x8000_0000_0000_0000 && p0 < W64
    ensures q == Wide(p1, p0) / uc && q < W64
  {
    if p1 == 0 {
      q := p0 / uc;
      DivBound(p0, uc, W64);
    } else if Hi(uc) == 0 {
      q := DivideByDword(p1, p0, uc);
    } else {
      q := LongDivide(p1, p0, uc);
    }
  }

  function UDiv(n: nat, d: nat): (q: nat)
    requires d > 0
  {
    n / d
  }

  /** What is left to do once the numerator is a magnitude and a sign. */
  lemma LastStep(n: int, c: int, zeroSign: bool, p1: nat, p0: nat, sign: bool)
    requires p0 < W64 && Wide(p1, p0) == Abs(n) && sign == (if n != 0 then n < 0 else zeroSign)
    ensures Abs(c) <= p1 ==> Quotient64(n, c, zeroSign) == Saturated(sign != (c < 0))
    ensures Abs(c) > p1 ==> Quotient64(n, c, zeroSign) == SignedResult(UDiv(Wide(p1, p0), Abs(c)), sign != (c < 0))
  {
    if c != 0 {
      ValueFromMagnitude(n, c, UDiv(Wide(p1, p0), Abs(c)), zeroSign, sign);
      OverflowTest(p1, p0, Abs(c));
    }
  }

  /** a * b + d as a magnitude of 128 bits and a sign. */
  method Numerator(a: int, b: int, d: int) returns (p1: nat, p0: nat, sign: bool)
    requires Int64(a) && Int64(b) && Int64(d)
    ensures p0 < W64 && Wide(p1, p0) == Abs(a * b + d)
    ensures sign == if a * b + d != 0 then a * b + d < 0 else (a < 0) != (b < 0)
  {
    var ua, ub := Magnitude64(a), Magnitude64(b);
    sign := (a < 0) != (b < 0);
    p1, p0 := LongMultiply(ua, ub);
    p1, p0, sign := AddSigned(p1, p0, sign, d, W64);
    SumSign(a, b, d, sign);
  }

  method LlMulDiv(a: int, b: int, c: int, d: int) returns (r: int)
    requires Int64(a) && Int64(b) && Int64(c) && Int64(d)
    ensures r == MulDivValue(a, b, c, d)
  {
    var uc := Magnitude64(c);
    var p1, p0, sign := Numerator(a, b, d);
    LastStep(a * b + d, c, (a < 0) != (b < 0), p1, p0, sign);
    if c < 0 {
      sign := !sign;
    }
    if uc <= p1 {
      return Saturated(sign);
    }
    var q := Divide(p1, p0, uc);
    r := SignedResult(q, sign);
  }

  /** A 64 by 32 bit product in 96 bits; the high step is skipped when the high part is zero. */
  method Multiply64x32(ua: nat, ub: nat) returns (p1: nat, p0: nat)
    requires ua <= 0x8000_0000_0000_0000 && ub <= 0x8000_0000
    ensures Wide(p1, p0) == ua * ub && p0 < W64 && p1 <= 0x4000_0000
  {
    LimbsOf(ua);
    ProductBound(Lo(ua), ub, W32 - 1, 0x8000_0000);
    ProductBound(Hi(ua), ub, 0x8000_0000, 0x8000_0000);
    MulDistrib(Hi(ua) * W32, Lo(ua), ub);
    assert Hi(ua) * W32 * ub == Hi(ua) * ub * W32;
    p0 := Lo(ua) * ub;
    LimbsOf(p0);
    if Hi(ua) != 0 {
      var x := Hi(ua) * ub + Hi(p0);
      LimbsOf(x);
      p0 := Join(Lo(x), Lo(p0));
      p1 := Hi(x);
    } else {
      p1 := 0;
    }
  }

  /** a * b + d as a magnitude of 96 bits and a sign. */
  method Numerator96(a: int, b: int, d: int) returns (p1: nat, p0: nat, sign: bool)
    requires Int64(a) && Int32(b) && Int32(d)
    ensures p0 < W64 && p1 < W32 && Wide(p1, p0) == Abs(a * b + d)
    ensures sign == if a * b + d != 0 then a * b + d < 0 else (a < 0) != (b < 0)
  {
    var ua, ub := Magnitude64(a), Magnitude32(b);
    sign := (a < 0) != (b < 0);
    p1, p0 := Multiply64x32(ua, ub);
    p1, p0, sign := AddSigned(p1, p0, sign, d, W32);
    SumSign(a, b, d, sign);
  }

  method Int64x32Div32(a: int, b: int, c: int, d: int) returns (r: int)
    requires Int64(a) && Int32(b) && Int32(c) && Int32(d)
    ensures r == MulDivValue(a, b, c, d)
  {
    var uc := Magnitude32(c);
    var p1, p0, sign := Numerator96(a, b, d);
    LastStep(a * b + d, c, (a < 0) != (b < 0), p1, p0, sign);
    if c < 0 {
      sign := !sign;
    }
    if uc <= p1 {
      return Saturated(sign);
    }
    var q := DivideByHardware(p1, p0, uc);
    r := SignedResult(q, sign);
  }

  /** The absolute value as a DWORD: the most negative LONG maps to 2^31. */
  function Magnitude32(x: int): (r: nat)
    requires Int32(x)
    ensures r == Abs(x)
  {
    (if x == -0x8000_0000 then x else Abs(x)) % W32
  }

  // -------------------------------------------------------------- what the value means

  /** Truncated division, by its defining property: the largest multiple of |c| within |n|, with the
      sign of the exact quotient. */
  lemma TruncDivIs(n: int, c: int, q: int)
    requires c != 0 && (q != 0 ==> (q < 0) == ((n < 0) != (c < 0)))
    ensures q == TruncDiv(n, c) <==> Abs(q) * Abs(c) <= Abs(n) < (Abs(q) + 1) * Abs(c)
  {
    QuotientIs(Abs(n), Abs(c), Abs(q));
  }

  /** Exact, wrapped or saturated: the three outcomes and exactly when each occurs. */
  lemma MulDivOutcome(a: int, b: int, c: int, d: int)
    ensures var r := MulDivValue(a, b, c, d);
            && Int64(r)
            && (c == 0 ==> r == if a * b + d < 0 || (a * b + d == 0 && (a < 0) != (b < 0)) then MIN64 else MAX64)
            && (c != 0 ==>
                  var q := TruncDiv(a * b + d, c);
                  && (Int64(q) ==> r == q)
                  && (Abs(q) >= W64 ==> r == if q < 0 then MIN64 else MAX64)
                  && (Abs(q) < W64 ==> exists k :: r == q + k * W64 && -1 <= k <= 1))
  {
    if c != 0 {
      var q := TruncDiv(a * b + d, c);
      if Abs(q) < W64 {
        var k := if S64(q) == q then 0 else if S64(q) < q then -1 else 1;
        assert S64(q) == q + k * W64;
      }
    }
  }

  /** Below 2^64 the result is the quotient exactly if that fits 64 bits; one of 2^63 or more that does not is not
      saturated but changes sign. */
  lemma LargeQuotientWraps(a: int, b: int, c: int, d: int)
    requires c != 0 && Abs(TruncDiv(a * b + d, c)) < W64
    ensures var q, r := TruncDiv(a * b + d, c), MulDivValue(a, b, c, d);
            && (r == q <==> Int64(q))
            && (q > MAX64 ==> r == q - W64 < 0)
            && (q < MIN64 ==> r == q + W64 > 0)
  {
    MulDivOutcome(a, b, c, d);
  }
}
