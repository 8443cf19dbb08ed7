/** The few facts about products, quotients and remainders that the other modules lean on. */
module Arithmetic {

  lemma MulMono(a: int, b: int, c: int)
    requires a <= b && c >= 0
    ensures a * c <= b * c
  {
    assert (b - a) * c >= 0;
  }

  lemma MulDistrib(a: int, b: int, c: int)
    ensures (a + b) * c == a * c + b * c
    ensures (a - b) * c == a * c - b * c
  {
  }

  /** Quotient and remainder are determined by the division equation. */
  lemma DivModUnique(n: int, q: int, r: int, d: int)
    requires d > 0 && n == q * d + r && 0 <= r < d
    ensures n / d == q && n % d == r
  {
    var q', r' := n / d, n % d;
    MulDistrib(q, q', d);
    if q > q' {
      MulMono(1, q - q', d);
    } else if q < q' {
      MulMono(1, q' - q, d);
      MulDistrib(q', q, d);
    }
  }

  lemma DivisionEquation(n: int, d: int)
    requires d > 0
    ensures n == n / d * d + n % d && 0 <= n % d < d
  {
  }

  /** The quotient, by the multiples on either side. */
  lemma QuotientIs(n: int, d: int, q: int)
    requires d > 0
    ensures q == n / d <==> q * d <= n < (q + 1) * d
  {
    DivisionEquation(n, d);
    MulDistrib(q, 1, d);
    if q * d <= n < (q + 1) * d {
      DivModUnique(n, q, n - q * d, d);
    }
  }

  lemma DivBound(n: int, d: int, k: int)
    requires d > 0 && n < k * d
    ensures n / d < k
  {
    if n / d >= k {
      MulMono(k, n / d, d);
    }
  }

  /** C's division: truncation toward zero. */
  function TruncDiv(n: int, d: int): int
    requires d != 0
  {
    var q := Abs(n) / Abs(d);
    if (n < 0) == (d < 0) then q else -q
  }

  function Abs(n: int): nat {
    if n < 0 then -n else n
  }

  function Min(a: int, b: int): int {
    if a <= b then a else b
  }

  function Max(a: int, b: int): int {
    if a <= b then b else a
  }

  function RoundUp(n: nat, d: int): int
    requires d > 0
  {
    (n + d - 1) / d * d
  }

  /** RoundUp gives the least multiple of d that is not below n. */
  lemma RoundUpIs(n: nat, d: int)
    requires d > 0
    ensures n <= RoundUp(n, d) < n + d && RoundUp(n, d) % d == 0
    ensures RoundUp(n, d) == if n % d == 0 then n else n - n % d + d
  {
    var q, r := n / d, n % d;
    DivisionEquation(n, d);
    MulDistrib(q, 1, d);
    if r == 0 {
      DivModUnique(n + d - 1, q, d - 1, d);
      DivModUnique(n, q, 0, d);
    } else {
      DivModUnique(n + d - 1, q + 1, r - 1, d);
      DivModUnique((q + 1) * d, q + 1, 0, d);
    }
  }
}
