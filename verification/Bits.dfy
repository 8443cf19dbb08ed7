/** Bitwise AND on natural numbers, and what masking with a power of two does. */
module Bits {
  import opened Arithmetic

  function BitAnd(x: nat, y: nat): nat {
    if x == 0 || y == 0 then 0 else 2 * BitAnd(x / 2, y / 2) + (x % 2) * (y % 2)
  }

  function Pow2(k: nat): (p: nat)
    ensures p > 0
  {
    if k == 0 then 1 else 2 * Pow2(k - 1)
  }

  lemma {:induction false} Pow2Mono(j: nat, k: nat)
    requires j <= k
    ensures Pow2(j) <= Pow2(k) && (j < k ==> 2 * Pow2(j) <= Pow2(k))
    decreases k
  {
    if j < k { Pow2Mono(j, k - 1); }
  }

  lemma Pow2Words()
    ensures Pow2(31) == 0x8000_0000 && Pow2(32) == 0x1_0000_0000 && Pow2(64) == 0x1_0000_0000_0000_0000
  {
    assert Pow2(8) == 0x100;
    assert Pow2(16) == 0x1_0000;
    assert Pow2(24) == 0x100_0000;
    assert Pow2(32) == 0x1_0000_0000;
    assert Pow2(40) == 0x100_0000_0000;
    assert Pow2(48) == 0x1_0000_0000_0000;
    assert Pow2(56) == 0x100_0000_0000_0000;
  }

  /** The machine word of so many bits that stands for the integer x in two's complement. */
  function Word(x: int, bits: nat): nat { x % Pow2(bits) }

  /** x + y * 2^k for x below 2^k, by halves. */
  lemma HalveMod(x: nat, k: nat)
    requires k > 0
    ensures x % Pow2(k) == 2 * (x / 2 % Pow2(k - 1)) + x % 2
  {
    var p := Pow2(k - 1);
    DivisionEquation(x / 2, p);
    MulByTwo(x / 2 / p, p);
    DivModUnique(x, x / 2 / p, 2 * (x / 2 % p) + x % 2, 2 * p);
  }

  lemma MulByTwo(q: int, p: int)
    ensures q * (2 * p) == 2 * (q * p)
  {
  }

  /** Masking with 2^k - 1 leaves the remainder. */
  lemma {:induction false} AndLowMask(x: nat, k: nat)
    ensures BitAnd(x, Pow2(k) - 1) == x % Pow2(k)
  {
    if k == 0 {
      assert BitAnd(x, 0) == 0;
    } else if x == 0 {
      SmallMod(0, Pow2(k));
    } else {
      AndLowMask(x / 2, k - 1);
      LowBits(x, Pow2(k - 1));
      HalveMod(x, k);
    }
  }

  lemma LowBits(x: nat, p: nat)
    requires x > 0 && p > 0
    ensures BitAnd(x, 2 * p - 1) == 2 * BitAnd(x / 2, p - 1) + x % 2
  {
    assert (2 * p - 1) / 2 == p - 1 && (2 * p - 1) % 2 == 1;
  }

  /** Masking with the complement of 2^k - 1 in a longer word clears the remainder. */
  lemma {:induction false} AndHighMask(x: nat, k: nat, bits: nat)
    requires k <= bits && x < Pow2(bits)
    ensures Pow2(k) <= Pow2(bits)
    ensures BitAnd(x, Pow2(bits) - Pow2(k)) == x - x % Pow2(k)
  {
    if k == 0 {
      AndLowMask(x, bits);
      SmallMod(x, Pow2(bits));
    } else {
      AndHighMask(x / 2, k - 1, bits - 1);
      HighBits(x, Pow2(bits - 1), Pow2(k - 1));
      HalveMod(x, k);
    }
  }

  lemma HighBits(x: nat, p: nat, q: nat)
    requires q <= p
    ensures BitAnd(x, 2 * p - 2 * q) == 2 * BitAnd(x / 2, p - q)
  {
    assert (2 * p - 2 * q) / 2 == p - q && (2 * p - 2 * q) % 2 == 0;
    if x == 0 || p == q { assert BitAnd(x / 2, p - q) == 0; }
  }

  lemma SmallMod(x: nat, p: nat)
    requires x < p
    ensures x % p == x
  {
  }

  /** Masking with one bit tests it. */
  lemma {:induction false} AndOneBit(k: nat, y: nat)
    ensures BitAnd(Pow2(k), y) == if y / Pow2(k) % 2 == 1 then Pow2(k) else 0
  {
    if y == 0 {
      DivModUnique(0, 0, 0, Pow2(k));
    } else if k > 0 {
      AndOneBit(k - 1, y / 2);
      var p := Pow2(k - 1);
      DivisionEquation(y / 2, p);
      MulByTwo(y / 2 / p, p);
      DivModUnique(y, y / 2 / p, 2 * (y / 2 % p) + y % 2, 2 * p);
    } else {
      assert BitAnd(1, y) == 2 * BitAnd(0, y / 2) + y % 2;
    }
  }
}
