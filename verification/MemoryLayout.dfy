/** How CMemAllocator sizes and cuts up its block of memory, in 32-bit signed arithmetic. */
module MemoryLayout {
  import opened Arithmetic
  import opened BaseTypes
  import opened Bits

  const MAX_LONG: int := 0x7FFF_FFFF

  datatype Props = Props(count: int, size: int, align: int, prefix: int)

  predicate LongProps(p: Props) { Int32(p.count) && Int32(p.size) && Int32(p.align) && Int32(p.prefix) }

  /** The 32-bit signed number a computation with the exact result x leaves. */
  function Wrap(x: int): (w: int)
    ensures Int32(w) && (Int32(x) ==> w == x)
    ensures 0x8000_0000 <= x < 0x1_8000_0000 ==> w == x - 0x1_0000_0000
  {
    (x + 0x8000_0000) % 0x1_0000_0000 - 0x8000_0000
  }

  /** C's remainder, which takes the sign of n. */
  function TruncRem(n: int, d: int): int
    requires d != 0
  {
    n - TruncDiv(n, d) * d
  }

  lemma TruncRemIs(n: int, d: int)
    requires n >= 0 && d > 0
    ensures TruncRem(n, d) == n % d
  {
    DivisionEquation(n, d);
  }

  // ------------------------------------------------------------------------------ SetProperties

  /** The test on the requested alignment. */
  predicate GoodAlign(align: int, granularity: nat) {
    align != 0 && BitAnd(granularity, Word(align - 1, 32)) == 0
  }

  /** With a granularity of 2^k the test looks at bit k of align - 1 alone: it lets through every number, power
      of two or not, of the lower half of each stretch of 2^(k + 1). */
  lemma AlignmentAcceptedIff(align: int, k: nat)
    requires align != 0 && k < 32
    ensures GoodAlign(align, Pow2(k)) <==> Word(align - 1, 32) / Pow2(k) % 2 == 0
    ensures GoodAlign(align, Pow2(k)) <==> (align - 1) % Pow2(k + 1) < Pow2(k)
    ensures 0 < align <= Pow2(k) ==> GoodAlign(align, Pow2(k))
    ensures Pow2(k) < align <= Pow2(k + 1) ==> !GoodAlign(align, Pow2(k))
  {
    var w := Word(align - 1, 32);
    AndOneBit(k, w);
    BitOfWord(w, k);
    var m := MultipleOfPow2(32, k + 1);
    ModOfMod(align - 1, m, Pow2(k + 1));
    if 0 < align <= Pow2(k + 1) { SmallMod(align - 1, Pow2(k + 1)); }
  }

  /** Bit k, by what is left below the next bit. */
  lemma BitOfWord(w: nat, k: nat)
    ensures w / Pow2(k) % 2 == 0 <==> w % Pow2(k + 1) < Pow2(k)
  {
    HalveAt(w, Pow2(k));
  }

  lemma HalveAt(w: nat, p: nat)
    requires p > 0
    ensures w / p % 2 == 0 <==> w % (2 * p) < p
  {
    var q := w / p;
    DivisionEquation(w, p);
    DivisionEquation(q, 2);
    MulDistrib(q / 2 * 2, q % 2, p);
    assert q / 2 * 2 * p == q / 2 * (2 * p);
    assert q % 2 * p == if q % 2 == 0 then 0 else p;
    DivModUnique(w, q / 2, q % 2 * p + w % p, 2 * p);
  }

  lemma {:induction false} MultipleOfPow2(j: nat, k: nat) returns (m: nat)
    requires k <= j
    ensures Pow2(j) == m * Pow2(k) && m > 0
    decreases j
  {
    if k == j {
      m := 1;
    } else {
      var n := MultipleOfPow2(j - 1, k);
      m := 2 * n;
      MulDistrib(n, n, Pow2(k));
    }
  }

  lemma ModOfMod(x: int, m: nat, d: nat)
    requires m > 0 && d > 0
    ensures m * d > 0 && x % (m * d) % d == x % d
  {
    MulMono(1, m, d);
    var q, r := x / (m * d), x % (m * d);
    DivisionEquation(x, m * d);
    DivisionEquation(r, d);
    assert q * (m * d) == q * m * d;
    MulDistrib(q * m, r / d, d);
    DivModUnique(x, q * m + r / d, r % d, d);
  }

  /** Of the powers of two, the test lets through those that divide the granularity and no others. */
  lemma PowersOfTwoAccepted(j: nat, k: nat)
    requires j < 31 && k < 31
    ensures GoodAlign(Pow2(j), Pow2(k)) <==> j <= k
  {
    AlignmentAcceptedIff(Pow2(j), k);
    if j <= k {
      Pow2Mono(j, k);
    } else {
      var m := MultipleOfPow2(j, k + 1);
      JustBelow(Pow2(j), m, Pow2(k + 1));
    }
  }

  lemma JustBelow(p: nat, m: nat, q: nat)
    requires p > 0 && p == m * q
    ensures m > 0 && q > 0 && (p - 1) % q == q - 1
  {
    MulDistrib(m, 1, q);
    DivModUnique(p - 1, m - 1, q - 1, q);
  }

  /** The size a request is granted, with the one sum whose overflow changes the remainder taken first. */
  function SizeGiven(cbBuffer: int, cbPrefix: int, cbAlign: int): (size: int)
    requires cbAlign != 0
    ensures Int32(size)
  {
    var sum := Wrap(cbBuffer + cbPrefix);
    var rem := TruncRem(sum, cbAlign);
    Wrap((if rem == 0 then sum else sum - rem + cbAlign) - cbPrefix)
  }

  /** SetProperties' rounding of a request, every step of it in 32 bits. */
  method RoundRequest(cbBuffer: int, cbPrefix: int, cbAlign: int) returns (size: int)
    requires Int32(cbBuffer) && Int32(cbPrefix) && Int32(cbAlign) && cbAlign != 0
    ensures size == SizeGiven(cbBuffer, cbPrefix, cbAlign)
  {
    var lSize := Wrap(cbBuffer + cbPrefix);
    var lRemainder := TruncRem(lSize, cbAlign);
    if lRemainder != 0 {
      WrapOfSum(lSize - lRemainder, cbAlign);
      WrapOfSum(lSize - lRemainder + cbAlign, -cbPrefix);
      lSize := Wrap(Wrap(lSize - lRemainder) + cbAlign);
    }
    size := Wrap(lSize - cbPrefix);
  }

  /** Wrapping on the way makes no difference to a sum. */
  lemma WrapOfSum(x: int, y: int)
    ensures Wrap(Wrap(x) + y) == Wrap(x + y)
  {
    var n, d := x + 0x8000_0000, 0x1_0000_0000;
    DivisionEquation(n, d);
    assert Wrap(x) + y + 0x8000_0000 == n + y - n / d * d;
    ModShift(n + y, -(n / d), d);
  }

  lemma ModShift(n: int, k: int, d: int)
    requires d > 0
    ensures (n + k * d) % d == n % d
  {
    DivisionEquation(n, d);
    MulDistrib(n / d, k, d);
    DivModUnique(n + k * d, n / d + k, n % d, d);
  }

  /** A buffer and prefix that together fit a LONG are granted the least multiple of the alignment that holds
      both; if that does not fit, a negative size. */
  lemma SizeWithinRange(cbBuffer: int, cbPrefix: int, cbAlign: int)
    requires 0 < cbBuffer && 0 <= cbPrefix && cbBuffer + cbPrefix <= MAX_LONG && 0 < cbAlign <= MAX_LONG
    ensures var size := SizeGiven(cbBuffer, cbPrefix, cbAlign);
      if RoundUp(cbBuffer + cbPrefix, cbAlign) - cbPrefix <= MAX_LONG
      then size + cbPrefix == RoundUp(cbBuffer + cbPrefix, cbAlign) && cbBuffer <= size < cbBuffer + cbAlign
      else size < 0
  {
    RoundUpIs(cbBuffer + cbPrefix, cbAlign);
    TruncRemIs(cbBuffer + cbPrefix, cbAlign);
  }

  /** Past a LONG the sum is negative, and C's remainder rounds it toward zero before the alignment is added. Only
      if the sum is within the alignment of 2^32 does that leave a size that Alloc could find nothing wrong with. */
  lemma SizeBeyondRange(cbBuffer: int, cbPrefix: int, cbAlign: int)
    requires 0 < cbBuffer <= MAX_LONG && 0 <= cbPrefix <= MAX_LONG && 0 < cbAlign <= MAX_LONG
    requires cbBuffer + cbPrefix > MAX_LONG
    ensures var size := SizeGiven(cbBuffer, cbPrefix, cbAlign);
      if 0x1_0000_0000 - (cbBuffer + cbPrefix) < cbAlign then size == cbAlign - cbPrefix
      else size <= 0 || size + cbPrefix > MAX_LONG
  {
    var sum := cbBuffer + cbPrefix - 0x1_0000_0000;
    var q, r := -sum / cbAlign, -sum % cbAlign;
    DivisionEquation(-sum, cbAlign);
    assert TruncRem(sum, cbAlign) == -r by { assert Abs(sum) == -sum && Abs(cbAlign) == cbAlign; }
    if -sum < cbAlign {
      DivModUnique(-sum, 0, -sum, cbAlign);
    } else if r != 0 {
      if q <= 0 { MulMono(q, 0, cbAlign); }
      MulMono(1, q, cbAlign);
    }
  }

  // -------------------------------------------------------------------------------------- Alloc

  /** The base class's check that sizes have been set. */
  predicate Settled(p: Props) { p.count > 0 && p.size > 0 && p.align > 0 }

  /** The distance between one sample's memory and the next one's. */
  function Stride(p: Props): int
    requires Settled(p) && p.prefix >= 0
  {
    RoundUp(p.size + p.prefix, p.align)
  }

  /** The exact figures, which Alloc never computes, fit a 32-bit signed number. */
  predicate Fits(p: Props)
    requires Settled(p)
  {
    p.prefix >= 0 && Stride(p) <= MAX_LONG && p.count * Stride(p) <= MAX_LONG
  }

  /** Alloc's arithmetic and overflow checks, which let through exactly the layouts that fit. */
  method PlanBlock(p: Props) returns (ok: bool, alignedSize: int, toAllocate: int)
    requires LongProps(p) && Settled(p)
    ensures ok <==> Fits(p)
    ensures ok ==> alignedSize == Stride(p) && toAllocate == p.count * Stride(p)
  {
    ok, alignedSize, toAllocate := false, 0, 0;
    if p.size < 0 || p.prefix < 0 || p.count < 0 { return; }
    RoundUpIs(p.size + p.prefix, p.align);
    alignedSize := Wrap(p.size + p.prefix);
    if alignedSize < p.size { return; }
    if p.align > 1 {
      TruncRemIs(alignedSize, p.align);
      var lRemainder := TruncRem(alignedSize, p.align);
      if lRemainder != 0 {
        var lNewSize := Wrap(Wrap(alignedSize + p.align) - lRemainder);
        NewSize(alignedSize, p.align, lRemainder, lNewSize);
        if lNewSize < alignedSize { return; }
        alignedSize := lNewSize;
      }
    }
    assert alignedSize == Stride(p);
    toAllocate := p.count * alignedSize;
    if toAllocate > MAX_LONG { return; }
    ok := true;
  }

  /** The sum that wraps in between still comes out negative exactly if it is too large. */
  lemma NewSize(alignedSize: int, align: int, rem: int, newSize: int)
    requires 0 <= alignedSize <= MAX_LONG && 0 < rem < align <= MAX_LONG
    requires newSize == Wrap(Wrap(alignedSize + align) - rem)
    ensures newSize < alignedSize <==> alignedSize + align - rem > MAX_LONG
    ensures newSize >= alignedSize ==> newSize == alignedSize + align - rem
  {
  }

  /** What GetPointer of sample i answers, for a block at base. */
  function Pointer(base: int, p: Props, i: nat): int
    requires Settled(p) && p.prefix >= 0
  {
    base + i * Stride(p) + p.prefix
  }

  /** Samples have their prefix and their size to themselves, inside the block and at multiples of the
      alignment from its start. */
  lemma SamplesAreApart(base: int, p: Props, i: nat, j: nat)
    requires Settled(p) && Fits(p) && i < j < p.count
    ensures base <= Pointer(base, p, i) - p.prefix
    ensures Pointer(base, p, i) + p.size <= Pointer(base, p, j) - p.prefix
    ensures Pointer(base, p, j) + p.size <= base + p.count * Stride(p) <= base + MAX_LONG
    ensures (Pointer(base, p, i) - p.prefix - base) % p.align == 0
    ensures base % p.align == 0 ==> (Pointer(base, p, i) - p.prefix) % p.align == 0
  {
    var a := Stride(p);
    RoundUpIs(p.size + p.prefix, p.align);
    MulDistrib(i, 1, a);
    MulMono(i + 1, j, a);
    MulDistrib(j, 1, a);
    MulMono(j + 1, p.count, a);
    MulMono(0, i, a);
    MultipleOf(i, a, p.align);
    if base % p.align == 0 { SumOfMultiples(base, i * a, p.align); }
  }

  lemma MultipleOf(i: int, a: int, d: int)
    requires d > 0 && a % d == 0
    ensures i * a % d == 0
  {
    DivisionEquation(a, d);
    var q := a / d;
    assert i * a == i * q * d;
    DivModUnique(i * a, i * q, 0, d);
  }

  lemma SumOfMultiples(x: int, y: int, d: int)
    requires d > 0 && x % d == 0 && y % d == 0
    ensures (x + y) % d == 0
  {
    DivisionEquation(x, d);
    DivisionEquation(y, d);
    MulDistrib(x / d, y / d, d);
    DivModUnique(x + y, x / d + y / d, 0, d);
  }

  /** After SetProperties has rounded a request that fits, samples need no further rounding: they are spaced
      by their prefix and their size, and are at least as large as asked for. */
  lemma RoundedNeedsNoRounding(cbBuffer: int, p: Props)
    requires Settled(p) && p.prefix >= 0 && cbBuffer > 0
    requires p.size + p.prefix == RoundUp(cbBuffer + p.prefix, p.align)
    ensures Stride(p) == p.size + p.prefix && cbBuffer <= p.size < cbBuffer + p.align
  {
    RoundUpIs(cbBuffer + p.prefix, p.align);
    RoundUpIs(p.size + p.prefix, p.align);
  }

  /** So whatever was asked for, if Alloc goes through with the size granted, samples are as large as asked for
      exactly if buffer and prefix together fit a LONG; alignments up to 2^30, and so all powers of two, leave no
      other case. */
  lemma CommittedSizeIff(cbBuffer: int, p: Props)
    requires Int32(cbBuffer) && LongProps(p) && Settled(p) && Fits(p)
    requires p.size == SizeGiven(cbBuffer, p.prefix, p.align)
    ensures cbBuffer <= p.size <==> cbBuffer + p.prefix <= MAX_LONG
    ensures p.align <= 0x4000_0000 ==> cbBuffer <= p.size
  {
    if cbBuffer > 0 {
      FitsBound(p);
      if cbBuffer + p.prefix <= MAX_LONG {
        SizeWithinRange(cbBuffer, p.prefix, p.align);
      } else {
        SizeBeyondRange(cbBuffer, p.prefix, p.align);
      }
    }
  }

  lemma FitsBound(p: Props)
    requires Settled(p) && Fits(p)
    ensures p.size + p.prefix <= Stride(p) <= MAX_LONG
  {
    RoundUpIs(p.size + p.prefix, p.align);
  }

  /** A request too large for a LONG goes through exactly in this family: the wrapped sum is within an alignment
      above the prefix. The samples are then smaller than asked for. */
  lemma OversizeCommitsIff(cbBuffer: int, p: Props)
    requires 0 < cbBuffer <= MAX_LONG && LongProps(p) && p.align > 0 && p.prefix >= 0
    requires p.size == SizeGiven(cbBuffer, p.prefix, p.align)
    requires cbBuffer + p.prefix > MAX_LONG
    ensures Settled(p) && Fits(p) <==>
              && 0x1_0000_0000 - (cbBuffer + p.prefix) < p.align
              && p.prefix < p.align && p.count > 0 && p.count * p.align <= MAX_LONG
    ensures Settled(p) && Fits(p) ==> p.size == p.align - p.prefix < cbBuffer
  {
    SizeBeyondRange(cbBuffer, p.prefix, p.align);
    if Settled(p) && Fits(p) { FitsBound(p); }
    if p.size == p.align - p.prefix && p.size > 0 {
      RoundUpIs(p.align, p.align);
      DivModUnique(p.align, 1, 0, p.align);
    }
  }

  /** The family is not empty, with a granularity of 64K or any other: a request for 2^31 - 1 bytes behind any
      prefix above 2^30, with one more than the prefix as its alignment, ends in a sample of one byte. */
  lemma OversizeCommits(prefix: int, k: nat, p: Props)
    requires 0x4000_0000 < prefix < MAX_LONG && k < 31
    requires p == Props(1, 1, prefix + 1, prefix)
    ensures p.size == SizeGiven(MAX_LONG, p.prefix, p.align) && Settled(p) && Fits(p)
    ensures GoodAlign(p.align, Pow2(k)) <==> prefix % Pow2(k + 1) < Pow2(k)
  {
    SizeBeyondRange(MAX_LONG, prefix, p.align);
    OversizeCommitsIff(MAX_LONG, p);
    AlignmentAcceptedIff(p.align, k);
  }

  lemma PrefixPasses(prefix: int, k: nat)
    requires prefix == 0x7FFE_0000 && k == 16
    ensures 0x4000_0000 < prefix < MAX_LONG && prefix % Pow2(k + 1) < Pow2(k)
  {
    assert Pow2(8) == 0x100;
    assert Pow2(16) == 0x1_0000;
  }

  /** For example, with a granularity of 64K, behind 0x7FFE0000 bytes: 0x7FFE0001 passes for an alignment. */
  lemma OneByteSample(prefix: int, k: nat, p: Props)
    requires prefix == 0x7FFE_0000 && k == 16 && p == Props(1, 1, prefix + 1, prefix)
    ensures GoodAlign(p.align, Pow2(k)) && p.size == SizeGiven(MAX_LONG, p.prefix, p.align) && Settled(p) && Fits(p)
  {
    PrefixPasses(prefix, k);
    OversizeCommits(prefix, k, p);
  }
}
