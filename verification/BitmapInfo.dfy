/** checkbmi.h: whether a bitmap header can be trusted, decided in 32-bit unsigned arithmetic. */
module BitmapInfo {
  import opened Arithmetic
  import opened BaseTypes
  import opened Bits

  const HEADER_SIZE := 40           // sizeof(BITMAPINFOHEADER)
  const LARGEST := 0x4000_0000
  const BI_RGB := 0
  const BI_BITFIELDS := 3

  datatype Header = Header(size: nat, width: int, height: int, bitCount: nat, compression: nat,
                           sizeImage: nat, clrUsed: nat)

  predicate WellTyped(h: Header) {
    && Dword(h.size) && Int32(h.width) && Int32(h.height) && h.bitCount < 0x1_0000
    && Dword(h.compression) && Dword(h.sizeImage) && Dword(h.clrUsed)
  }

  /** The DWORD a computation with this exact result leaves. */
  function U32(x: int): nat { x % W32 }

  /** A LONG as a DWORD. */
  function AsDword(x: int): nat
    requires Int32(x)
  {
    if x < 0 then x + W32 else x
  }

  lemma SmallU32(x: nat)
    requires x < W32
    ensures U32(x) == x
  {
  }

  /** The product as it comes out, and whether it is the product. */
  function MultiplyCheckOverflow(a: nat, b: nat): (bool, nat) {
    var ab := U32(a * b);
    (a == 0 || ab / a == b, ab)
  }

  /** Dividing the product again finds every overflow and nothing else. */
  lemma MultiplyCheckIff(a: nat, b: nat)
    requires Dword(a) && Dword(b)
    ensures MultiplyCheckOverflow(a, b).0 <==> a * b < W32
    ensures a * b < W32 ==> MultiplyCheckOverflow(a, b).1 == a * b
  {
    var ab := U32(a * b);
    if a > 0 {
      if a * b < W32 {
        DivModUnique(a * b, b, 0, a);
      } else {
        assert ab < a * b;
        DivBound(ab, a, b);
      }
    }
  }

  /** x & ~3 on DWORDs. */
  function DownTo4(x: nat): nat { BitAnd(x, W32 - 4) }

  /** x & ~31 on DWORDs. */
  function DownTo32(x: nat): nat { BitAnd(x, W32 - 32) }

  /** ValidateBitmapInfoHeader. */
  predicate Validate(h: Header, cbSize: nat)
    requires WellTyped(h)
  {
    && cbSize >= HEADER_SIZE && HEADER_SIZE <= h.size <= 4096
    && h.width != 0 && h.height != 0
    && h.bitCount <= 200
    && TotalCheck(AsDword(h.width), Abs(h.height))
    && h.sizeImage <= LARGEST
    && h.clrUsed <= 256
    && cbSize >= U32(Needed(h))
    && (Uncompressed(h) && h.sizeImage != 0 ==>
          ImageBytes32(U32(AsDword(h.width) * h.bitCount), Abs(h.height)) <= h.sizeImage)
  }

  predicate Uncompressed(h: Header) { h.compression == BI_RGB || h.compression == BI_BITFIELDS }

  /** The check on the size with 200 bits for every pixel. */
  predicate TotalCheck(width: nat, height: nat) {
    var bits := MultiplyCheckOverflow(200, width);
    && bits.0
    && var image := MultiplyCheckOverflow(Row200(bits.1), height);
    && image.0 && image.1 <= LARGEST
  }

  function Row200(bits: nat): nat { DownTo4(U32(bits / 8 + 3)) }

  /** The size with the bits a row has, as DWORDs give it. */
  function ImageBytes32(bits: nat, height: nat): nat { U32(height * Row32(bits)) }

  function Row32(bits: nat): nat { DownTo32(U32(bits + 31)) / 8 }

  /** The number of palette entries: for up to 8 bits a full palette unless the header says otherwise. */
  function Colours(h: Header): nat {
    if h.clrUsed == 0 && 0 < h.bitCount <= 8 then Pow2(h.bitCount) else h.clrUsed
  }

  /** The structure with its palette and its masks. */
  function Needed(h: Header): nat {
    h.size + Colours(h) * 4 + if h.compression == BI_BITFIELDS then 12 else 0
  }

  /** The exact size of so many rows of so many bits, each of them padded to a multiple of 32. */
  function ImageBytes(bits: nat, height: nat): nat { RowBytes(bits) * height }

  function RowBytes(bits: nat): nat { (bits + 31) / 32 * 4 }

  lemma RowBytesIs(bits: nat)
    ensures RowBytes(bits) % 4 == 0 && bits <= 8 * RowBytes(bits) < bits + 32
  {
  }

  /** The masks behind the header. */
  function Masks(h: Header): nat { if h.compression == BI_BITFIELDS then 3 * 4 else 0 }

  /** There is room for as many palette entries as the header says, and, if it says nothing, for one for every
      value a pixel of up to 8 bits can have. */
  predicate PaletteFits(h: Header, cbSize: nat) {
    && h.size + 4 * h.clrUsed + Masks(h) <= cbSize
    && (h.clrUsed == 0 && 0 < h.bitCount <= 8 ==>
          forall value: nat {:trigger 4 * (value + 1)} ::
            value < Pow2(h.bitCount) ==> h.size + 4 * (value + 1) + Masks(h) <= cbSize)
  }

  lemma PaletteFitsIff(h: Header, cbSize: nat)
    ensures PaletteFits(h, cbSize) <==> Needed(h) <= cbSize
  {
    if PaletteFits(h, cbSize) && h.clrUsed == 0 && 0 < h.bitCount <= 8 {
      var value := Pow2(h.bitCount) - 1;
      assert h.size + 4 * (value + 1) + Masks(h) <= cbSize;
    }
  }

  /** What the header promises, in exact arithmetic: sizes as if every pixel had 200 bits stay below 1GB. */
  predicate Safe(h: Header, cbSize: nat) {
    && HEADER_SIZE <= h.size <= 4096
    && h.width > 0 && h.height != 0 && h.bitCount <= 200
    && 200 * h.width < W32 && ImageBytes(200 * h.width, Abs(h.height)) <= LARGEST && h.sizeImage <= LARGEST
    && h.clrUsed <= 256
    && PaletteFits(h, cbSize)
    && ((h.compression == BI_RGB || h.compression == BI_BITFIELDS) && h.sizeImage != 0 ==>
          ImageBytes(h.width * h.bitCount, Abs(h.height)) <= h.sizeImage)
  }

  lemma DownTo4Is(x: nat)
    requires Dword(x)
    ensures DownTo4(x) == x - x % 4
  {
    Pow2Words();
    AndHighMask(x, 2, 32);
    assert Pow2(2) == 4;
  }

  lemma DownTo32Is(x: nat)
    requires Dword(x)
    ensures DownTo32(x) == x - x % 32
  {
    Pow2Words();
    AndHighMask(x, 5, 32);
    assert Pow2(5) == 32;
  }

  lemma Row200Is(w: nat)
    requires 200 * w < W32
    ensures Row200(200 * w) == RowBytes(200 * w) < W32
  {
    assert 200 * w / 8 == 25 * w;
    DownTo4Is(25 * w + 3);
    RowOfBytes(25 * w);
  }

  /** Rounding whole bytes up to 4 is rounding their bits up to 32. */
  lemma RowOfBytes(bytes: nat)
    ensures RowBytes(8 * bytes) == bytes + 3 - (bytes + 3) % 4
  {
  }

  lemma Row32Is(bits: nat)
    requires bits + 31 < W32
    ensures Row32(bits) == RowBytes(bits)
  {
    DownTo32Is(bits + 31);
  }

  lemma TotalCheckIff(width: nat, height: nat)
    requires Dword(width) && Dword(height)
    ensures TotalCheck(width, height) <==> 200 * width < W32 && ImageBytes(200 * width, height) <= LARGEST
  {
    MultiplyCheckIff(200, width);
    if 200 * width < W32 {
      Row200Is(width);
      MultiplyCheckIff(RowBytes(200 * width), height);
    }
  }

  lemma RowsGrow(bits: nat, more: nat)
    requires bits <= more
    ensures RowBytes(bits) <= RowBytes(more)
  {
  }

  /** More bits make no smaller image. */
  lemma ImagesGrow(bits: nat, more: nat, height: nat)
    requires bits <= more
    ensures ImageBytes(bits, height) <= ImageBytes(more, height)
  {
    RowsGrow(bits, more);
    MulMono(RowBytes(bits), RowBytes(more), height);
  }

  lemma ImageBytes32Is(bits: nat, height: nat)
    requires bits + 31 < W32 && ImageBytes(bits, height) < W32
    ensures ImageBytes32(bits, height) == ImageBytes(bits, height)
  {
    Row32Is(bits);
    SmallProduct(height, RowBytes(bits));
  }

  lemma SmallProduct(a: nat, b: nat)
    requires b * a < W32
    ensures U32(a * b) == b * a
  {
  }

  lemma RowBitsAre(width: nat, bitCount: nat)
    requires 200 * width < W32 && bitCount <= 200
    ensures width * bitCount <= 200 * width && width * bitCount + 31 < W32
  {
    MulMono(bitCount, 200, width);
  }

  lemma NeededIs(h: Header)
    requires h.clrUsed <= 256 && h.size <= 4096
    ensures U32(Needed(h)) == Needed(h)
  {
    if 0 < h.bitCount <= 8 {
      Pow2Mono(h.bitCount, 8);
      assert Pow2(8) == 256;
    }
  }

  /** The check accepts exactly the headers that are safe. */
  lemma ValidateIff(h: Header, cbSize: nat)
    requires WellTyped(h) && Dword(cbSize)
    ensures Validate(h, cbSize) <==> Safe(h, cbSize)
  {
    if HEADER_SIZE <= h.size <= 4096 && h.width != 0 && h.height != 0 && h.bitCount <= 200 && h.clrUsed <= 256 {
      TotalCheckIff(AsDword(h.width), Abs(h.height));
      NeededIs(h);
      PaletteFitsIff(h, cbSize);
      if TotalCheck(AsDword(h.width), Abs(h.height)) { ImageIs(h); }
    }
  }

  lemma ImageIs(h: Header)
    requires WellTyped(h) && h.width > 0 && h.bitCount <= 200
    requires 200 * h.width < W32 && ImageBytes(200 * h.width, Abs(h.height)) <= LARGEST
    ensures h.width * h.bitCount + 31 < W32
    ensures ImageBytes(h.width * h.bitCount, Abs(h.height)) <= LARGEST
    ensures ImageBytes32(U32(AsDword(h.width) * h.bitCount), Abs(h.height)) ==
            ImageBytes(h.width * h.bitCount, Abs(h.height))
  {
    RowBitsAre(h.width, h.bitCount);
    SmallU32(h.width * h.bitCount);
    ImagesGrow(h.width * h.bitCount, 200 * h.width, Abs(h.height));
    ImageBytes32Is(h.width * h.bitCount, Abs(h.height));
  }

  /** What a caller may rely on for an accepted header: the bitmap it describes, palette and masks included,
      is within bounds, and no 32-bit step on the way to its size wraps. */
  lemma AcceptedMeans(h: Header, cbSize: nat)
    requires WellTyped(h) && Dword(cbSize) && Validate(h, cbSize)
    ensures h.width > 0 && h.width * h.bitCount + 31 < W32
    ensures ImageBytes(h.width * h.bitCount, Abs(h.height)) <= LARGEST
    ensures h.sizeImage != 0 && (h.compression == BI_RGB || h.compression == BI_BITFIELDS) ==>
              ImageBytes(h.width * h.bitCount, Abs(h.height)) <= h.sizeImage
    ensures PaletteFits(h, cbSize) && h.size >= HEADER_SIZE
  {
    ValidateIff(h, cbSize);
    ImageIs(h);
  }
}
