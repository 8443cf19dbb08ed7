/** Machine words as integers, and reference times. */
module BaseTypes {
  const W32: int := 0x1_0000_0000
  const W64: int := 0x1_0000_0000_0000_0000
  const MIN64: int := -0x8000_0000_0000_0000
  const MAX64: int := 0x7FFF_FFFF_FFFF_FFFF

  predicate Int32(x: int) { -0x8000_0000 <= x <= 0x7FFF_FFFF }

  predicate Int64(x: int) { MIN64 <= x <= MAX64 }

  predicate Dword(x: int) { 0 <= x < W32 }

  /** Reference times count units of 100ns; the largest one stands for never. */
  const UNITS := 10_000_000
  const MAX_TIME: int := 0x7FFF_FFFF_FFFF_FFFF

  /** The sum of two 64-bit times as the machine forms it. */
  function WrappedSum(a: int, b: int): int {
    var s := a + b;
    if s > MAX64 then s - W64 else if s < MIN64 then s + W64 else s
  }
}
