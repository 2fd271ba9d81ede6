/** Bytes and unsigned machine integers, as integers with explicit wrap-around. */
module Bytes {
  type byte = x: int | 0 <= x < 256
  type uint16 = x: int | 0 <= x < 0x1_0000
  type uint32 = x: int | 0 <= x < 0x1_0000_0000

  const TWO32 := 0x1_0000_0000
  const TWO53 := 0x20_0000_0000_0000
  const TWO63 := 0x8000_0000_0000_0000
  const TWO64 := 0x1_0000_0000_0000_0000

  /** Conversions to unsigned machine integers, which keep the low bits. */
  function Uint16(n: nat): (r: uint16)
    ensures n < 0x1_0000 ==> r == n
  {
    n % 0x1_0000
  }

  function Uint32(n: nat): (r: uint32)
    ensures n < TWO32 ==> r == n
  {
    n % 0x1_0000_0000
  }

  function Uint64(n: nat): (r: nat)
    ensures n < TWO64 ==> r == n
  {
    n % 0x1_0000_0000_0000_0000
  }
}
