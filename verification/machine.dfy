/**
 * Fixed-width machine integers of the C++ code, written as bounded subset
 * types of Dafny's unbounded `int`, with explicit wrap-around where the code
 * relies on unsigned overflow.
 */
module Machine {

  const TWO_8: int := 0x100
  const TWO_16: int := 0x1_0000
  const TWO_32: int := 0x1_0000_0000
  const TWO_64: int := 0x1_0000_0000_0000_0000

  type Byte = x: int | 0 <= x < TWO_8
  type U16 = x: int | 0 <= x < TWO_16
  type U32 = x: int | 0 <= x < TWO_32
  type U64 = x: int | 0 <= x < TWO_64
  type I32 = x: int | -0x8000_0000 <= x < 0x8000_0000

  /** `~0U`, the all-ones 32-bit value the code uses as "not set". */
  const U32_MAX: U32 := TWO_32 - 1
  /** `~0ULL`, the all-ones 64-bit value (empty hash-table slot, "whole buffer"). */
  const U64_MAX: U64 := TWO_64 - 1

  /** Unsigned 32-bit wrap-around (conversion of any integer to `uint32_t`). */
  function Wrap32(x: int): (r: U32)
    ensures 0 <= x < TWO_32 ==> r == x
    ensures (r - x) % TWO_32 == 0
  {
    x % TWO_32
  }

  /** Unsigned 64-bit wrap-around (conversion of any integer to `uint64_t`). */
  function Wrap64(x: int): (r: U64)
    ensures 0 <= x < TWO_64 ==> r == x
    ensures (r - x) % TWO_64 == 0
  {
    x % TWO_64
  }

  /** `int32_t` reinterpreted as `uint32_t` (two's complement). */
  function FromInt32(x: I32): (r: U32)
    ensures 0 <= x ==> r == x
    ensures x < 0 ==> r == x + TWO_32
  {
    if x < 0 then x + TWO_32 else x
  }

  /** `uint32_t` reinterpreted as `int32_t`, the inverse of `FromInt32`. */
  function ToInt32(u: U32): (r: I32)
    ensures FromInt32(r) == u
  {
    if u < 0x8000_0000 then u else u - TWO_32
  }

  /**
   * The bytes of a C string written as a Dafny string: each character stands
   * for one byte of the text (code points are taken modulo 256).
   */
  function Bytes(s: string): (r: seq<Byte>)
    ensures |r| == |s|
    ensures forall i :: 0 <= i < |s| ==> r[i] == (s[i] as int) % TWO_8
  {
    if |s| == 0 then [] else Bytes(s[..|s| - 1]) + [(s[|s| - 1] as int) % TWO_8]
  }
}
