/** The fixed-width integers of the C# code. */
module Numerics {
  const TWO_TO_THE_32: int := 0x1_0000_0000

  type int32 = x: int | -0x8000_0000 <= x < 0x8000_0000
  type uint32 = x: int | 0 <= x < 0x1_0000_0000

  /** Reinterpreting the bits of an int as a uint (two's complement). */
  function AsUInt32(x: int32): (r: uint32)
    ensures r % TWO_TO_THE_32 == x % TWO_TO_THE_32
    ensures x >= 0 ==> r == x
  {
    if x < 0 then x + TWO_TO_THE_32 else x
  }

  /** The reinterpretation loses nothing: distinct ints give distinct uints. */
  lemma AsUInt32Injective(x: int32, y: int32)
    requires AsUInt32(x) == AsUInt32(y)
    ensures x == y
  {
  }

  /** uint increment with wrap-around (an unchecked ++). */
  function WrappingIncrement(x: uint32): (r: uint32)
    ensures r == (x + 1) % TWO_TO_THE_32
  {
    if x == TWO_TO_THE_32 - 1 then 0 else x + 1
  }

  const INT32_MAX: int := 0x7fff_ffff
  const INT32_MIN: int := -0x8000_0000

  /** int increment in an unchecked context: int.MaxValue + 1 is int.MinValue. */
  function Int32Increment(x: int32): (r: int32)
    ensures (r - (x + 1)) % TWO_TO_THE_32 == 0
  {
    if x == INT32_MAX then INT32_MIN else x + 1
  }

  /** An int result of unchecked arithmetic: the mathematical value reduced into the int range. */
  function WrapInt32(x: int): (r: int32)
    ensures (r - x) % TWO_TO_THE_32 == 0
    ensures INT32_MIN <= x <= INT32_MAX ==> r == x
  {
    (x - INT32_MIN) % TWO_TO_THE_32 + INT32_MIN
  }
}
