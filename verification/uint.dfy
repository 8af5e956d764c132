/** The fixed-width unsigned integers of the C and C++ driver code, as bounded subsets of
    `int`, with the conversion and the wrapping addition that code relies on. */
module Uint {

  const U8_LIMIT: int := 0x100
  const U32_LIMIT: int := 0x1_0000_0000
  const U64_LIMIT: int := 0x1_0000_0000_0000_0000

  type u8 = x: int | 0 <= x < U8_LIMIT
  type u32 = x: int | 0 <= x < U32_LIMIT
  type u64 = x: int | 0 <= x < U64_LIMIT

  /** C's implicit conversion of an integer to `uint32_t`: the value modulo 2^32.
      It is the identity on representable values and never changes a value's class modulo 2^32. */
  function ToU32(x: int): (r: u32)
    ensures 0 <= x < U32_LIMIT ==> r == x
    ensures (x - r) % U32_LIMIT == 0
  {
    x % U32_LIMIT
  }

  /** `a + b` on two `uint64_t` operands: exact unless the sum reaches 2^64, where it wraps. */
  function AddU64(a: u64, b: u64): (r: u64)
    ensures a + b < U64_LIMIT ==> r == a + b
    ensures U64_LIMIT <= a + b ==> r == a + b - U64_LIMIT
  {
    (a + b) % U64_LIMIT
  }
}
