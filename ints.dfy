/** The fixed-width unsigned integer types of the C++ library, as bounded naturals. */
module Ints {
  const U8_LIMIT: nat := 0x100
  const U16_LIMIT: nat := 0x1_0000
  const U32_LIMIT: nat := 0x1_0000_0000
  const U64_LIMIT: nat := 0x1_0000_0000_0000_0000

  type u8 = x: nat | x < U8_LIMIT
  type u16 = x: nat | x < U16_LIMIT
  type u32 = x: nat | x < U32_LIMIT
  /** `size_t` on the 64-bit platforms the library targets. */
  type u64 = x: nat | x < U64_LIMIT

  /** A `uint32_t` result: arithmetic wraps modulo 2^32, and a value in range is kept. */
  function Wrap32(v: nat): (w: u32)
    ensures v < U32_LIMIT ==> w == v
  {
    v % U32_LIMIT
  }
}
