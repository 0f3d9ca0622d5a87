/** The fixed-width integers of the C++ code and the conversions into them. */
module Integers {
  const UINT32_LIMIT: int := 0x1_0000_0000
  const INT32_MIN: int := -0x8000_0000
  const INT32_MAX: int := 0x7FFF_FFFF

  type Int32 = x: int | INT32_MIN <= x <= INT32_MAX
  type UInt32 = x: int | 0 <= x < UINT32_LIMIT
  type UInt8 = x: int | 0 <= x < 256

  /** A conversion to unsigned int: reduction modulo 2^32. */
  function ToUnsigned(v: int): (r: UInt32)
    ensures 0 <= v < UINT32_LIMIT ==> r == v
    ensures (r - v) % UINT32_LIMIT == 0
  {
    v % UINT32_LIMIT
  }

  /** A conversion to int: the value modulo 2^32, read as two's complement. */
  function ToInt32(v: int): (r: Int32)
    ensures INT32_MIN <= v <= INT32_MAX ==> r == v
    ensures (r - v) % UINT32_LIMIT == 0
  {
    (v - INT32_MIN) % UINT32_LIMIT + INT32_MIN
  }
}
