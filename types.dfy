/**
 * Fixed-width unsigned integer types of the feed handler and the
 * failure-carrying wrappers that replace its exceptions.
 */
module Types {

  const U8_LIMIT: int := 0x100
  const U16_LIMIT: int := 0x1_0000
  const U32_LIMIT: int := 0x1_0000_0000
  const U64_LIMIT: int := 0x1_0000_0000_0000_0000

  /** One octet of a datagram (std::uint8_t). */
  type byte = b: int | 0 <= b < U8_LIMIT
  type uint16 = x: int | 0 <= x < U16_LIMIT
  type uint32 = x: int | 0 <= x < U32_LIMIT
  type uint64 = x: int | 0 <= x < U64_LIMIT

  /** Addition in a 32-bit unsigned register: wraps modulo 2^32. */
  function AddU32(a: uint32, b: uint32): (r: uint32)
    ensures a + b < U32_LIMIT ==> r == a + b
    ensures a + b >= U32_LIMIT ==> r == a + b - U32_LIMIT
  {
    (a + b) % U32_LIMIT
  }

  datatype Option<+T> = None | Some(value: T)

  datatype Result<+R, +E> = Success(value: R) | Failure(error: E)
}
