/** Fixed-width integers of the C++ source, written out explicitly. */
module Ints {

  const TwoTo31: int := 0x8000_0000
  const TwoTo32: int := 0x1_0000_0000

  /** `u32` / `GLuint` / `GLenum`. */
  type u32 = x: int | 0 <= x < 0x1_0000_0000

  /** `i32` / `GLint`. */
  type i32 = x: int | -0x8000_0000 <= x < 0x8000_0000

  /** The implicit conversion of a `GLuint` result into an `i32` variable:
      two's-complement reinterpretation of the same 32 bits. */
  function ToI32(u: u32): (r: i32)
    ensures r % TwoTo32 == u
    ensures r >= 0 <==> u < TwoTo31
  {
    if u < TwoTo31 then u else u - TwoTo32
  }
}
