/**
 * Rust's fixed-width integer types as subsets of the mathematical integers,
 * and the truncating `as` casts the modelled code performs. The target is a
 * 64-bit platform, so `usize` has 64 bits.
 */
module Ints {

  type u8 = x: int | 0 <= x < 0x100
  type u16 = x: int | 0 <= x < 0x1_0000
  type u32 = x: int | 0 <= x < 0x1_0000_0000
  type i32 = x: int | -0x8000_0000 <= x < 0x8000_0000
  type usize = x: int | 0 <= x < 0x1_0000_0000_0000_0000

  const ISIZE_MAX: int := 0x7FFF_FFFF_FFFF_FFFF
  type isize = x: int | -0x8000_0000_0000_0000 <= x <= ISIZE_MAX

  /** `x as u32` for an unsigned `x`: keeps the low 32 bits. */
  function AsU32(x: usize): (r: u32)
    ensures (r - x) % 0x1_0000_0000 == 0
    ensures r == x <==> x < 0x1_0000_0000
  {
    x % 0x1_0000_0000
  }

  /** `x as i32` (GLsizei, GLint) for an unsigned `x`: the low 32 bits read as two's complement. */
  function AsI32(x: usize): (r: i32)
    ensures (r - x) % 0x1_0000_0000 == 0
    ensures r == x <==> x < 0x8000_0000
  {
    var low := x % 0x1_0000_0000;
    if low < 0x8000_0000 then low else low - 0x1_0000_0000
  }
}
