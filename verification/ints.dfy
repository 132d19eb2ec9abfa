/**
 * Rust's fixed-width unsigned integers, as ranges of Dafny's unbounded `int`.
 * Nothing in the modelled code does arithmetic on them, so no wrap-around is needed.
 */
module Ints {
  const U8_MAX: int := 0xFF
  const U16_MAX: int := 0xFFFF
  const USIZE_MAX: int := 0xFFFF_FFFF_FFFF_FFFF

  /** `u8`: one byte. */
  type u8 = x: int | 0 <= x <= U8_MAX

  /** `u16`. */
  type u16 = x: int | 0 <= x <= U16_MAX

  /** `NonZeroU16`: a `u16` that is never zero. */
  type NonZeroU16 = x: int | 1 <= x <= U16_MAX witness 1

  /** `usize` on a 64-bit target. */
  type usize = x: int | 0 <= x <= USIZE_MAX
}
