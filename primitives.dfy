/** Rust's fixed-width integer types, as ranges of the unbounded `int`. */
module Primitives {
  const U8_BOUND: int := 0x100
  const U64_BOUND: int := 0x1_0000_0000_0000_0000
  const I64_MIN: int := -0x8000_0000_0000_0000
  const I64_MAX: int := 0x7fff_ffff_ffff_ffff

  type u8 = x: int | 0 <= x < U8_BOUND
  type u64 = x: int | 0 <= x < U64_BOUND
  type i64 = x: int | I64_MIN <= x <= I64_MAX
}
