/** Machine integer widths, and addition that stops at the top. */
module Integers {
  const U32_MAX: nat := 0xffff_ffff
  const U64_MAX: nat := 0xffff_ffff_ffff_ffff
  const U128_MAX: nat := 0xffff_ffff_ffff_ffff_ffff_ffff_ffff_ffff
  const I64_MAX: nat := 0x7fff_ffff_ffff_ffff

  type U32 = n: nat | n <= 0xffff_ffff
  type U64 = n: nat | n <= 0xffff_ffff_ffff_ffff
  type I64 = n: int | -0x8000_0000_0000_0000 <= n <= 0x7fff_ffff_ffff_ffff

  function SaturatingAdd(a: U64, b: nat): (r: U64)
    ensures r == if a + b <= U64_MAX then a + b else U64_MAX
  {
    if a + b <= U64_MAX then a + b else U64_MAX
  }
}
