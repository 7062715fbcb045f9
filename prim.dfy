/**
 * Rust's primitive numeric behaviour, as used by the rasteriser: the `u8` and
 * `u32` ranges, and the `floor`, `ceil`, `trunc`, `abs` and `% 1.0` operations on
 * floating-point values, which are modelled by `real`.
 */
module Prim {
  /** An unsigned 8-bit value (`u8`). */
  newtype byte = x: int | 0 <= x < 256

  /** An unsigned 32-bit value (`u32`). */
  type u32 = x: nat | x < 0x1_0000_0000

  /**
   * `x as u8` for a whole number `x`: Rust's float-to-integer cast saturates,
   * so values below 0 become 0 and values above 255 become 255.
   */
  function SaturateU8(x: int): (b: byte)
    ensures 0 <= x < 256 ==> b as int == x
    ensures x < 0 ==> b == 0
    ensures 255 < x ==> b == 255
  {
    if x < 0 then 0 else if x > 255 then 255 else x as byte
  }

  /** `x.floor()`: the largest integer not above `x`. */
  function Floor(x: real): (r: int)
    ensures r as real <= x < r as real + 1.0
  {
    x.Floor
  }

  /** `x.ceil()`: the smallest integer not below `x`. */
  function Ceil(x: real): (r: int)
    ensures x <= r as real < x + 1.0
  {
    -((-x).Floor)
  }

  /** `x.trunc()`: `x` rounded towards zero. */
  function Trunc(x: real): (r: int)
    ensures 0.0 <= x ==> r as real <= x < r as real + 1.0
    ensures x < 0.0 ==> r as real - 1.0 < x <= r as real
  {
    if x >= 0.0 then Floor(x) else Ceil(x)
  }

  /**
   * `x % 1.0` on floats: the remainder of a division truncated towards zero,
   * so it carries the sign of `x`.
   */
  function RemOne(x: real): (r: real)
    ensures -1.0 < r < 1.0
    ensures 0.0 <= x ==> 0.0 <= r
    ensures x < 0.0 ==> r <= 0.0
    ensures (x - r).Floor as real == x - r
  {
    x - Trunc(x) as real
  }

  /** `x.abs()`. */
  function Abs(x: real): (r: real)
    ensures 0.0 <= r
    ensures r == x || r == -x
  {
    if x < 0.0 then -x else x
  }
}
