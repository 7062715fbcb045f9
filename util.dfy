/** Three-way minimum and maximum of floating-point values. */
module Util {
  /** The smaller of two values (`Float::min` on values that are not NaN). */
  function Min(x: real, y: real): real {
    if y < x then y else x
  }

  /** The larger of two values (`Float::max` on values that are not NaN). */
  function Max(x: real, y: real): real {
    if y > x then y else x
  }

  /** `min3(x, y, z)`: the least of three values, and one of them. */
  function Min3(x: real, y: real, z: real): (r: real)
    ensures r <= x && r <= y && r <= z
    ensures r == x || r == y || r == z
  {
    Min(Min(x, y), z)
  }

  /**
   * `max3(x, y, z)`: the greatest of three values, and one of them; never
   * below `min3` of the same values, which the bounding box relies on.
   */
  function Max3(x: real, y: real, z: real): (r: real)
    ensures r >= x && r >= y && r >= z
    ensures r == x || r == y || r == z
    ensures Min3(x, y, z) <= r
  {
    Max(Max(x, y), z)
  }
}
