/**
 * Per-pixel shading: Gouraud interpolation of vertex colours, a procedural
 * checkerboard, the conversion of a colour vector to an `Rgb` pixel, and the
 * perspective correction of vertex attributes.
 */
module Shade {
  import opened Algebra
  import opened Prim
  import Color

  /**
   * `gouraud(color0, color1, color2, bary)`: the vertex colours weighted by
   * the barycentric coordinates.
   */
  function Gouraud(color0: Vector3, color1: Vector3, color2: Vector3, bary: Point3): Vector3 {
    Add(Add(Scale(color0, bary.x), Scale(color1, bary.y)), Scale(color2, bary.z))
  }

  /** At a vertex (all weight on one coordinate) the shade is that vertex's colour. */
  lemma GouraudAtVertices(color0: Vector3, color1: Vector3, color2: Vector3)
    ensures Gouraud(color0, color1, color2, Vector3(1.0, 0.0, 0.0)) == color0
    ensures Gouraud(color0, color1, color2, Vector3(0.0, 1.0, 0.0)) == color1
    ensures Gouraud(color0, color1, color2, Vector3(0.0, 0.0, 1.0)) == color2
  {
    var zero := Vector3(0.0, 0.0, 0.0);
    assert Scale(color0, 1.0) == color0 && Scale(color1, 1.0) == color1 && Scale(color2, 1.0) == color2;
    assert Scale(color0, 0.0) == zero && Scale(color1, 0.0) == zero && Scale(color2, 0.0) == zero;
    assert Add(color0, zero) == color0 && Add(zero, color1) == color1 && Add(zero, zero) == zero;
    assert Add(zero, color2) == color2;
  }

  /** A triangle of one colour shades to that colour wherever the weights add up to 1. */
  lemma GouraudOfOneColour(color: Vector3, bary: Point3)
    requires bary.x + bary.y + bary.z == 1.0
    ensures Gouraud(color, color, color, bary) == color
  {
    assert color.x * bary.x + color.x * bary.y + color.x * bary.z == color.x * (bary.x + bary.y + bary.z);
    assert color.y * bary.x + color.y * bary.y + color.y * bary.z == color.y * (bary.x + bary.y + bary.z);
    assert color.z * bary.x + color.z * bary.y + color.z * bary.z == color.z * (bary.x + bary.y + bary.z);
  }

  /**
   * With non-negative weights adding up to 1 the shade stays, channel by
   * channel, within the range `[lo, hi]` of the vertex colours.
   */
  lemma GouraudIsConvex(color0: Vector3, color1: Vector3, color2: Vector3, bary: Point3, lo: Vector3, hi: Vector3)
    requires 0.0 <= bary.x && 0.0 <= bary.y && 0.0 <= bary.z && bary.x + bary.y + bary.z == 1.0
    requires lo.x <= color0.x <= hi.x && lo.x <= color1.x <= hi.x && lo.x <= color2.x <= hi.x
    requires lo.y <= color0.y <= hi.y && lo.y <= color1.y <= hi.y && lo.y <= color2.y <= hi.y
    requires lo.z <= color0.z <= hi.z && lo.z <= color1.z <= hi.z && lo.z <= color2.z <= hi.z
    ensures var c := Gouraud(color0, color1, color2, bary);
      lo.x <= c.x <= hi.x && lo.y <= c.y <= hi.y && lo.z <= c.z <= hi.z
  {
    GouraudChannels(color0, color1, color2, bary);
    ConvexChannel(color0.x, color1.x, color2.x, bary, lo.x, hi.x);
    ConvexChannel(color0.y, color1.y, color2.y, bary, lo.y, hi.y);
    ConvexChannel(color0.z, color1.z, color2.z, bary, lo.z, hi.z);
  }

  /** Each channel of the shade is the weighted sum of that channel of the vertex colours. */
  lemma GouraudChannels(color0: Vector3, color1: Vector3, color2: Vector3, bary: Point3)
    ensures var c := Gouraud(color0, color1, color2, bary);
      c.x == color0.x * bary.x + color1.x * bary.y + color2.x * bary.z &&
      c.y == color0.y * bary.x + color1.y * bary.y + color2.y * bary.z &&
      c.z == color0.z * bary.x + color1.z * bary.y + color2.z * bary.z
  {
  }

  /** One channel of a convex combination lies between the bounds of its three values. */
  lemma ConvexChannel(a0: real, a1: real, a2: real, bary: Point3, lo: real, hi: real)
    requires 0.0 <= bary.x && 0.0 <= bary.y && 0.0 <= bary.z && bary.x + bary.y + bary.z == 1.0
    requires lo <= a0 <= hi && lo <= a1 <= hi && lo <= a2 <= hi
    ensures lo <= a0 * bary.x + a1 * bary.y + a2 * bary.z <= hi
  {
    var s := a0 * bary.x + a1 * bary.y + a2 * bary.z;
    assert lo * (bary.x + bary.y + bary.z) == lo;
    assert hi * (bary.x + bary.y + bary.z) == hi;
    assert lo * (bary.x + bary.y + bary.z) == lo * bary.x + lo * bary.y + lo * bary.z;
    assert hi * (bary.x + bary.y + bary.z) == hi * bary.x + hi * bary.y + hi * bary.z;
    NonNegativeProduct(a0 - lo, bary.x);
    NonNegativeProduct(a1 - lo, bary.y);
    NonNegativeProduct(a2 - lo, bary.z);
    assert (a0 - lo) * bary.x == a0 * bary.x - lo * bary.x;
    assert (a1 - lo) * bary.y == a1 * bary.y - lo * bary.y;
    assert (a2 - lo) * bary.z == a2 * bary.z - lo * bary.z;
    NonNegativeProduct(hi - a0, bary.x);
    NonNegativeProduct(hi - a1, bary.y);
    NonNegativeProduct(hi - a2, bary.z);
    assert (hi - a0) * bary.x == hi * bary.x - a0 * bary.x;
    assert (hi - a1) * bary.y == hi * bary.y - a1 * bary.y;
    assert (hi - a2) * bary.z == hi * bary.z - a2 * bary.z;
  }

  lemma NonNegativeProduct(a: real, b: real)
    requires 0.0 <= a && 0.0 <= b
    ensures 0.0 <= a * b
  {
  }

  /**
   * The checker pattern at scaled texture coordinates `(sm, tm)`: 1 where
   * exactly one of "the remainder of `sm` is above one half" and "the
   * remainder of `tm` is below one half" holds, 0 elsewhere. `%` is the float
   * remainder, which takes the sign of its left operand.
   */
  function Pattern(sm: real, tm: real): (p: real)
    ensures p == 0.0 || p == 1.0
    ensures p == 1.0 <==> ((RemOne(sm) > 0.5) != (RemOne(tm) < 0.5))
  {
    var a := if RemOne(sm) > 0.5 then 1 else 0;
    var b := if RemOne(tm) < 0.5 then 1 else 0;
    (if a != b then 1 else 0) as real
  }

  /** On non-negative coordinates the pattern repeats with period 1 in each direction. */
  lemma PatternPeriodic(sm: real, tm: real)
    requires 0.0 <= sm && 0.0 <= tm
    ensures Pattern(sm + 1.0, tm) == Pattern(sm, tm)
    ensures Pattern(sm, tm + 1.0) == Pattern(sm, tm)
  {
    assert Trunc(sm + 1.0) == Trunc(sm) + 1;
    assert Trunc(tm + 1.0) == Trunc(tm) + 1;
  }

  /**
   * Because the remainder keeps the sign of its operand, the pattern is
   * mirrored, not repeated, across zero: `-0.25` and `0.75` differ by 1 but
   * get opposite values.
   */
  lemma PatternMirroredAtZero()
    ensures Pattern(-0.25, 0.25) == 1.0
    ensures Pattern(0.75, 0.25) == 0.0
  {
    assert Trunc(-0.25) == 0;
    assert Trunc(0.75) == 0;
    assert Trunc(0.25) == 0;
  }

  /** The value `w0 a0 + w1 a1 + w2 a2` interpolated with the weights `w`. */
  function Interpolate(w: Point3, a0: real, a1: real, a2: real): real {
    w.x * a0 + w.y * a1 + w.z * a2
  }

  /** The interpolated depth that perspective correction divides by. */
  function DepthSum(v0: Point3, v1: Point3, v2: Point3, w: Point3): real {
    Interpolate(w, v0.z, v1.z, v2.z)
  }

  /**
   * `checkerboard(st0, st1, st2, v0, v1, v2, w)`: interpolates the texture
   * coordinates with the weights, corrects them for perspective, and shades
   * the pattern with ten squares per texture unit in grey level 0 or 1.
   */
  function Checkerboard(st0: Vector2, st1: Vector2, st2: Vector2, v0: Point3, v1: Point3, v2: Point3, w: Point3): (c: Vector3)
    requires DepthSum(v0, v1, v2, w) != 0.0
    ensures c.x == c.y == c.z
    ensures c.x == 0.0 || c.x == 1.0
    ensures c.x == 1.0 <==>
      ((RemOne(Interpolate(w, st0.x, st1.x, st2.x) * (1.0 / DepthSum(v0, v1, v2, w)) * 10.0) > 0.5) !=
       (RemOne(Interpolate(w, st0.y, st1.y, st2.y) * (1.0 / DepthSum(v0, v1, v2, w)) * 10.0) < 0.5))
  {
    CorrectedChecker(Interpolate(w, st0.x, st1.x, st2.x), Interpolate(w, st0.y, st1.y, st2.y), DepthSum(v0, v1, v2, w), 10.0)
  }

  /**
   * The checker shade of the interpolated texture coordinates `(s, t)`,
   * divided by the interpolated depth and scaled by `m` squares per unit, as
   * the grey colour `(p, p, p)`.
   */
  function CorrectedChecker(s: real, t: real, depth: real, m: real): (c: Vector3)
    requires depth != 0.0
    ensures c.x == c.y == c.z
    ensures c.x == 0.0 || c.x == 1.0
    ensures c.x == 1.0 <==> ((RemOne(s * (1.0 / depth) * m) > 0.5) != (RemOne(t * (1.0 / depth) * m) < 0.5))
  {
    var p := Pattern(s * (1.0 / depth) * m, t * (1.0 / depth) * m);
    Vector3(p, p, p)
  }

  /**
   * `color_rgb(color)`: each component scaled by 255 and truncated, the
   * same conversion as `Rgb::rgb_cast`.
   */
  function ColorRgb(color: Vector3): (c: Color.Rgb)
    ensures c == Color.RgbCast(color)
  {
    Color.FromChannels(SaturateU8(Trunc(255.0 * color.x)), SaturateU8(Trunc(255.0 * color.y)), SaturateU8(Trunc(255.0 * color.z)))
  }

  /**
   * `perspective_correct(position, vertex)`: the attribute's x and y divided
   * by the vertex's depth; the z attribute is kept as it is.
   */
  function PerspectiveCorrect(position: Point3, vertex: Vector3): (r: Vector3)
    requires position.z != 0.0
    ensures r.x * position.z == vertex.x && r.y * position.z == vertex.y
    ensures r.z == vertex.z
  {
    Vector3(vertex.x / position.z, vertex.y / position.z, vertex.z)
  }

  /**
   * `perspective_correct_inplace(position, vertex)`: the same correction
   * applied to the attribute in place, x first, then y. The attribute is
   * passed in and the corrected one returned, as `&mut` is.
   */
  method PerspectiveCorrectInPlace(position: Point3, vertex: Vector3) returns (vertex': Vector3)
    requires position.z != 0.0
    ensures vertex' == PerspectiveCorrect(position, vertex)
  {
    vertex' := vertex;
    vertex' := vertex'.(x := vertex'.x / position.z);
    vertex' := vertex'.(y := vertex'.y / position.z);
  }
}
