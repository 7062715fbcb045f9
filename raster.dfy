/**
 * The geometric core of the rasteriser: the camera, projection, viewport and
 * translation matrices, screen bounding boxes, edge functions, barycentric
 * coordinates and triangle areas.
 *
 * Matrices are given row by row. The source names its matrix entries
 * `m<column><row>`, so its `m41` is row 1, column 4 here (`m[0][3]`).
 */
module Raster {
  import opened Wrappers
  import opened Algebra
  import opened Prim
  import Util

  /**
   * `perspective_matrix(near, far)`: maps camera space onto the orthographic
   * view volume. The source asserts `near > far` (the camera looks down the
   * negative z axis); `None` stands for that assertion failing.
   */
  function PerspectiveMatrix(near: real, far: real): (r: Option<Mat4>)
    ensures r.Some? <==> near > far
    ensures r.Some? ==> r.value[3] == [0.0, 0.0, 1.0, 0.0]
  {
    if near > far then
      Some([[near, 0.0, 0.0, 0.0],
            [0.0, near, 0.0, 0.0],
            [0.0, 0.0, near + far, -far * near],
            [0.0, 0.0, 1.0, 0.0]])
    else None
  }

  /** `translation_matrix(eye)`: the homogeneous translation by `eye`. */
  function TranslationMatrix(eye: Vector3): Mat4 {
    [[1.0, 0.0, 0.0, eye.x],
     [0.0, 1.0, 0.0, eye.y],
     [0.0, 0.0, 1.0, eye.z],
     [0.0, 0.0, 0.0, 1.0]]
  }

  /** The translation moves a point by `eye`. */
  lemma TranslationMovesPoints(eye: Vector3, p: Point3)
    ensures MatVec(TranslationMatrix(eye), OfPoint(p)) == OfPoint(Add(p, eye))
  {
  }

  /** The translation leaves a direction (last coordinate 0) unchanged. */
  lemma TranslationFixesDirections(eye: Vector3, v: Vector4)
    requires v.w == 0.0
    ensures MatVec(TranslationMatrix(eye), v) == v
  {
  }

  /** Translating by the zero vector is the identity. */
  lemma TranslationByZeroIsIdentity(v: Vector4)
    ensures IsIdentity(TranslationMatrix(Vector3(0.0, 0.0, 0.0)))
    ensures MatVec(TranslationMatrix(Vector3(0.0, 0.0, 0.0)), v) == v
  {
  }

  /**
   * `orthographic_matrix(left, right, top, bottom, near, far)`: maps the box
   * `[left, right] x [bottom, top] x [far, near]` onto the canonical view
   * volume `[-1, 1]^3`. The source asserts `near > far`; `None` stands for that
   * assertion failing, and the divisions come after it.
   */
  function OrthographicMatrix(left: real, right: real, top: real, bottom: real, near: real, far: real): (r: Option<Mat4>)
    requires near > far ==> right != left && top != bottom
    ensures r.Some? <==> near > far
  {
    if near > far then
      Some([[2.0 / (right - left), 0.0, 0.0, -(right + left) / (right - left)],
            [0.0, 2.0 / (top - bottom), 0.0, -(top + bottom) / (top - bottom)],
            [0.0, 0.0, 2.0 / (near - far), -((near + far) / (near - far))],
            [0.0, 0.0, 0.0, 1.0]])
    else None
  }

  /** The orthographic matrix sends the corners of its box to the corners of the canonical volume. */
  lemma OrthographicMapsBoxToCanonicalVolume(left: real, right: real, top: real, bottom: real, near: real, far: real)
    requires right != left && top != bottom && near > far
    ensures var m := OrthographicMatrix(left, right, top, bottom, near, far).value;
      MatVec(m, Vector4(left, bottom, far, 1.0)) == Vector4(-1.0, -1.0, -1.0, 1.0) &&
      MatVec(m, Vector4(right, top, near, 1.0)) == Vector4(1.0, 1.0, 1.0, 1.0)
  {
    var m := OrthographicMatrix(left, right, top, bottom, near, far).value;
    assert 2.0 / (right - left) * left - (right + left) / (right - left) == -1.0;
    assert 2.0 / (right - left) * right - (right + left) / (right - left) == 1.0;
    assert 2.0 / (top - bottom) * bottom - (top + bottom) / (top - bottom) == -1.0;
    assert 2.0 / (top - bottom) * top - (top + bottom) / (top - bottom) == 1.0;
    assert 2.0 / (near - far) * far - (near + far) / (near - far) == -1.0;
    assert 2.0 / (near - far) * near - (near + far) / (near - far) == 1.0;
  }

  /**
   * `perspective_projection_matrix(left, right, top, bottom, near, far)`: the
   * whole projection from camera space to the canonical view volume.
   */
  function PerspectiveProjectionMatrix(left: real, right: real, top: real, bottom: real, near: real, far: real): Mat4
    requires right != left && top != bottom && near != far
  {
    [[(2.0 * near) / (right - left), 0.0, (left + right) / (left - right), 0.0],
     [0.0, (2.0 * near) / (top - bottom), (bottom + top) / (bottom - top), 0.0],
     [0.0, 0.0, (far + near) / (near - far), (2.0 * far * near) / (far - near)],
     [0.0, 0.0, 1.0, 0.0]]
  }

  /**
   * The perspective projection is the orthographic matrix applied after the
   * perspective matrix, exactly (the source checks this up to rounding).
   */
  lemma PerspectiveProjectionIsOrthographicAfterPerspective(left: real, right: real, top: real, bottom: real, near: real, far: real)
    requires right != left && top != bottom && near > far
    ensures OrthographicMatrix(left, right, top, bottom, near, far).Some?
    ensures PerspectiveMatrix(near, far).Some?
    ensures MatMul(OrthographicMatrix(left, right, top, bottom, near, far).value, PerspectiveMatrix(near, far).value)
         == PerspectiveProjectionMatrix(left, right, top, bottom, near, far)
  {
    var o := OrthographicMatrix(left, right, top, bottom, near, far).value;
    var p := PerspectiveMatrix(near, far).value;
    var pp := PerspectiveProjectionMatrix(left, right, top, bottom, near, far);
    var prod := MatMul(o, p);
    assert prod[0][0] == pp[0][0] by {
      assert 2.0 / (right - left) * near == (2.0 * near) / (right - left);
    }
    assert prod[0][2] == pp[0][2] by {
      assert -(right + left) / (right - left) == (left + right) / (left - right);
    }
    assert prod[1][1] == pp[1][1] by {
      assert 2.0 / (top - bottom) * near == (2.0 * near) / (top - bottom);
    }
    assert prod[1][2] == pp[1][2] by {
      assert -(top + bottom) / (top - bottom) == (bottom + top) / (bottom - top);
    }
    assert prod[2][2] == pp[2][2] by {
      assert 2.0 / (near - far) * (near + far) - (near + far) / (near - far) == (far + near) / (near - far);
    }
    assert prod[2][3] == pp[2][3] by {
      assert 2.0 / (near - far) * (-far * near) == (2.0 * far * near) / (far - near);
    }
    MatrixExtensionality(prod, pp);
  }

  /** The viewport matrix for a `numX` by `numY` pixel image, in closed form. */
  function Viewport(numX: nat, numY: nat): Mat4 {
    var w, h := numX as real, numY as real;
    [[w / 2.0, 0.0, 0.0, (w - 1.0) / 2.0],
     [0.0, h / 2.0, 0.0, (h - 1.0) / 2.0],
     [0.0, 0.0, 1.0, 0.0],
     [0.0, 0.0, 0.0, 1.0]]
  }

  /**
   * `viewport_matrix(num_x, num_y)`: counts the image size up in floating
   * point, one unit at a time, and builds the viewport matrix from it.
   */
  method ViewportMatrix(numX: nat, numY: nat) returns (m: Mat4)
    ensures m == Viewport(numX, numY)
  {
    var imageWidth := 0.0;
    for k := 0 to numX
      invariant imageWidth == k as real
    {
      imageWidth := imageWidth + 1.0;
    }
    var imageHeight := 0.0;
    for k := 0 to numY
      invariant imageHeight == k as real
    {
      imageHeight := imageHeight + 1.0;
    }
    m := [[imageWidth / 2.0, 0.0, 0.0, (imageWidth - 1.0) / 2.0],
          [0.0, imageHeight / 2.0, 0.0, (imageHeight - 1.0) / 2.0],
          [0.0, 0.0, 1.0, 0.0],
          [0.0, 0.0, 0.0, 1.0]];
  }

  /**
   * The viewport sends the canonical square `[-1, 1]^2` onto
   * `[-0.5, numX - 0.5] x [-0.5, numY - 0.5]`, one unit per pixel, and keeps
   * depth and the homogeneous coordinate.
   */
  lemma ViewportMapsCanonicalSquareToPixels(numX: nat, numY: nat, z: real)
    ensures MatVec(Viewport(numX, numY), Vector4(-1.0, -1.0, z, 1.0)) == Vector4(-0.5, -0.5, z, 1.0)
    ensures MatVec(Viewport(numX, numY), Vector4(1.0, 1.0, z, 1.0))
         == Vector4(numX as real - 0.5, numY as real - 0.5, z, 1.0)
  {
  }

  /**
   * `world_to_raster_matrix(...)`: the viewport after the perspective
   * projection.
   */
  method WorldToRasterMatrix(left: real, right: real, top: real, bottom: real, near: real, far: real,
                             imageWidth: nat, imageHeight: nat) returns (m: Mat4)
    requires right != left && top != bottom && near != far
    ensures m == MatMul(Viewport(imageWidth, imageHeight), PerspectiveProjectionMatrix(left, right, top, bottom, near, far))
  {
    var pp := PerspectiveProjectionMatrix(left, right, top, bottom, near, far);
    var vp := ViewportMatrix(imageWidth, imageHeight);
    m := MatMul(vp, pp);
  }

  /** `BoundingBox`: the pixel-aligned box a primitive occupies on the screen. */
  datatype BoundingBox = BoundingBox(xMin: real, xMax: real, yMin: real, yMax: real)

  /** `r` is a whole number. */
  predicate Integral(r: real) {
    r.Floor as real == r
  }

  /**
   * `bounding_box(p1, p2, p3)`: the smallest box with whole-number sides that
   * holds the three points' screen coordinates; the image frame is not taken
   * into account.
   */
  function BoundingBoxOf(p1: Point3, p2: Point3, p3: Point3): (b: BoundingBox)
    ensures Integral(b.xMin) && Integral(b.xMax) && Integral(b.yMin) && Integral(b.yMax)
    ensures b.xMin <= p1.x <= b.xMax && b.xMin <= p2.x <= b.xMax && b.xMin <= p3.x <= b.xMax
    ensures b.yMin <= p1.y <= b.yMax && b.yMin <= p2.y <= b.yMax && b.yMin <= p3.y <= b.yMax
    ensures p1.x < b.xMin + 1.0 || p2.x < b.xMin + 1.0 || p3.x < b.xMin + 1.0
    ensures p1.x > b.xMax - 1.0 || p2.x > b.xMax - 1.0 || p3.x > b.xMax - 1.0
    ensures p1.y < b.yMin + 1.0 || p2.y < b.yMin + 1.0 || p3.y < b.yMin + 1.0
    ensures p1.y > b.yMax - 1.0 || p2.y > b.yMax - 1.0 || p3.y > b.yMax - 1.0
  {
    BoundingBox(
      Floor(Util.Min3(p1.x, p2.x, p3.x)) as real,
      Ceil(Util.Max3(p1.x, p2.x, p3.x)) as real,
      Floor(Util.Min3(p1.y, p2.y, p3.y)) as real,
      Ceil(Util.Max3(p1.y, p2.y, p3.y)) as real)
  }

  /** The source's own bounding-box example. */
  lemma BoundingBoxExample()
    ensures BoundingBoxOf(Vector3(-48.0, -10.0, 82.0), Vector3(29.0, -15.0, 44.0), Vector3(13.0, 34.0, 114.0))
         == BoundingBox(-48.0, 29.0, -15.0, 34.0)
  {
  }

  /**
   * `compute_edge(v1, v2, p)`: the edge function of the directed edge from
   * `v1` to `v2` at `p`, twice the signed area of the triangle `v1 v2 p`.
   */
  function Edge(v1: Point3, v2: Point3, p: Point3): real {
    (p.x - v1.x) * (v2.y - v1.y) - (p.y - v1.y) * (v2.x - v1.x)
  }

  /** The edge function vanishes on the edge's end points and flips sign with the edge's direction. */
  lemma EdgeAntisymmetric(a: Point3, b: Point3, p: Point3)
    ensures Edge(a, b, a) == 0.0 && Edge(a, b, b) == 0.0
    ensures Edge(b, a, p) == -Edge(a, b, p)
  {
  }

  /** Rotating the three points leaves the edge function unchanged. */
  lemma EdgeRotation(a: Point3, b: Point3, c: Point3)
    ensures Edge(a, b, c) == Edge(b, c, a) == Edge(c, a, b)
  {
  }

  /** The edge function is affine in `p`: it is linear along every line. */
  lemma EdgeAffine(a: Point3, b: Point3, p: Point3, q: Point3, t: real)
    ensures Edge(a, b, Add(Scale(p, 1.0 - t), Scale(q, t))) == (1.0 - t) * Edge(a, b, p) + t * Edge(a, b, q)
  {
  }

  /**
   * `barycentric_coords(v0, v1, v2, p)`: the three edge functions at `p`, each
   * against the edge opposite one vertex.
   */
  function Barycentric(v0: Point3, v1: Point3, v2: Point3, p: Point3): (w: Point3)
    ensures w.x == Edge(v1, v2, p) && w.y == Edge(v2, v0, p) && w.z == Edge(v0, v1, p)
  {
    Vector3(Edge(v1, v2, p), Edge(v2, v0, p), Edge(v0, v1, p))
  }

  /**
   * The three weights always add up to the triangle's own edge value (twice
   * its signed area), wherever `p` is; at a vertex all of it sits on that vertex.
   */
  lemma BarycentricSum(v0: Point3, v1: Point3, v2: Point3, p: Point3)
    ensures var w := Barycentric(v0, v1, v2, p); w.x + w.y + w.z == Edge(v0, v1, v2)
    ensures Barycentric(v0, v1, v2, v0) == Vector3(Edge(v0, v1, v2), 0.0, 0.0)
    ensures Barycentric(v0, v1, v2, v1) == Vector3(0.0, Edge(v0, v1, v2), 0.0)
    ensures Barycentric(v0, v1, v2, v2) == Vector3(0.0, 0.0, Edge(v0, v1, v2))
  {
  }

  /** `compute_area(v0, v1, v2)`: the absolute value of the triangle's edge value. */
  function ComputeArea(v0: Point3, v1: Point3, v2: Point3): (a: real)
    ensures 0.0 <= a
    ensures a == Edge(v0, v1, v2) || a == -Edge(v0, v1, v2)
  {
    Abs(Edge(v0, v1, v2))
  }

  /** The area does not depend on the order of the vertices. */
  lemma AreaPermutationInvariant(v0: Point3, v1: Point3, v2: Point3)
    ensures ComputeArea(v0, v1, v2) == ComputeArea(v1, v2, v0) == ComputeArea(v2, v0, v1)
    ensures ComputeArea(v0, v1, v2) == ComputeArea(v2, v1, v0) == ComputeArea(v0, v2, v1) == ComputeArea(v1, v0, v2)
  {
    EdgeRotation(v0, v1, v2);
    EdgeRotation(v2, v1, v0);
    EdgeAntisymmetric(v0, v1, v2);
    EdgeAntisymmetric(v0, v2, v1);
    EdgeAntisymmetric(v2, v1, v0);
  }

  /**
   * Dividing the weights by the area makes them add up to 1 for a triangle
   * whose edge value is positive, and to -1 for one whose edge value is negative.
   */
  lemma NormalizedWeightsSum(v0: Point3, v1: Point3, v2: Point3, p: Point3)
    requires ComputeArea(v0, v1, v2) != 0.0
    ensures var w := Divide(Barycentric(v0, v1, v2, p), ComputeArea(v0, v1, v2));
      w.x + w.y + w.z == if Edge(v0, v1, v2) > 0.0 then 1.0 else -1.0
  {
    var e := Edge(v0, v1, v2);
    var a := ComputeArea(v0, v1, v2);
    var w := Barycentric(v0, v1, v2, p);
    BarycentricSum(v0, v1, v2, p);
    SumOverItsMagnitude(w.x, w.y, w.z, e, a);
  }

  /** Three quotients by `|e|` of parts adding up to `e` add up to the sign of `e`. */
  lemma SumOverItsMagnitude(x: real, y: real, z: real, e: real, a: real)
    requires x + y + z == e
    requires 0.0 < a && (a == e || a == -e)
    ensures x / a + y / a + z / a == if e > 0.0 then 1.0 else -1.0
  {
    assert x / a + y / a + z / a == (x + y + z) / a;
    if e > 0.0 {
      assert a == e;
    } else {
      assert a == -e;
    }
  }
}
