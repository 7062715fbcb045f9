/**
 * The linear-algebra values the rasteriser takes from its matrix library
 * (nalgebra): 2-, 3- and 4-component vectors, points, and 4x4 matrices with
 * their products. Only the operations the rasteriser uses are given.
 */
module Algebra {
  datatype Vector2 = Vector2(x: real, y: real)
  datatype Vector3 = Vector3(x: real, y: real, z: real)
  /** A point has the same three coordinates as a vector. */
  type Point3 = Vector3
  datatype Vector4 = Vector4(x: real, y: real, z: real, w: real)

  /** `p[i]`: the `i`-th coordinate. */
  function At(p: Vector3, i: nat): real
    requires i < 3
  {
    if i == 0 then p.x else if i == 1 then p.y else p.z
  }

  function Add(a: Vector3, b: Vector3): Vector3 {
    Vector3(a.x + b.x, a.y + b.y, a.z + b.z)
  }

  /** `v * s` for a scalar `s`. */
  function Scale(v: Vector3, s: real): Vector3 {
    Vector3(v.x * s, v.y * s, v.z * s)
  }

  /** `v / s` for a non-zero scalar `s`. */
  function Divide(v: Vector3, s: real): Vector3
    requires s != 0.0
  {
    Vector3(v.x / s, v.y / s, v.z / s)
  }

  /** The homogeneous coordinates `(x, y, z, 1)` of a point. */
  function OfPoint(p: Point3): Vector4 {
    Vector4(p.x, p.y, p.z, 1.0)
  }

  /** The homogeneous coordinates `(x, y, z, 0)` of a direction. */
  function OfDirection(v: Vector3): Vector4 {
    Vector4(v.x, v.y, v.z, 0.0)
  }

  predicate IsMat4(m: seq<seq<real>>) {
    |m| == 4 && |m[0]| == 4 && |m[1]| == 4 && |m[2]| == 4 && |m[3]| == 4
  }

  /** A 4x4 matrix, as its rows: `m[i][j]` is the entry in row `i`, column `j`. */
  type Mat4 = m: seq<seq<real>> | IsMat4(m)
    witness [[0.0, 0.0, 0.0, 0.0], [0.0, 0.0, 0.0, 0.0], [0.0, 0.0, 0.0, 0.0], [0.0, 0.0, 0.0, 0.0]]

  /** Entry `(i, j)` of the product `a * b`. */
  function ProductEntry(a: Mat4, b: Mat4, i: nat, j: nat): real
    requires i < 4 && j < 4
  {
    a[i][0] * b[0][j] + a[i][1] * b[1][j] + a[i][2] * b[2][j] + a[i][3] * b[3][j]
  }

  /** The matrix product `a * b`. */
  function MatMul(a: Mat4, b: Mat4): Mat4 {
    seq(4, i requires 0 <= i < 4 => seq(4, j requires 0 <= j < 4 => ProductEntry(a, b, i, j)))
  }

  /** The product `m * v` of a matrix and a column vector. */
  function MatVec(m: Mat4, v: Vector4): Vector4 {
    Vector4(
      m[0][0] * v.x + m[0][1] * v.y + m[0][2] * v.z + m[0][3] * v.w,
      m[1][0] * v.x + m[1][1] * v.y + m[1][2] * v.z + m[1][3] * v.w,
      m[2][0] * v.x + m[2][1] * v.y + m[2][2] * v.z + m[2][3] * v.w,
      m[3][0] * v.x + m[3][1] * v.y + m[3][2] * v.z + m[3][3] * v.w)
  }

  /** `m` is the identity matrix. */
  predicate IsIdentity(m: Mat4) {
    forall i, j | 0 <= i < 4 && 0 <= j < 4 :: m[i][j] == if i == j then 1.0 else 0.0
  }

  /** Two matrices with the same entries are the same matrix. */
  lemma MatrixExtensionality(a: Mat4, b: Mat4)
    requires forall i, j | 0 <= i < 4 && 0 <= j < 4 :: a[i][j] == b[i][j]
    ensures a == b
  {
    forall i | 0 <= i < 4 ensures a[i] == b[i] {
      assert forall j | 0 <= j < 4 :: a[i][j] == b[i][j];
    }
  }
}
