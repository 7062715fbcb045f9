/**
 * The hand-written 4x4 matrix `Matrix4x4<T>`, over `real`, stored row-major
 * as four rows of four entries. `Matrix4x4` is a copyable value in the
 * source: an operation that takes `&mut self` or `&mut scratch` is a method
 * that takes the old matrix and returns the new one.
 */
module Matrix44 {
  import opened Vec3D

  /** `Matrix4x4 { rows: [[T; 4]; 4] }`: `rows[i][j]` is the entry in row `i`, column `j`. */
  datatype Matrix4x4 = Matrix4x4(rows: seq<seq<real>>)

  /** Four rows of four entries each, which the source's array type guarantees. */
  predicate Valid(m: Matrix4x4) {
    |m.rows| == 4 && forall i :: 0 <= i < 4 ==> |m.rows[i]| == 4
  }

  /** `Matrix4x4::new(a00, ..., a33)`: the sixteen entries, row by row. */
  function New(a00: real, a01: real, a02: real, a03: real,
               a10: real, a11: real, a12: real, a13: real,
               a20: real, a21: real, a22: real, a23: real,
               a30: real, a31: real, a32: real, a33: real): (m: Matrix4x4)
    ensures Valid(m)
    ensures m.rows[0] == [a00, a01, a02, a03] && m.rows[1] == [a10, a11, a12, a13]
    ensures m.rows[2] == [a20, a21, a22, a23] && m.rows[3] == [a30, a31, a32, a33]
  {
    Matrix4x4([[a00, a01, a02, a03], [a10, a11, a12, a13], [a20, a21, a22, a23], [a30, a31, a32, a33]])
  }

  /** `rows()`: the length of the first row, which for a 4x4 matrix is 4. */
  function Rows(m: Matrix4x4): (n: nat)
    requires Valid(m)
    ensures n == 4
  {
    |m.rows[0]|
  }

  /** `columns()`: the number of rows, which for a 4x4 matrix is 4. */
  function Columns(m: Matrix4x4): (n: nat)
    requires Valid(m)
    ensures n == 4
  {
    |m.rows|
  }

  /** `shape()`: `(rows(), columns())`. */
  function Shape(m: Matrix4x4): (s: (nat, nat))
    requires Valid(m)
    ensures s == (4, 4)
  {
    (Rows(m), Columns(m))
  }

  /** Entry `(i, j)` of the product `a * b`: row `i` of `a` times column `j` of `b`. */
  function Product(a: Matrix4x4, b: Matrix4x4, i: nat, j: nat): real
    requires Valid(a) && Valid(b) && i < 4 && j < 4
  {
    a.rows[i][0] * b.rows[0][j] + a.rows[i][1] * b.rows[1][j] + a.rows[i][2] * b.rows[2][j] + a.rows[i][3] * b.rows[3][j]
  }

  /** The matrix product by the definition. */
  function MatMul(a: Matrix4x4, b: Matrix4x4): (c: Matrix4x4)
    requires Valid(a) && Valid(b)
    ensures Valid(c)
    ensures forall i, j :: 0 <= i < 4 && 0 <= j < 4 ==> c.rows[i][j] == Product(a, b, i, j)
  {
    Matrix4x4(seq(4, i requires 0 <= i < 4 => seq(4, j requires 0 <= j < 4 => Product(a, b, i, j))))
  }

  /** Two valid matrices with the same entries are the same matrix. */
  lemma Extensionality(a: Matrix4x4, b: Matrix4x4)
    requires Valid(a) && Valid(b)
    requires forall i, j :: 0 <= i < 4 && 0 <= j < 4 ==> a.rows[i][j] == b.rows[i][j]
    ensures a == b
  {
    forall i | 0 <= i < 4
      ensures a.rows[i] == b.rows[i]
    {
      assert forall j :: 0 <= j < 4 ==> a.rows[i][j] == b.rows[i][j];
    }
    assert a.rows == b.rows;
  }

  /** The matrix with entry `(i, j)` replaced by `v`. */
  function Update(m: Matrix4x4, i: nat, j: nat, v: real): (r: Matrix4x4)
    requires Valid(m) && i < 4 && j < 4
    ensures Valid(r)
    ensures r.rows[i][j] == v
    ensures forall r0, c0 :: 0 <= r0 < 4 && 0 <= c0 < 4 && (r0 != i || c0 != j) ==> r.rows[r0][c0] == m.rows[r0][c0]
  {
    Matrix4x4(m.rows[i := m.rows[i][j := v]])
  }

  /**
   * `multiply(other, scratch)`: overwrites every entry of `scratch` with the
   * corresponding entry of `self * other`, row by row; what `scratch` held
   * before does not matter.
   */
  method Multiply(self: Matrix4x4, other: Matrix4x4, scratch: Matrix4x4) returns (scratch': Matrix4x4)
    requires Valid(self) && Valid(other) && Valid(scratch)
    ensures scratch' == MatMul(self, other)
  {
    scratch' := scratch;
    var rows := Rows(scratch);
    for i := 0 to rows
      invariant Valid(scratch')
      invariant forall r, c :: 0 <= r < i && 0 <= c < 4 ==> scratch'.rows[r][c] == Product(self, other, r, c)
    {
      var columns := Columns(scratch');
      for j := 0 to columns
        invariant Valid(scratch')
        invariant forall r, c :: 0 <= r < i && 0 <= c < 4 ==> scratch'.rows[r][c] == Product(self, other, r, c)
        invariant forall c :: 0 <= c < j ==> scratch'.rows[i][c] == Product(self, other, i, c)
      {
        scratch' := Update(scratch', i, j, Product(self, other, i, j));
      }
    }
    Extensionality(scratch', MatMul(self, other));
  }

  /** The scratch matrix the operators start from: every entry is `self[0][0]`. */
  function Filled(a: real): (m: Matrix4x4)
    ensures Valid(m)
  {
    New(a, a, a, a, a, a, a, a, a, a, a, a, a, a, a, a)
  }

  /** `self * other`, for owned and borrowed operands alike. */
  method Mul(self: Matrix4x4, other: Matrix4x4) returns (product: Matrix4x4)
    requires Valid(self) && Valid(other)
    ensures product == MatMul(self, other)
  {
    var scratch := Filled(self.rows[0][0]);
    product := Multiply(self, other, scratch);
  }

  /** `self *= other`: `self` becomes the old `self` times `other`. */
  method MulAssign(self: Matrix4x4, other: Matrix4x4) returns (self': Matrix4x4)
    requires Valid(self) && Valid(other)
    ensures self' == MatMul(self, other)
  {
    var scratch := Filled(self.rows[0][0]);
    scratch := Multiply(self, other, scratch);
    self' := scratch;
  }

  /** `transposed()`: entry `(i, j)` of the result is entry `(j, i)` of `m`. */
  function Transposed(m: Matrix4x4): (t: Matrix4x4)
    requires Valid(m)
    ensures Valid(t)
    ensures forall i, j :: 0 <= i < 4 && 0 <= j < 4 ==> t.rows[i][j] == m.rows[j][i]
  {
    New(m.rows[0][0], m.rows[1][0], m.rows[2][0], m.rows[3][0],
        m.rows[0][1], m.rows[1][1], m.rows[2][1], m.rows[3][1],
        m.rows[0][2], m.rows[1][2], m.rows[2][2], m.rows[3][2],
        m.rows[0][3], m.rows[1][3], m.rows[2][3], m.rows[3][3])
  }

  /** Transposing twice gives back the matrix. */
  lemma TransposedTwice(m: Matrix4x4)
    requires Valid(m)
    ensures Transposed(Transposed(m)) == m
  {
    Extensionality(Transposed(Transposed(m)), m);
  }

  /** `transpose()`: `self` becomes its transpose, built in a temporary first. */
  method Transpose(self: Matrix4x4) returns (self': Matrix4x4)
    requires Valid(self)
    ensures self' == Transposed(self)
  {
    var temp := New(self.rows[0][0], self.rows[1][0], self.rows[2][0], self.rows[3][0],
                    self.rows[0][1], self.rows[1][1], self.rows[2][1], self.rows[3][1],
                    self.rows[0][2], self.rows[1][2], self.rows[2][2], self.rows[3][2],
                    self.rows[0][3], self.rows[1][3], self.rows[2][3], self.rows[3][3]);
    self' := temp;
  }

  /**
   * The vector `src` times the upper-left 3x3 block: component `j` is
   * `src.x * m[0][j] + src.y * m[1][j] + src.z * m[2][j]`.
   */
  function Linear(m: Matrix4x4, src: Vec3d): Vec3d
    requires Valid(m)
  {
    Vec3d(src.x * m.rows[0][0] + src.y * m.rows[1][0] + src.z * m.rows[2][0],
          src.x * m.rows[0][1] + src.y * m.rows[1][1] + src.z * m.rows[2][1],
          src.x * m.rows[0][2] + src.y * m.rows[1][2] + src.z * m.rows[2][2])
  }

  /**
   * `vec_multiply(src, dest)`: `dest` becomes `src` times the upper-left
   * 3x3 block; what `dest` held before does not matter.
   */
  method VecMultiply(self: Matrix4x4, src: Vec3d, dest: Vec3d) returns (dest': Vec3d)
    requires Valid(self)
    ensures dest' == Linear(self, src)
  {
    var x := src.x * self.rows[0][0] + src.y * self.rows[1][0] + src.z * self.rows[2][0];
    var y := src.x * self.rows[0][1] + src.y * self.rows[1][1] + src.z * self.rows[2][1];
    var z := src.x * self.rows[0][2] + src.y * self.rows[1][2] + src.z * self.rows[2][2];
    dest' := dest.(x := x);
    dest' := dest'.(y := y);
    dest' := dest'.(z := z);
  }

  /** Only the upper-left 3x3 block takes part: two matrices that agree on it give the same image. */
  lemma LinearIgnoresRowAndColumnThree(m: Matrix4x4, n: Matrix4x4, src: Vec3d)
    requires Valid(m) && Valid(n)
    requires forall i, j :: 0 <= i < 3 && 0 <= j < 3 ==> m.rows[i][j] == n.rows[i][j]
    ensures Linear(m, src) == Linear(n, src)
  {
    assert m.rows[0][0] == n.rows[0][0] && m.rows[0][1] == n.rows[0][1] && m.rows[0][2] == n.rows[0][2];
    assert m.rows[1][0] == n.rows[1][0] && m.rows[1][1] == n.rows[1][1] && m.rows[1][2] == n.rows[1][2];
    assert m.rows[2][0] == n.rows[2][0] && m.rows[2][1] == n.rows[2][1] && m.rows[2][2] == n.rows[2][2];
  }

  /** The homogeneous coordinate of `src`: `src . column 3` plus `m[3][3]`. */
  function Homogeneous(m: Matrix4x4, src: Vec3d): real
    requires Valid(m)
  {
    src.x * m.rows[0][3] + src.y * m.rows[1][3] + src.z * m.rows[2][3] + m.rows[3][3]
  }

  /**
   * `src` times the matrix with displacement: the offsets `m[0][3]`,
   * `m[1][3]`, `m[2][3]` are added to the three components, which are then
   * divided by the homogeneous coordinate `w`; a zero `w` is excluded.
   */
  function Displaced(m: Matrix4x4, src: Vec3d): Vec3d
    requires Valid(m) && Homogeneous(m, src) != 0.0
  {
    var l := Linear(m, src);
    var w := Homogeneous(m, src);
    Vec3d((l.x + m.rows[0][3]) / w, (l.y + m.rows[1][3]) / w, (l.z + m.rows[2][3]) / w)
  }

  /** `vec_disp_multiply(src, dest)`: `dest` becomes `Displaced(self, src)`. */
  method VecDispMultiply(self: Matrix4x4, src: Vec3d, dest: Vec3d) returns (dest': Vec3d)
    requires Valid(self) && Homogeneous(self, src) != 0.0
    ensures dest' == Displaced(self, src)
  {
    var l := Linear(self, src);
    var x := l.x + self.rows[0][3];
    var y := l.y + self.rows[1][3];
    var z := l.z + self.rows[2][3];
    var w := Homogeneous(self, src);
    dest' := dest.(x := x / w);
    dest' := dest'.(y := y / w);
    dest' := dest'.(z := z / w);
  }

  /** `identity()`: ones exactly on the diagonal. */
  function Identity(): (m: Matrix4x4)
    ensures Valid(m)
    ensures forall i, j :: 0 <= i < 4 && 0 <= j < 4 ==> m.rows[i][j] == if i == j then 1.0 else 0.0
  {
    New(1.0, 0.0, 0.0, 0.0,
        0.0, 1.0, 0.0, 0.0,
        0.0, 0.0, 1.0, 0.0,
        0.0, 0.0, 0.0, 1.0)
  }

  /** `zero()`: every entry is zero. */
  function Zero(): (m: Matrix4x4)
    ensures Valid(m)
    ensures forall i, j :: 0 <= i < 4 && 0 <= j < 4 ==> m.rows[i][j] == 0.0
  {
    New(0.0, 0.0, 0.0, 0.0,
        0.0, 0.0, 0.0, 0.0,
        0.0, 0.0, 0.0, 0.0,
        0.0, 0.0, 0.0, 0.0)
  }

  /** The identity is a unit of the product on both sides. */
  lemma IdentityIsUnit(m: Matrix4x4)
    requires Valid(m)
    ensures MatMul(Identity(), m) == m
    ensures MatMul(m, Identity()) == m
  {
    var id := Identity();
    forall i, j | 0 <= i < 4 && 0 <= j < 4
      ensures Product(id, m, i, j) == m.rows[i][j]
      ensures Product(m, id, i, j) == m.rows[i][j]
    {
    }
    Extensionality(MatMul(id, m), m);
    Extensionality(MatMul(m, id), m);
  }

  /** The zero matrix annihilates the product on both sides. */
  lemma ZeroAnnihilates(m: Matrix4x4)
    requires Valid(m)
    ensures MatMul(Zero(), m) == Zero()
    ensures MatMul(m, Zero()) == Zero()
  {
    var z := Zero();
    forall i, j | 0 <= i < 4 && 0 <= j < 4
      ensures Product(z, m, i, j) == 0.0
      ensures Product(m, z, i, j) == 0.0
    {
    }
    Extensionality(MatMul(z, m), z);
    Extensionality(MatMul(m, z), z);
  }

  /** The transpose of a product is the product of the transposes in the other order. */
  lemma TransposedProduct(a: Matrix4x4, b: Matrix4x4)
    requires Valid(a) && Valid(b)
    ensures Transposed(MatMul(a, b)) == MatMul(Transposed(b), Transposed(a))
  {
    var ta, tb := Transposed(a), Transposed(b);
    forall i, j | 0 <= i < 4 && 0 <= j < 4
      ensures Transposed(MatMul(a, b)).rows[i][j] == MatMul(tb, ta).rows[i][j]
    {
      assert Product(tb, ta, i, j) == Product(a, b, j, i);
    }
    Extensionality(Transposed(MatMul(a, b)), MatMul(tb, ta));
  }

  /** The identity maps every vector to itself, with or without displacement. */
  lemma IdentityFixesVectors(v: Vec3d)
    ensures Linear(Identity(), v) == v
    ensures Homogeneous(Identity(), v) == 1.0
    ensures Displaced(Identity(), v) == v
  {
    var id := Identity();
    assert id.rows[0][3] == 0.0 && id.rows[1][3] == 0.0 && id.rows[2][3] == 0.0 && id.rows[3][3] == 1.0;
    assert Linear(id, v) == v;
  }

  /**
   * A translation written in row 3, as a row-vector convention would place
   * it, is not read by `vec_disp_multiply`: the point comes back unmoved.
   * The displacement is taken from column 3, which also weighs the
   * homogeneous coordinate.
   */
  lemma RowThreeTranslationIsIgnored(tx: real, ty: real, tz: real, v: Vec3d)
    ensures Homogeneous(New(1.0, 0.0, 0.0, 0.0, 0.0, 1.0, 0.0, 0.0, 0.0, 0.0, 1.0, 0.0, tx, ty, tz, 1.0), v) == 1.0
    ensures Displaced(New(1.0, 0.0, 0.0, 0.0, 0.0, 1.0, 0.0, 0.0, 0.0, 0.0, 1.0, 0.0, tx, ty, tz, 1.0), v) == v
  {
    var m := New(1.0, 0.0, 0.0, 0.0, 0.0, 1.0, 0.0, 0.0, 0.0, 0.0, 1.0, 0.0, tx, ty, tz, 1.0);
    LinearIgnoresRowAndColumnThree(m, Identity(), v);
    IdentityFixesVectors(v);
  }
}
