/**
 * The hand-written four-component vector `Vec4d<T>`, over `real`. Every
 * operator has owned and borrowed forms in the source with one and the same
 * component-wise body, so each operator is one function here, and the forms
 * agree by construction; a compound assignment overwrites the components of
 * `self` one after the other, so it is a method from the old vector to the
 * new one.
 */
module Vec4D {
  /** `Vec4d { inner: [x, y, z, w] }`. */
  datatype Vec4d = Vec4d(x: real, y: real, z: real, w: real)

  /** `vec4d(x, y, z, w)` and `Vec4d::new(x, y, z, w)`: the components are stored in the order given. */
  function New(x: real, y: real, z: real, w: real): (v: Vec4d)
    ensures v.x == x && v.y == y && v.z == z && v.w == w
  {
    Vec4d(x, y, z, w)
  }

  /** `dim()`: the number of components. */
  function Dim(v: Vec4d): (d: nat)
    ensures d == 4
  {
    4
  }

  /** `norm()`: the sum of the squares of the components, the squared length. */
  function Norm(v: Vec4d): real {
    v.x * v.x + v.y * v.y + v.z * v.z + v.w * v.w
  }

  /**
   * The norm, a sum of squares, is never negative. (A lemma rather than a
   * postcondition of `Norm`, so that concrete norms stay cheap to evaluate.)
   */
  lemma NormNonNegative(v: Vec4d)
    ensures Norm(v) >= 0.0
  {
    assert v.x * v.x >= 0.0 && v.y * v.y >= 0.0 && v.z * v.z >= 0.0 && v.w * v.w >= 0.0;
  }

  /** `dot_product(other)`. */
  function Dot(v: Vec4d, other: Vec4d): real {
    v.x * other.x + v.y * other.y + v.z * other.z + v.w * other.w
  }

  /** The dot product is symmetric, and a vector's dot product with itself is its norm. */
  lemma DotProperties(a: Vec4d, b: Vec4d)
    ensures Dot(a, b) == Dot(b, a)
    ensures Dot(a, a) == Norm(a)
  {
  }

  /** `self + other`. */
  function Add(a: Vec4d, b: Vec4d): Vec4d {
    Vec4d(a.x + b.x, a.y + b.y, a.z + b.z, a.w + b.w)
  }

  /** `self - other`. */
  function Sub(a: Vec4d, b: Vec4d): Vec4d {
    Vec4d(a.x - b.x, a.y - b.y, a.z - b.z, a.w - b.w)
  }

  /** `self * scalar`. */
  function Mul(v: Vec4d, scalar: real): Vec4d {
    Vec4d(v.x * scalar, v.y * scalar, v.z * scalar, v.w * scalar)
  }

  /** `self / scalar`; a zero divisor is excluded. */
  function Div(v: Vec4d, scalar: real): Vec4d
    requires scalar != 0.0
  {
    Vec4d(v.x / scalar, v.y / scalar, v.z / scalar, v.w / scalar)
  }

  /** `-self`: all four components negated. */
  function Neg(v: Vec4d): Vec4d {
    Vec4d(-v.x, -v.y, -v.z, -v.w)
  }

  /** Addition commutes, and subtracting what was added gives back the first operand. */
  lemma AddSubInverse(a: Vec4d, b: Vec4d)
    ensures Add(a, b) == Add(b, a)
    ensures Sub(Add(a, b), b) == a
    ensures Add(Sub(a, b), b) == a
  {
  }

  /** Dividing by a non-zero scalar undoes multiplying by it, and the other way round. */
  lemma MulDivInverse(v: Vec4d, s: real)
    requires s != 0.0
    ensures Div(Mul(v, s), s) == v
    ensures Mul(Div(v, s), s) == v
  {
    assert (v.x * s) / s == v.x && (v.y * s) / s == v.y;
    assert (v.z * s) / s == v.z && (v.w * s) / s == v.w;
  }

  /** Negation is an involution, subtracting is adding the negation, and `v + -v` is zero. */
  lemma NegProperties(a: Vec4d, b: Vec4d)
    ensures Neg(Neg(a)) == a
    ensures Sub(a, b) == Add(a, Neg(b))
    ensures Add(a, Neg(a)) == Vec4d(0.0, 0.0, 0.0, 0.0)
  {
  }

  /** The sums of the source's addition test table. */
  lemma AdditionTable()
    ensures Add(New(-56.0, -74.0, -83.0, 91.0), New(-11.0, -93.0, 96.0, 45.0)) == New(-67.0, -167.0, 13.0, 136.0)
    ensures Add(New(34.0, 70.0, 17.0, 28.0), New(49.0, -49.0, -33.0, -25.0)) == New(83.0, 21.0, -16.0, 3.0)
    ensures Add(New(62.0, -53.0, 6.0, 46.0), New(8.0, -19.0, -29.0, -85.0)) == New(70.0, -72.0, -23.0, -39.0)
    ensures Add(New(-34.0, -17.0, -63.0, -84.0), New(-32.0, 41.0, -6.0, 34.0)) == New(-66.0, 24.0, -69.0, -50.0)
  {
  }

  /** The differences of the source's subtraction test table. */
  lemma SubtractionTable()
    ensures Sub(New(-56.0, -74.0, -83.0, 100.0), New(-11.0, -93.0, 96.0, 83.0)) == New(-45.0, 19.0, -179.0, 17.0)
    ensures Sub(New(34.0, 70.0, 17.0, -33.0), New(49.0, -49.0, -33.0, 90.0)) == New(-15.0, 119.0, 50.0, -123.0)
    ensures Sub(New(62.0, -53.0, 6.0, -32.0), New(8.0, -19.0, -29.0, -68.0)) == New(54.0, -34.0, 35.0, 36.0)
    ensures Sub(New(-34.0, -17.0, -63.0, 46.0), New(-32.0, 41.0, -6.0, 86.0)) == New(-2.0, -58.0, -57.0, -40.0)
  {
  }

  /** `v[i]`: the `i`-th component, in constructor order; an index past 3 panics and is excluded. */
  function Index(v: Vec4d, i: nat): (c: real)
    requires i < 4
    ensures c == [v.x, v.y, v.z, v.w][i]
  {
    match i
    case 0 => v.x
    case 1 => v.y
    case 2 => v.z
    case 3 => v.w
  }

  /** Indexing a constructed vector gives back its constructor arguments. */
  lemma IndexOfNew(x: real, y: real, z: real, w: real)
    ensures Index(New(x, y, z, w), 0) == x && Index(New(x, y, z, w), 1) == y
    ensures Index(New(x, y, z, w), 2) == z && Index(New(x, y, z, w), 3) == w
  {
  }

  /**
   * `normalize()`: the vector divided by its norm. The norm is the squared
   * length, so the result is not of unit length in general; a zero norm is
   * excluded.
   */
  function Normalize(v: Vec4d): Vec4d
    requires Norm(v) != 0.0
  {
    Div(v, Norm(v))
  }

  /**
   * Scaling the normalized vector by the norm gives back the vector.
   * (A lemma rather than a postcondition of `Normalize`, so that concrete
   * normalizations stay cheap to evaluate.)
   */
  lemma NormalizeTimesNorm(v: Vec4d)
    requires Norm(v) != 0.0
    ensures Mul(Normalize(v), Norm(v)) == v
  {
    var n := Norm(v);
    assert v.x / n * n == v.x && v.y / n * n == v.y && v.z / n * n == v.z && v.w / n * n == v.w;
  }

  /** `(2, 0, 0, 0)` normalizes to `(0.5, 0, 0, 0)`, whose norm is `0.25`, not 1. */
  lemma NormalizeIsNotUnit()
    ensures Norm(Vec4d(2.0, 0.0, 0.0, 0.0)) == 4.0
    ensures Normalize(Vec4d(2.0, 0.0, 0.0, 0.0)) == Vec4d(0.5, 0.0, 0.0, 0.0)
    ensures Norm(Vec4d(0.5, 0.0, 0.0, 0.0)) == 0.25
  {
    assert Div(Vec4d(2.0, 0.0, 0.0, 0.0), 4.0) == Vec4d(0.5, 0.0, 0.0, 0.0);
  }

  /** `self += other`. */
  method AddAssign(self: Vec4d, other: Vec4d) returns (self': Vec4d)
    ensures self' == Add(self, other)
  {
    self' := self;
    self' := self'.(x := self'.x + other.x);
    self' := self'.(y := self'.y + other.y);
    self' := self'.(z := self'.z + other.z);
    self' := self'.(w := self'.w + other.w);
  }

  /** `self -= other`. */
  method SubAssign(self: Vec4d, other: Vec4d) returns (self': Vec4d)
    ensures self' == Sub(self, other)
  {
    self' := self;
    self' := self'.(x := self'.x - other.x);
    self' := self'.(y := self'.y - other.y);
    self' := self'.(z := self'.z - other.z);
    self' := self'.(w := self'.w - other.w);
  }

  /** `self *= scalar`. */
  method MulAssign(self: Vec4d, scalar: real) returns (self': Vec4d)
    ensures self' == Mul(self, scalar)
  {
    self' := self;
    self' := self'.(x := self'.x * scalar);
    self' := self'.(y := self'.y * scalar);
    self' := self'.(z := self'.z * scalar);
    self' := self'.(w := self'.w * scalar);
  }

  /** `self /= scalar`. */
  method DivAssign(self: Vec4d, scalar: real) returns (self': Vec4d)
    requires scalar != 0.0
    ensures self' == Div(self, scalar)
  {
    self' := self;
    self' := self'.(x := self'.x / scalar);
    self' := self'.(y := self'.y / scalar);
    self' := self'.(z := self'.z / scalar);
    self' := self'.(w := self'.w / scalar);
  }
}
