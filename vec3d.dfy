/**
 * The hand-written three-component vector `Vec3d<T>`, over `real`. Every
 * operator has owned and borrowed forms in the source with one and the same
 * component-wise body, so each operator is one function here, and the forms
 * agree by construction; a compound assignment overwrites the components of
 * `self` one after the other, so it is a method from the old vector to the
 * new one.
 */
module Vec3D {
  /** `Vec3d { inner: [x, y, z] }`. */
  datatype Vec3d = Vec3d(x: real, y: real, z: real)

  /** `vec3d(x, y, z)` and `Vec3d::new(x, y, z)`: the components are stored in the order given. */
  function New(x: real, y: real, z: real): (v: Vec3d)
    ensures v.x == x && v.y == y && v.z == z
  {
    Vec3d(x, y, z)
  }

  /** `dim()`: the number of components. */
  function Dim(v: Vec3d): (d: nat)
    ensures d == 3
  {
    3
  }

  /** `norm()`: the sum of the squares of the components, the squared length. */
  function Norm(v: Vec3d): (n: real)
    ensures n >= 0.0
  {
    v.x * v.x + v.y * v.y + v.z * v.z
  }

  /** `dot_product(other)`. */
  function Dot(v: Vec3d, other: Vec3d): real {
    v.x * other.x + v.y * other.y + v.z * other.z
  }

  /** The dot product is symmetric, and a vector's dot product with itself is its norm. */
  lemma DotProperties(a: Vec3d, b: Vec3d)
    ensures Dot(a, b) == Dot(b, a)
    ensures Dot(a, a) == Norm(a)
  {
  }

  /** `self + other`. */
  function Add(a: Vec3d, b: Vec3d): Vec3d {
    Vec3d(a.x + b.x, a.y + b.y, a.z + b.z)
  }

  /** `self - other`. */
  function Sub(a: Vec3d, b: Vec3d): Vec3d {
    Vec3d(a.x - b.x, a.y - b.y, a.z - b.z)
  }

  /** `self * scalar`. */
  function Mul(v: Vec3d, scalar: real): Vec3d {
    Vec3d(v.x * scalar, v.y * scalar, v.z * scalar)
  }

  /** `self / scalar`; a zero divisor is excluded. */
  function Div(v: Vec3d, scalar: real): Vec3d
    requires scalar != 0.0
  {
    Vec3d(v.x / scalar, v.y / scalar, v.z / scalar)
  }

  /** `-self`. */
  function Neg(v: Vec3d): Vec3d {
    Vec3d(-v.x, -v.y, -v.z)
  }

  /** Addition commutes, and subtracting what was added gives back the first operand. */
  lemma AddSubInverse(a: Vec3d, b: Vec3d)
    ensures Add(a, b) == Add(b, a)
    ensures Sub(Add(a, b), b) == a
    ensures Add(Sub(a, b), b) == a
  {
  }

  /** Dividing by a non-zero scalar undoes multiplying by it, and the other way round. */
  lemma MulDivInverse(v: Vec3d, s: real)
    requires s != 0.0
    ensures Div(Mul(v, s), s) == v
    ensures Mul(Div(v, s), s) == v
  {
  }

  /** Negation is an involution, subtracting is adding the negation, and `v + -v` is zero. */
  lemma NegProperties(a: Vec3d, b: Vec3d)
    ensures Neg(Neg(a)) == a
    ensures Sub(a, b) == Add(a, Neg(b))
    ensures Add(a, Neg(a)) == Vec3d(0.0, 0.0, 0.0)
  {
  }

  /** The sums of the source's addition test table. */
  lemma AdditionTable()
    ensures Add(New(-56.0, -74.0, -83.0), New(-11.0, -93.0, 96.0)) == New(-67.0, -167.0, 13.0)
    ensures Add(New(34.0, 70.0, 17.0), New(49.0, -49.0, -33.0)) == New(83.0, 21.0, -16.0)
    ensures Add(New(62.0, -53.0, 6.0), New(8.0, -19.0, -29.0)) == New(70.0, -72.0, -23.0)
    ensures Add(New(-34.0, -17.0, -63.0), New(-32.0, 41.0, -6.0)) == New(-66.0, 24.0, -69.0)
  {
  }

  /** The differences of the source's subtraction test table. */
  lemma SubtractionTable()
    ensures Sub(New(-56.0, -74.0, -83.0), New(-11.0, -93.0, 96.0)) == New(-45.0, 19.0, -179.0)
    ensures Sub(New(34.0, 70.0, 17.0), New(49.0, -49.0, -33.0)) == New(-15.0, 119.0, 50.0)
    ensures Sub(New(62.0, -53.0, 6.0), New(8.0, -19.0, -29.0)) == New(54.0, -34.0, 35.0)
    ensures Sub(New(-34.0, -17.0, -63.0), New(-32.0, 41.0, -6.0)) == New(-2.0, -58.0, -57.0)
  {
  }

  /** `self += other`. */
  method AddAssign(self: Vec3d, other: Vec3d) returns (self': Vec3d)
    ensures self' == Add(self, other)
  {
    self' := self;
    self' := self'.(x := self'.x + other.x);
    self' := self'.(y := self'.y + other.y);
    self' := self'.(z := self'.z + other.z);
  }

  /** `self -= other`. */
  method SubAssign(self: Vec3d, other: Vec3d) returns (self': Vec3d)
    ensures self' == Sub(self, other)
  {
    self' := self;
    self' := self'.(x := self'.x - other.x);
    self' := self'.(y := self'.y - other.y);
    self' := self'.(z := self'.z - other.z);
  }

  /** `self *= scalar`. */
  method MulAssign(self: Vec3d, scalar: real) returns (self': Vec3d)
    ensures self' == Mul(self, scalar)
  {
    self' := self;
    self' := self'.(x := self'.x * scalar);
    self' := self'.(y := self'.y * scalar);
    self' := self'.(z := self'.z * scalar);
  }

  /** `self /= scalar`. */
  method DivAssign(self: Vec3d, scalar: real) returns (self': Vec3d)
    requires scalar != 0.0
    ensures self' == Div(self, scalar)
  {
    self' := self;
    self' := self'.(x := self'.x / scalar);
    self' := self'.(y := self'.y / scalar);
    self' := self'.(z := self'.z / scalar);
  }
}
