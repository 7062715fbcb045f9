/**
 * The hand-written two-component vector `Vec2d<T>`, over `real`. The source
 * implements every operator for owned and borrowed operands alike with the
 * same component-wise body, so each operator is one function here; a
 * compound assignment overwrites the components of `self` one after the
 * other, so it is a method that takes the old vector and returns the new one.
 */
module Vec2D {
  /** `Vec2d { inner: [x, y] }`. */
  datatype Vec2d = Vec2d(x: real, y: real)

  /** `vec2d(x, y)` and `Vec2d::new(x, y)`: the components are stored in the order given. */
  function New(x: real, y: real): (v: Vec2d)
    ensures v.x == x && v.y == y
  {
    Vec2d(x, y)
  }

  const Zero := Vec2d(0.0, 0.0)

  /** `norm()`: the sum of the squares of the components, the squared length. */
  function Norm(v: Vec2d): (n: real)
    ensures n >= 0.0
  {
    v.x * v.x + v.y * v.y
  }

  /** `dot_product(other)`. */
  function Dot(v: Vec2d, other: Vec2d): real {
    v.x * other.x + v.y * other.y
  }

  /** The dot product is symmetric, and a vector's dot product with itself is its norm. */
  lemma DotProperties(a: Vec2d, b: Vec2d)
    ensures Dot(a, b) == Dot(b, a)
    ensures Dot(a, a) == Norm(a)
  {
  }

  /** `self + other`. */
  function Add(a: Vec2d, b: Vec2d): Vec2d {
    Vec2d(a.x + b.x, a.y + b.y)
  }

  /** `self - other`. */
  function Sub(a: Vec2d, b: Vec2d): Vec2d {
    Vec2d(a.x - b.x, a.y - b.y)
  }

  /** `self * scalar`. */
  function Mul(v: Vec2d, scalar: real): Vec2d {
    Vec2d(v.x * scalar, v.y * scalar)
  }

  /** `self / scalar`; a zero divisor is excluded. */
  function Div(v: Vec2d, scalar: real): Vec2d
    requires scalar != 0.0
  {
    Vec2d(v.x / scalar, v.y / scalar)
  }

  /** Addition commutes, and subtracting what was added gives back the first operand. */
  lemma AddSubInverse(a: Vec2d, b: Vec2d)
    ensures Add(a, b) == Add(b, a)
    ensures Sub(Add(a, b), b) == a
    ensures Add(Sub(a, b), b) == a
  {
  }

  /** Dividing by a non-zero scalar undoes multiplying by it, and the other way round. */
  lemma MulDivInverse(v: Vec2d, s: real)
    requires s != 0.0
    ensures Div(Mul(v, s), s) == v
    ensures Mul(Div(v, s), s) == v
  {
  }

  /** The sums of the source's addition test table. */
  lemma AdditionTable()
    ensures Add(New(93.0, 41.0), New(22.0, 2.0)) == New(115.0, 43.0)
    ensures Add(New(14.0, 16.0), New(11.0, 40.0)) == New(25.0, 56.0)
    ensures Add(New(100.0, 76.0), New(-63.0, 49.0)) == New(37.0, 125.0)
    ensures Add(New(63.0, 49.0), New(-74.0, -62.0)) == New(-11.0, -13.0)
  {
  }

  /** The differences of the source's subtraction test table. */
  lemma SubtractionTable()
    ensures Sub(New(93.0, 41.0), New(22.0, 2.0)) == New(71.0, 39.0)
    ensures Sub(New(14.0, 16.0), New(11.0, 40.0)) == New(3.0, -24.0)
    ensures Sub(New(100.0, 76.0), New(-63.0, 49.0)) == New(163.0, 27.0)
    ensures Sub(New(63.0, 49.0), New(-74.0, -62.0)) == New(137.0, 111.0)
  {
  }

  /** `self += other`. */
  method AddAssign(self: Vec2d, other: Vec2d) returns (self': Vec2d)
    ensures self' == Add(self, other)
  {
    self' := self;
    self' := self'.(x := self'.x + other.x);
    self' := self'.(y := self'.y + other.y);
  }

  /** `self -= other`. */
  method SubAssign(self: Vec2d, other: Vec2d) returns (self': Vec2d)
    ensures self' == Sub(self, other)
  {
    self' := self;
    self' := self'.(x := self'.x - other.x);
    self' := self'.(y := self'.y - other.y);
  }

  /** `self *= scalar`. */
  method MulAssign(self: Vec2d, scalar: real) returns (self': Vec2d)
    ensures self' == Mul(self, scalar)
  {
    self' := self;
    self' := self'.(x := self'.x * scalar);
    self' := self'.(y := self'.y * scalar);
  }

  /** `self /= scalar`. */
  method DivAssign(self: Vec2d, scalar: real) returns (self': Vec2d)
    requires scalar != 0.0
    ensures self' == Div(self, scalar)
  {
    self' := self;
    self' := self'.(x := self'.x / scalar);
    self' := self'.(y := self'.y / scalar);
  }
}
