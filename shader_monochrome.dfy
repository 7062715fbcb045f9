/** The monochrome shader: one colour everywhere. */
module ShaderMonochrome {
  import opened Algebra

  /** `MonochromeShader { color }`. */
  datatype MonochromeShader = MonochromeShader(color: Vector3)

  /** `shader(color)` and `MonochromeShader::new(color)`: a shader that keeps `color`. */
  function Shader(color: Vector3): (s: MonochromeShader)
    ensures s.color == color
  {
    MonochromeShader(color)
  }

  /** `apply((bary,))`: the shader's colour, whatever the weights. */
  function Apply(s: MonochromeShader, bary: Point3): (c: Vector3)
    ensures c == s.color
  {
    s.color
  }

  /** The weights do not matter. */
  lemma IgnoresWeights(s: MonochromeShader, a: Point3, b: Point3)
    ensures Apply(s, a) == Apply(s, b)
  {
  }

  /** The source's example: the shader returns its colour at the weights `(0.2, 0.5, 0.3)`. */
  lemma ReturnsItsColour(color: Vector3)
    ensures Apply(Shader(color), Vector3(0.2, 0.5, 0.3)) == color
  {
  }
}
