/** The Gouraud shader: vertex colours blended by barycentric weights. */
module ShaderGouraud {
  import opened Algebra
  import Shade

  /** `Gouraud`: a stateless shader with a single variant. */
  datatype Gouraud = Proc

  /** `shader()`: the Gouraud shader. */
  function Shader(): (g: Gouraud)
    ensures g == Proc
  {
    Proc
  }

  /** The shader's arguments: three vertex colours and the barycentric weights. */
  datatype Args = Args(color0: Vector3, color1: Vector3, color2: Vector3, bary: Point3)

  /**
   * `apply(args)`: the weighted sum of the three colours. It is the same
   * blend as `shade::gouraud`.
   */
  function Apply(g: Gouraud, args: Args): (c: Vector3)
    ensures c == Shade.Gouraud(args.color0, args.color1, args.color2, args.bary)
  {
    Add(Add(Scale(args.color0, args.bary.x), Scale(args.color1, args.bary.y)), Scale(args.color2, args.bary.z))
  }
}
