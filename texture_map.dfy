/**
 * The shader interface (`TextureMap`): a shader applied to its arguments
 * gives a colour. The three shaders are the variants of one type, each
 * with its own arguments.
 */
module TextureMap {
  import opened Algebra
  import Shade
  import ShaderGouraud
  import ShaderMonochrome
  import ShaderCheckerboard

  datatype Shader =
    | Gouraud(g: ShaderGouraud.Gouraud)
    | Monochrome(m: ShaderMonochrome.MonochromeShader)
    | Checkerboard(c: ShaderCheckerboard.CheckerboardShader)

  datatype Args =
    | GouraudArgs(gouraud: ShaderGouraud.Args)
    | MonochromeArgs(bary: Point3)
    | CheckerboardArgs(checkerboard: ShaderCheckerboard.Args)

  /** The arguments are of the kind the shader takes, and a checkerboard's depth is not zero. */
  predicate Accepts(s: Shader, args: Args) {
    match s
    case Gouraud(_) => args.GouraudArgs?
    case Monochrome(_) => args.MonochromeArgs?
    case Checkerboard(_) =>
      args.CheckerboardArgs? &&
      Shade.DepthSum(args.checkerboard.v0, args.checkerboard.v1, args.checkerboard.v2, args.checkerboard.w) != 0.0
  }

  /**
   * `shader.apply(args)`, or calling the shader as a function: dispatches to
   * the variant's own `apply`.
   */
  function Apply(s: Shader, args: Args): (c: Vector3)
    requires Accepts(s, args)
    ensures s.Gouraud? ==> c == Shade.Gouraud(args.gouraud.color0, args.gouraud.color1, args.gouraud.color2, args.gouraud.bary)
    ensures s.Monochrome? ==> c == s.m.color
    ensures s.Checkerboard? ==> c.x == c.y == c.z && (c.x == 0.0 || c.x == 1.0)
    ensures s.Checkerboard? ==> c == ShaderCheckerboard.Apply(s.c, args.checkerboard)
  {
    match s
    case Gouraud(g) => ShaderGouraud.Apply(g, args.gouraud)
    case Monochrome(m) => ShaderMonochrome.Apply(m, args.bary)
    case Checkerboard(cb) => ShaderCheckerboard.Apply(cb, args.checkerboard)
  }
}
