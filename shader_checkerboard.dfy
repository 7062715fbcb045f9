/** The checkerboard shader: a perspective-correct procedural checker pattern. */
module ShaderCheckerboard {
  import opened Algebra
  import Prim
  import Shade

  /** `CheckerboardShader { n_squares }`: squares per texture unit. */
  datatype CheckerboardShader = CheckerboardShader(nSquares: nat)

  /** `shader(n_squares)` and `CheckerboardShader::new(n_squares)`. */
  function Shader(nSquares: nat): (s: CheckerboardShader)
    ensures s.nSquares == nSquares
  {
    CheckerboardShader(nSquares)
  }

  /** The shader's arguments: texture coordinates and positions of the three vertices, and the weights. */
  datatype Args = Args(st0: Vector2, st1: Vector2, st2: Vector2, v0: Point3, v1: Point3, v2: Point3, w: Point3)

  /**
   * `apply(args)`: the perspective-corrected texture coordinates, scaled by
   * the number of squares, shaded with the checker pattern. The source
   * multiplies by the reciprocal depth on the left rather than the right,
   * which makes no difference to the product.
   */
  function Apply(s: CheckerboardShader, args: Args): (c: Vector3)
    requires Shade.DepthSum(args.v0, args.v1, args.v2, args.w) != 0.0
    ensures c.x == c.y == c.z
    ensures c.x == 0.0 || c.x == 1.0
    ensures var z := 1.0 / Shade.DepthSum(args.v0, args.v1, args.v2, args.w);
      c.x == 1.0 <==>
        ((Prim.RemOne(Shade.Interpolate(args.w, args.st0.x, args.st1.x, args.st2.x) * z * (s.nSquares as real)) > 0.5) !=
         (Prim.RemOne(Shade.Interpolate(args.w, args.st0.y, args.st1.y, args.st2.y) * z * (s.nSquares as real)) < 0.5))
  {
    var m := s.nSquares as real;
    Shade.CorrectedChecker(Shade.Interpolate(args.w, args.st0.x, args.st1.x, args.st2.x),
                           Shade.Interpolate(args.w, args.st0.y, args.st1.y, args.st2.y),
                           Shade.DepthSum(args.v0, args.v1, args.v2, args.w), m)
  }

  /**
   * With ten squares the shader agrees with the reference function of the
   * source's test, which is the same computation as `shade::checkerboard`.
   */
  lemma TenSquaresMatchReference(args: Args)
    requires Shade.DepthSum(args.v0, args.v1, args.v2, args.w) != 0.0
    ensures Apply(Shader(10), args) == Shade.Checkerboard(args.st0, args.st1, args.st2, args.v0, args.v1, args.v2, args.w)
  {
    assert Shader(10).nSquares as real == 10.0;
  }
}
