/**
 * The program's render of one Gouraud-shaded triangle: the per-pixel
 * inside test, the perspective-correct colour, the frame-buffer writes, and
 * the dump of the frame into a byte buffer.
 */
module Render {
  import opened Wrappers
  import opened Prim
  import opened Algebra
  import opened Grid
  import opened Color
  import Raster
  import Shade
  import ZBuf
  import FrameBuf

  /**
   * `make_buffer(size, color)`: a vector allocated with room for `size`
   * bytes, then filled with `color` up to its capacity. The allocator may
   * give more room than asked for, so the capacity is a parameter.
   */
  method MakeBuffer(size: nat, color: byte, capacity: nat) returns (buf: seq<byte>)
    requires size <= capacity
    ensures |buf| == capacity && size <= |buf|
    ensures forall k :: 0 <= k < |buf| ==> buf[k] == color
  {
    buf := [];
    for k := 0 to capacity
      invariant |buf| == k
      invariant forall k' :: 0 <= k' < k ==> buf[k'] == color
    {
      buf := buf + [color];
    }
  }

  /** The triangle to draw, in raster space, with a colour at each vertex. */
  datatype Triangle = Triangle(v0: Point3, v1: Point3, v2: Point3, c0: Vector3, c1: Vector3, c2: Vector3)

  /** What the render divides by: the vertex depths and the area must not be zero. */
  predicate Drawable(t: Triangle) {
    t.v0.z != 0.0 && t.v1.z != 0.0 && t.v2.z != 0.0 && Raster.ComputeArea(t.v0, t.v1, t.v2) != 0.0
  }

  /** The centre `(i + 0.5, j + 0.5, 0)` of pixel `(i, j)`; the row index is the x coordinate. */
  function PixelCenter(i: nat, j: nat): (p: Point3)
    ensures p.x - 0.5 == i as real && p.y - 0.5 == j as real && p.z == 0.0
  {
    Vector3(i as real + 0.5, j as real + 0.5, 0.0)
  }

  /** The inside test: all three barycentric weights at the pixel centre are non-negative. */
  predicate Covers(v0: Point3, v1: Point3, v2: Point3, i: nat, j: nat) {
    var w := Raster.Barycentric(v0, v1, v2, PixelCenter(i, j));
    w.x >= 0.0 && w.y >= 0.0 && w.z >= 0.0
  }

  /** The barycentric weights at the pixel centre divided by the area (`w /= area`). */
  function Weights(t: Triangle, i: nat, j: nat): (w: Point3)
    requires Drawable(t)
    ensures var a := Raster.ComputeArea(t.v0, t.v1, t.v2);
      var e := Raster.Barycentric(t.v0, t.v1, t.v2, PixelCenter(i, j));
      w.x * a == e.x && w.y * a == e.y && w.z * a == e.z
  {
    Divide(Raster.Barycentric(t.v0, t.v1, t.v2, PixelCenter(i, j)), Raster.ComputeArea(t.v0, t.v1, t.v2))
  }

  /** `w[0] * one_over_z0 + w[1] * one_over_z1 + w[2] * one_over_z2`: the interpolated inverse depth. */
  function InverseDepth(t: Triangle, i: nat, j: nat): real
    requires Drawable(t)
  {
    Shade.Interpolate(Weights(t, i, j), 1.0 / t.v0.z, 1.0 / t.v1.z, 1.0 / t.v2.z)
  }

  /** The inverse depth is defined and non-zero at every covered pixel of a `width` by `height` image. */
  predicate DepthsDefined(t: Triangle, width: nat, height: nat) {
    Drawable(t) &&
    forall i: nat, j: nat :: i < height && j < width && Covers(t.v0, t.v1, t.v2, i, j) ==> InverseDepth(t, i, j) != 0.0
  }

  /**
   * The colour of a covered pixel: the vertex colours corrected for
   * perspective, blended with the weights, multiplied by the depth
   * `z = 1 / InverseDepth`, and converted to bytes.
   */
  function PixelColor(t: Triangle, i: nat, j: nat): Rgb
    requires Drawable(t) && InverseDepth(t, i, j) != 0.0
  {
    var c0 := Shade.PerspectiveCorrect(t.v0, t.c0);
    var c1 := Shade.PerspectiveCorrect(t.v1, t.c1);
    var c2 := Shade.PerspectiveCorrect(t.v2, t.c2);
    var w := Weights(t, i, j);
    var z := 1.0 / InverseDepth(t, i, j);
    Shade.ColorRgb(Scale(Shade.Gouraud(c0, c1, c2, w), z))
  }

  /** Pixel `(r, c)` comes before `(i, j)` in the loop's row-major order. */
  predicate Visited(r: nat, c: nat, i: nat, j: nat) {
    r < i || (r == i && c < j)
  }

  /**
   * The frame after the render loop has visited every pixel before `(i, j)`
   * on a `width`-wide frame: visited covered pixels hold their colour, all
   * others what they held before.
   */
  function Shaded(frame: seq<seq<Rgb>>, width: nat, t: Triangle, i: nat, j: nat): (f: seq<seq<Rgb>>)
    requires DepthsDefined(t, width, |frame|)
    ensures |f| == |frame| && forall r :: 0 <= r < |f| ==> |f[r]| == |frame[r]|
  {
    seq(|frame|, r requires 0 <= r < |frame| =>
      seq(|frame[r]|, c requires 0 <= c < |frame[r]| =>
        if c < width && Visited(r, c, i, j) && Covers(t.v0, t.v1, t.v2, r, c) then PixelColor(t, r, c) else frame[r][c]))
  }

  /** A pixel of the finished frame: covered pixels hold their colour, the others keep theirs. */
  lemma ShadedPixel(frame: seq<seq<Rgb>>, width: nat, t: Triangle, r: nat, c: nat)
    requires DepthsDefined(t, width, |frame|)
    requires r < |frame| && c < |frame[r]| && c < width
    ensures Covers(t.v0, t.v1, t.v2, r, c) ==> Shaded(frame, width, t, |frame|, 0)[r][c] == PixelColor(t, r, c)
    ensures !Covers(t.v0, t.v1, t.v2, r, c) ==> Shaded(frame, width, t, |frame|, 0)[r][c] == frame[r][c]
  {
  }

  /** Visiting pixel `(i, j)` writes its colour if it is covered and changes nothing else. */
  lemma ShadedStep(frame: seq<seq<Rgb>>, width: nat, t: Triangle, i: nat, j: nat)
    requires DepthsDefined(t, width, |frame|)
    requires i < |frame| && j < width && j < |frame[i]|
    ensures var f := Shaded(frame, width, t, i, j);
      Shaded(frame, width, t, i, j + 1) ==
        if Covers(t.v0, t.v1, t.v2, i, j) then f[i := f[i][j := PixelColor(t, i, j)]] else f
  {
    var f := Shaded(frame, width, t, i, j);
    var g := Shaded(frame, width, t, i, j + 1);
    if Covers(t.v0, t.v1, t.v2, i, j) {
      var h := f[i := f[i][j := PixelColor(t, i, j)]];
      assert |g| == |h|;
      forall r | 0 <= r < |g|
        ensures g[r] == h[r]
      {
        assert |g[r]| == |h[r]|;
      }
    } else {
      assert |g| == |f|;
      forall r | 0 <= r < |g|
        ensures g[r] == f[r]
      {
        assert |g[r]| == |f[r]|;
      }
    }
  }

  /** Finishing a row is starting the next one. */
  lemma ShadedNextRow(frame: seq<seq<Rgb>>, width: nat, t: Triangle, i: nat)
    requires DepthsDefined(t, width, |frame|)
    ensures Shaded(frame, width, t, i, width) == Shaded(frame, width, t, i + 1, 0)
  {
    var f := Shaded(frame, width, t, i, width);
    var g := Shaded(frame, width, t, i + 1, 0);
    forall r | 0 <= r < |f|
      ensures f[r] == g[r]
    {
      assert |f[r]| == |g[r]|;
    }
  }

  /** Before the loop nothing has been visited. */
  lemma ShadedNothing(frame: seq<seq<Rgb>>, width: nat, t: Triangle)
    requires DepthsDefined(t, width, |frame|)
    ensures Shaded(frame, width, t, 0, 0) == frame
  {
    var f := Shaded(frame, width, t, 0, 0);
    forall r | 0 <= r < |f|
      ensures f[r] == frame[r]
    {
      assert |f[r]| == |frame[r]|;
    }
  }

  /**
   * The render loop: every pixel `(i, j)` of the frame is visited once, in
   * row-major order, and a covered one is overwritten with its colour.
   */
  method RenderTriangle(fb: FrameBuf.FrameBuffer, t: Triangle)
    requires fb.Valid() && forall r :: 0 <= r < fb.height ==> |fb.buf[r]| == fb.width
    requires DepthsDefined(t, fb.width, fb.height)
    modifies fb
    ensures fb.width == old(fb.width) && fb.height == old(fb.height) && fb.Valid()
    ensures fb.buf == Shaded(old(fb.buf), fb.width, t, fb.height, 0)
  {
    ShadedNothing(fb.buf, fb.width, t);
    for i := 0 to fb.Height()
      invariant fb.width == old(fb.width) && fb.height == old(fb.height) && fb.Valid()
      invariant fb.buf == Shaded(old(fb.buf), fb.width, t, i, 0)
    {
      for j := 0 to fb.Width()
        invariant fb.width == old(fb.width) && fb.height == old(fb.height) && fb.Valid()
        invariant fb.buf == Shaded(old(fb.buf), fb.width, t, i, j)
      {
        ShadedStep(old(fb.buf), fb.width, t, i, j);
        var pixel := PixelCenter(i, j);
        var w := Raster.Barycentric(t.v0, t.v1, t.v2, pixel);
        if w.x >= 0.0 && w.y >= 0.0 && w.z >= 0.0 {
          var rgb := PixelColor(t, i, j);
          fb.SetPixel(i, j, rgb);
        }
      }
      ShadedNextRow(old(fb.buf), fb.width, t, i);
    }
  }

  /**
   * The program's scene: a z-buffer and a black frame of `width` by
   * `height`, the triangle rendered into the frame, and the frame dumped
   * into a zeroed buffer of `3 * height * width` bytes whose allocation
   * holds `capacity` bytes. The z-buffer is never read; the dump always
   * succeeds, so the `expect` never fires.
   */
  method RenderScene(width: nat, height: nat, t: Triangle, capacity: nat)
    returns (frame: seq<seq<Rgb>>, dump: seq<byte>, result: Option<nat>)
    requires DepthsDefined(t, width, height)
    requires ChannelCount() * height * width <= capacity
    ensures frame == Shaded(Filled(width, height, FrameBuf.Black), width, t, height, 0)
    ensures result == Some(3 * height * width)
    ensures FrameBuf.DumpedAs(Repeat(capacity, 0), dump, FrameBuf.Flatten(frame, width, height))
  {
    var zBuffer := ZBuf.MakeZBuffer(width, height);
    var frameBuffer := FrameBuf.MakeFrameBuffer(width, height);
    RenderTriangle(frameBuffer, t);
    var bytes := MakeBuffer(ChannelCount() * height * width, 0x00, capacity);
    var buf := new byte[|bytes|](k requires 0 <= k < |bytes| => bytes[k]);
    assert buf[..] == Repeat(capacity, 0);
    result := frameBuffer.DumpFrame(buf);
    frame := frameBuffer.buf;
    dump := buf[..];
  }
}
