/**
 * The depth-tested render of the integration test: one triangle drawn twice
 * into white-on-black frames, once through the z-buffer and once without it.
 */
module DepthTest {
  import opened Algebra
  import opened Grid
  import opened Color
  import Raster
  import Shade
  import ZBuf
  import FrameBuf
  import Render

  /** The sentinel colour the test writes into covered pixels. */
  const White: Rgb := Rgb(255, 255, 255)

  /**
   * The depth test: when `z` is nearer than the stored depth of pixel
   * `(i, j)`, stores `z` there and writes the sentinel colour into the frame;
   * otherwise neither buffer changes.
   */
  method DepthTestWrite(zb: ZBuf.ZBuffer, fb: FrameBuf.FrameBuffer, i: nat, j: nat, z: real)
    requires zb.Valid() && i < zb.height && j < zb.width
    requires fb.Valid() && i < |fb.buf| && j < |fb.buf[i]|
    modifies zb, fb
    ensures zb.width == old(zb.width) && zb.height == old(zb.height) && zb.Valid()
    ensures fb.width == old(fb.width) && fb.height == old(fb.height) && fb.Valid()
    ensures ZBuf.Closer(z, old(zb.buf[i][j])) ==>
      zb.buf == old(zb.buf)[i := old(zb.buf)[i][j := ZBuf.Fin(z)]] && fb.buf == old(fb.buf)[i := old(fb.buf)[i][j := White]]
    ensures !ZBuf.Closer(z, old(zb.buf[i][j])) ==> zb.buf == old(zb.buf) && fb.buf == old(fb.buf)
  {
    if ZBuf.Closer(z, zb.Get(i, j)) {
      zb.Set(i, j, z);
      fb.SetPixel(i, j, FromChannels(0xFF, 0xFF, 0xFF));
    }
  }

  /**
   * The depth of the fragment at pixel `(i, j)`: the weights of the
   * world-space vertices `v0, v1, v2` divided by their area, applied to the
   * raster-space depths `z0, z1, z2`, and inverted.
   */
  function FragmentDepth(v0: Point3, v1: Point3, v2: Point3, z0: real, z1: real, z2: real, i: nat, j: nat): real
    requires Raster.ComputeArea(v0, v1, v2) != 0.0
    requires OneOverZ(v0, v1, v2, z0, z1, z2, i, j) != 0.0
  {
    1.0 / OneOverZ(v0, v1, v2, z0, z1, z2, i, j)
  }

  /** `one_over_z`, the interpolated value the fragment depth inverts. */
  function OneOverZ(v0: Point3, v1: Point3, v2: Point3, z0: real, z1: real, z2: real, i: nat, j: nat): real
    requires Raster.ComputeArea(v0, v1, v2) != 0.0
  {
    Shade.Interpolate(Divide(Raster.Barycentric(v0, v1, v2, Render.PixelCenter(i, j)), Raster.ComputeArea(v0, v1, v2)), z0, z1, z2)
  }

  /** The area is non-zero and every covered pixel of the image has a fragment depth. */
  predicate Defined(v0: Point3, v1: Point3, v2: Point3, z0: real, z1: real, z2: real, width: nat, height: nat) {
    Raster.ComputeArea(v0, v1, v2) != 0.0 &&
    forall i: nat, j: nat :: i < height && j < width && Render.Covers(v0, v1, v2, i, j) ==> OneOverZ(v0, v1, v2, z0, z1, z2, i, j) != 0.0
  }

  /**
   * The frame after the pixels before `(i, j)` have been visited: the
   * visited covered pixels are white, all others as before.
   */
  function Covered(frame: seq<seq<Rgb>>, width: nat, v0: Point3, v1: Point3, v2: Point3, i: nat, j: nat): (f: seq<seq<Rgb>>)
    ensures |f| == |frame| && forall r :: 0 <= r < |f| ==> |f[r]| == |frame[r]|
  {
    seq(|frame|, r requires 0 <= r < |frame| =>
      seq(|frame[r]|, c requires 0 <= c < |frame[r]| =>
        if c < width && Render.Visited(r, c, i, j) && Render.Covers(v0, v1, v2, r, c) then White else frame[r][c]))
  }

  /** Visiting pixel `(i, j)` whitens it if it is covered and changes nothing else. */
  lemma CoveredStep(frame: seq<seq<Rgb>>, width: nat, v0: Point3, v1: Point3, v2: Point3, i: nat, j: nat)
    requires i < |frame| && j < width && j < |frame[i]|
    ensures var f := Covered(frame, width, v0, v1, v2, i, j);
      Covered(frame, width, v0, v1, v2, i, j + 1) ==
        if Render.Covers(v0, v1, v2, i, j) then f[i := f[i][j := White]] else f
  {
    var f := Covered(frame, width, v0, v1, v2, i, j);
    var g := Covered(frame, width, v0, v1, v2, i, j + 1);
    var h := if Render.Covers(v0, v1, v2, i, j) then f[i := f[i][j := White]] else f;
    assert |g| == |h|;
    forall r | 0 <= r < |g|
      ensures g[r] == h[r]
    {
      assert |g[r]| == |h[r]|;
    }
  }

  /** Finishing a row is starting the next one; before the loop nothing has been visited. */
  lemma CoveredRows(frame: seq<seq<Rgb>>, width: nat, v0: Point3, v1: Point3, v2: Point3, i: nat)
    ensures Covered(frame, width, v0, v1, v2, i, width) == Covered(frame, width, v0, v1, v2, i + 1, 0)
    ensures Covered(frame, width, v0, v1, v2, 0, 0) == frame
  {
    var f := Covered(frame, width, v0, v1, v2, i, width);
    var g := Covered(frame, width, v0, v1, v2, i + 1, 0);
    forall r | 0 <= r < |f|
      ensures f[r] == g[r]
    {
      assert |f[r]| == |g[r]|;
    }
    var e := Covered(frame, width, v0, v1, v2, 0, 0);
    forall r | 0 <= r < |e|
      ensures e[r] == frame[r]
    {
      assert |e[r]| == |frame[r]|;
    }
  }

  /**
   * The z-buffer of a `width` by `height` image after the pixels before
   * `(i, j)` have been visited from `+∞`: the visited covered pixels hold
   * their fragment depth, all others `+∞`.
   */
  function DepthsAfter(width: nat, height: nat, v0: Point3, v1: Point3, v2: Point3, z0: real, z1: real, z2: real, i: nat, j: nat)
    : (d: seq<seq<ZBuf.Depth>>)
    requires Defined(v0, v1, v2, z0, z1, z2, width, height)
    ensures |d| == height && forall r :: 0 <= r < height ==> |d[r]| == width
  {
    seq(height, r requires 0 <= r < height =>
      seq(width, c requires 0 <= c < width =>
        if Render.Visited(r, c, i, j) && Render.Covers(v0, v1, v2, r, c)
        then ZBuf.Fin(FragmentDepth(v0, v1, v2, z0, z1, z2, r, c)) else ZBuf.Inf))
  }

  /** Before the loop the z-buffer is all `+∞`, and a row finished is the next one started. */
  lemma DepthsRows(width: nat, height: nat, v0: Point3, v1: Point3, v2: Point3, z0: real, z1: real, z2: real, i: nat)
    requires Defined(v0, v1, v2, z0, z1, z2, width, height)
    ensures DepthsAfter(width, height, v0, v1, v2, z0, z1, z2, 0, 0) == Filled(width, height, ZBuf.Inf)
    ensures DepthsAfter(width, height, v0, v1, v2, z0, z1, z2, i, width) == DepthsAfter(width, height, v0, v1, v2, z0, z1, z2, i + 1, 0)
  {
    var e := DepthsAfter(width, height, v0, v1, v2, z0, z1, z2, 0, 0);
    var filled := Filled(width, height, ZBuf.Inf);
    forall r | 0 <= r < height
      ensures e[r] == filled[r]
    {
      assert |e[r]| == |filled[r]|;
    }
    var f := DepthsAfter(width, height, v0, v1, v2, z0, z1, z2, i, width);
    var g := DepthsAfter(width, height, v0, v1, v2, z0, z1, z2, i + 1, 0);
    forall r | 0 <= r < height
      ensures f[r] == g[r]
    {
      assert |f[r]| == |g[r]|;
    }
  }

  /**
   * Pixel `(i, j)` is still `+∞` when the loop reaches it, and visiting it
   * stores its fragment depth if it is covered.
   */
  lemma DepthsStep(width: nat, height: nat, v0: Point3, v1: Point3, v2: Point3, z0: real, z1: real, z2: real, i: nat, j: nat)
    requires Defined(v0, v1, v2, z0, z1, z2, width, height)
    requires i < height && j < width
    ensures var d := DepthsAfter(width, height, v0, v1, v2, z0, z1, z2, i, j);
      && d[i][j] == ZBuf.Inf
      && DepthsAfter(width, height, v0, v1, v2, z0, z1, z2, i, j + 1) ==
           if Render.Covers(v0, v1, v2, i, j) then d[i := d[i][j := ZBuf.Fin(FragmentDepth(v0, v1, v2, z0, z1, z2, i, j))]] else d
  {
    var d := DepthsAfter(width, height, v0, v1, v2, z0, z1, z2, i, j);
    var g := DepthsAfter(width, height, v0, v1, v2, z0, z1, z2, i, j + 1);
    var h := if Render.Covers(v0, v1, v2, i, j) then d[i := d[i][j := ZBuf.Fin(FragmentDepth(v0, v1, v2, z0, z1, z2, i, j))]] else d;
    forall r | 0 <= r < height
      ensures g[r] == h[r]
    {
      assert |g[r]| == |h[r]|;
    }
  }

  /**
   * The z-buffered loop, started from a freshly initialized z-buffer of the
   * frame's size: every covered pixel passes the depth test, because each
   * pixel is visited once and its stored depth is still `+∞` then. The
   * frame ends up as if no depth test had been made, and the z-buffer holds
   * the fragment depth of every covered pixel.
   */
  method RenderDepthTested(zb: ZBuf.ZBuffer, fb: FrameBuf.FrameBuffer, v0: Point3, v1: Point3, v2: Point3, z0: real, z1: real, z2: real)
    requires zb.Valid() && zb.buf == Filled(zb.width, zb.height, ZBuf.Inf)
    requires fb.Valid() && fb.width == zb.width && fb.height == zb.height
    requires forall r :: 0 <= r < fb.height ==> |fb.buf[r]| == fb.width
    requires Defined(v0, v1, v2, z0, z1, z2, zb.width, zb.height)
    modifies zb, fb
    ensures fb.width == old(fb.width) && fb.height == old(fb.height) && fb.Valid()
    ensures zb.width == old(zb.width) && zb.height == old(zb.height) && zb.Valid()
    ensures fb.buf == Covered(old(fb.buf), fb.width, v0, v1, v2, fb.height, 0)
    ensures zb.buf == DepthsAfter(zb.width, zb.height, v0, v1, v2, z0, z1, z2, zb.height, 0)
  {
    CoveredRows(fb.buf, fb.width, v0, v1, v2, 0);
    DepthsRows(zb.width, zb.height, v0, v1, v2, z0, z1, z2, 0);
    var area := Raster.ComputeArea(v0, v1, v2);
    for i := 0 to zb.height
      invariant fb.width == old(fb.width) && fb.height == old(fb.height) && fb.Valid()
      invariant zb.width == old(zb.width) && zb.height == old(zb.height) && zb.Valid()
      invariant fb.buf == Covered(old(fb.buf), fb.width, v0, v1, v2, i, 0)
      invariant zb.buf == DepthsAfter(zb.width, zb.height, v0, v1, v2, z0, z1, z2, i, 0)
    {
      for j := 0 to zb.width
        invariant fb.width == old(fb.width) && fb.height == old(fb.height) && fb.Valid()
        invariant zb.width == old(zb.width) && zb.height == old(zb.height) && zb.Valid()
        invariant fb.buf == Covered(old(fb.buf), fb.width, v0, v1, v2, i, j)
        invariant zb.buf == DepthsAfter(zb.width, zb.height, v0, v1, v2, z0, z1, z2, i, j)
      {
        VisitPixel(zb, fb, v0, v1, v2, z0, z1, z2, area, old(fb.buf), i, j);
      }
      CoveredRows(old(fb.buf), fb.width, v0, v1, v2, i);
      DepthsRows(zb.width, zb.height, v0, v1, v2, z0, z1, z2, i);
    }
  }

  /**
   * One step of the z-buffered loop at pixel `(i, j)`: a covered pixel's
   * fragment depth is tested against the stored one and, as that is still
   * `+∞`, stored, and the pixel whitened.
   */
  method VisitPixel(zb: ZBuf.ZBuffer, fb: FrameBuf.FrameBuffer, v0: Point3, v1: Point3, v2: Point3, z0: real, z1: real, z2: real,
                    area: real, ghost frame: seq<seq<Rgb>>, i: nat, j: nat)
    requires zb.Valid() && fb.Valid() && fb.width == zb.width && fb.height == zb.height
    requires i < zb.height && j < zb.width
    requires |frame| == fb.height && forall r :: 0 <= r < |frame| ==> |frame[r]| == fb.width
    requires Defined(v0, v1, v2, z0, z1, z2, zb.width, zb.height) && area == Raster.ComputeArea(v0, v1, v2)
    requires fb.buf == Covered(frame, fb.width, v0, v1, v2, i, j)
    requires zb.buf == DepthsAfter(zb.width, zb.height, v0, v1, v2, z0, z1, z2, i, j)
    modifies zb, fb
    ensures fb.width == old(fb.width) && fb.height == old(fb.height) && fb.Valid()
    ensures zb.width == old(zb.width) && zb.height == old(zb.height) && zb.Valid()
    ensures fb.buf == Covered(frame, fb.width, v0, v1, v2, i, j + 1)
    ensures zb.buf == DepthsAfter(zb.width, zb.height, v0, v1, v2, z0, z1, z2, i, j + 1)
  {
    CoveredStep(frame, fb.width, v0, v1, v2, i, j);
    DepthsStep(zb.width, zb.height, v0, v1, v2, z0, z1, z2, i, j);
    var pixel := Render.PixelCenter(i, j);
    var w := Raster.Barycentric(v0, v1, v2, pixel);
    if w.x >= 0.0 && w.y >= 0.0 && w.z >= 0.0 {
      w := Divide(w, area);
      var oneOverZ := Shade.Interpolate(w, z0, z1, z2);
      assert oneOverZ == OneOverZ(v0, v1, v2, z0, z1, z2, i, j);
      var z := 1.0 / oneOverZ;
      DepthTestWrite(zb, fb, i, j, z);
    }
  }

  /** The loop without the z-buffer: every covered pixel is whitened. */
  method RenderUntested(fb: FrameBuf.FrameBuffer, v0: Point3, v1: Point3, v2: Point3)
    requires fb.Valid() && forall r :: 0 <= r < fb.height ==> |fb.buf[r]| == fb.width
    requires Raster.ComputeArea(v0, v1, v2) != 0.0
    modifies fb
    ensures fb.width == old(fb.width) && fb.height == old(fb.height) && fb.Valid()
    ensures fb.buf == Covered(old(fb.buf), fb.width, v0, v1, v2, fb.height, 0)
  {
    CoveredRows(fb.buf, fb.width, v0, v1, v2, 0);
    var area := Raster.ComputeArea(v0, v1, v2);
    for i := 0 to fb.height
      invariant fb.width == old(fb.width) && fb.height == old(fb.height) && fb.Valid()
      invariant fb.buf == Covered(old(fb.buf), fb.width, v0, v1, v2, i, 0)
    {
      for j := 0 to fb.width
        invariant fb.width == old(fb.width) && fb.height == old(fb.height) && fb.Valid()
        invariant fb.buf == Covered(old(fb.buf), fb.width, v0, v1, v2, i, j)
      {
        VisitPixelUntested(fb, v0, v1, v2, area, old(fb.buf), i, j);
      }
      CoveredRows(old(fb.buf), fb.width, v0, v1, v2, i);
    }
  }

  /** One step of the loop without the z-buffer: a covered pixel is whitened. */
  method VisitPixelUntested(fb: FrameBuf.FrameBuffer, v0: Point3, v1: Point3, v2: Point3,
                            area: real, ghost frame: seq<seq<Rgb>>, i: nat, j: nat)
    requires fb.Valid() && i < fb.height && j < fb.width
    requires |frame| == fb.height && forall r :: 0 <= r < |frame| ==> |frame[r]| == fb.width
    requires area != 0.0 && area == Raster.ComputeArea(v0, v1, v2)
    requires fb.buf == Covered(frame, fb.width, v0, v1, v2, i, j)
    modifies fb
    ensures fb.width == old(fb.width) && fb.height == old(fb.height) && fb.Valid()
    ensures fb.buf == Covered(frame, fb.width, v0, v1, v2, i, j + 1)
  {
    CoveredStep(frame, fb.width, v0, v1, v2, i, j);
    var pixel := Render.PixelCenter(i, j);
    var w := Raster.Barycentric(v0, v1, v2, pixel);
    if w.x >= 0.0 && w.y >= 0.0 && w.z >= 0.0 {
      w := Divide(w, area);
      fb.SetPixel(i, j, FromChannels(0xFF, 0xFF, 0xFF));
    }
  }

  /**
   * `test_z_buffer_should_not_affect_rendering_with_one_primitive`: with
   * one triangle the z-buffered frame equals the unbuffered one, and when
   * the triangle covers some pixel the frame is not all black.
   */
  method ZBufferDoesNotAffectOnePrimitive(width: nat, height: nat, v0: Point3, v1: Point3, v2: Point3, z0: real, z1: real, z2: real)
    returns (withZ: seq<seq<Rgb>>, withoutZ: seq<seq<Rgb>>)
    requires Defined(v0, v1, v2, z0, z1, z2, width, height)
    ensures withZ == withoutZ
    ensures withZ == Covered(Filled(width, height, FrameBuf.Black), width, v0, v1, v2, height, 0)
    ensures (exists i: nat, j: nat :: i < height && j < width && Render.Covers(v0, v1, v2, i, j)) ==>
      withZ != Filled(width, height, FrameBuf.Black)
  {
    var zBuffer := ZBuf.MakeZBuffer(width, height);
    var frameZ := FrameBuf.MakeFrameBuffer(width, height);
    var frameNoZ := FrameBuf.MakeFrameBuffer(width, height);
    RenderDepthTested(zBuffer, frameZ, v0, v1, v2, z0, z1, z2);
    RenderUntested(frameNoZ, v0, v1, v2);
    withZ := frameZ.buf;
    withoutZ := frameNoZ.buf;
    if exists i: nat, j: nat :: i < height && j < width && Render.Covers(v0, v1, v2, i, j) {
      var i: nat, j: nat :| i < height && j < width && Render.Covers(v0, v1, v2, i, j);
      assert withZ[i][j] == White;
    }
  }
}
