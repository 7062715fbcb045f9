/**
 * The frame buffer: a grid of `Rgb` pixels stored as rows, and its
 * serialisation into a caller's byte slice.
 */
module FrameBuf {
  import opened Wrappers
  import opened Prim
  import opened Grid
  import opened Color

  /** The pixel `initialize` fills the rows with. */
  const Black: Rgb := Rgb(0, 0, 0)

  /** The first `n` rows cut to `width` pixels each, concatenated: the pixels in row-major order. */
  function Flatten(rows: seq<seq<Rgb>>, width: nat, n: nat): (pixels: seq<Rgb>)
    requires n <= |rows|
    requires forall i :: 0 <= i < n ==> |rows[i]| >= width
    ensures |pixels| == width * n
  {
    if n == 0 then [] else Flatten(rows, width, n - 1) + rows[n - 1][..width]
  }

  /** Pixel `(i, j)` sits at position `width * i + j` of the row-major order. */
  lemma {:induction false} FlattenAt(rows: seq<seq<Rgb>>, width: nat, n: nat, i: nat, j: nat)
    requires n <= |rows|
    requires forall r :: 0 <= r < n ==> |rows[r]| >= width
    requires i < n && j < width
    ensures width * i + j < width * n
    ensures Flatten(rows, width, n)[width * i + j] == rows[i][j]
  {
    if i == n - 1 {
      assert width * i + j == width * (n - 1) + j;
    } else {
      FlattenAt(rows, width, n - 1, i, j);
    }
  }

  /**
   * The bytes `after` that dumping `pixels` in order leaves over `before`:
   * the red channels at the pixels' own positions, the last pixel's green and
   * blue just past them, and everything else as it was.
   */
  ghost predicate DumpedAs(before: seq<byte>, after: seq<byte>, pixels: seq<Rgb>) {
    && |after| == |before|
    && (forall k :: 0 <= k < |pixels| && k < |after| ==> after[k] == pixels[k].r)
    && (|pixels| > 0 ==>
          |pixels| + 1 < |after| && after[|pixels|] == pixels[|pixels| - 1].g && after[|pixels| + 1] == pixels[|pixels| - 1].b)
    && (forall k :: (if |pixels| == 0 then 0 else |pixels| + 2) <= k < |after| ==> after[k] == before[k])
  }

  /** Writing one more pixel's three channels at the next position extends a dump by that pixel. */
  lemma DumpStep(before: seq<byte>, after: seq<byte>, pixels: seq<Rgb>, c: Rgb)
    requires DumpedAs(before, after, pixels)
    requires |pixels| + 2 < |after|
    ensures DumpedAs(before, after[|pixels| := c.r][|pixels| + 1 := c.g][|pixels| + 2 := c.b], pixels + [c])
  {
  }

  /**
   * The body of `dump_frame`'s inner loop: the three channels of pixel `c`
   * at `k`, `k + 1` and `k + 2`, which extends a dump of `k` pixels by `c`.
   */
  method DumpPixel(other: array<byte>, k: nat, c: Rgb, ghost before: seq<byte>, ghost pixels: seq<Rgb>)
    requires k == |pixels| && k + 2 < other.Length
    requires DumpedAs(before, other[..], pixels)
    modifies other
    ensures DumpedAs(before, other[..], pixels + [c])
  {
    ghost var written := other[..];
    other[k] := c.Index(0);
    other[k + 1] := c.Index(1);
    other[k + 2] := c.Index(2);
    assert other[..] == written[k := c.r][k + 1 := c.g][k + 2 := c.b];
    DumpStep(before, written, pixels, c);
  }

  /** The inner loop of `dump_frame`: the first `width` pixels of one row, after the pixels already dumped. */
  method DumpRow(other: array<byte>, row: seq<Rgb>, width: nat, start: nat, ghost before: seq<byte>, ghost pixels: seq<Rgb>)
    requires width <= |row| && start == |pixels|
    requires 0 < width ==> start + width + 1 < other.Length
    requires DumpedAs(before, other[..], pixels)
    modifies other
    ensures DumpedAs(before, other[..], pixels + row[..width])
  {
    for j := 0 to width
      invariant DumpedAs(before, other[..], pixels + row[..j])
    {
      DumpPixel(other, start + j, row[j], before, pixels + row[..j]);
      assert pixels + row[..j] + [row[j]] == pixels + row[..j + 1];
    }
  }

  /** Row-major positions of earlier rows come before every position of a later row. */
  lemma RowMajorBefore(width: nat, i': nat, j': nat, i: nat)
    requires i' < i && j' < width
    ensures width * i' + j' < width * i
  {
    assert width * i' + width == width * (i' + 1);
    assert width * (i' + 1) <= width * i;
  }

  /** Every index `dump_frame` writes lies below `3 * height * width`. */
  lemma DumpIndexInBounds(width: nat, height: nat, i: nat, j: nat)
    requires i < height && j < width
    ensures width * i + j + 2 < 3 * height * width
  {
    RowMajorBefore(width, i, j, height);
    assert height * width >= 1;
  }

  /**
   * After a successful dump, byte `width * i + j` is the red channel of
   * pixel `(i, j)`.
   */
  lemma DumpedPixelRed(before: seq<byte>, after: seq<byte>, rows: seq<seq<Rgb>>, width: nat, height: nat, i: nat, j: nat)
    requires height <= |rows| && forall r :: 0 <= r < height ==> |rows[r]| >= width
    requires DumpedAs(before, after, Flatten(rows, width, height))
    requires i < height && j < width
    ensures width * i + j < |after| && after[width * i + j] == rows[i][j].r
  {
    FlattenAt(rows, width, height, i, j);
  }

  /** `FrameBuffer { width, height, buf }`. */
  class FrameBuffer {
    var width: nat
    var height: nat
    var buf: seq<seq<Rgb>>

    /** One row per line of the image; the rows are filled by `initialize`. */
    ghost predicate Valid()
      reads this
    {
      |buf| == height
    }

    /** `FrameBuffer::new(width, height)`: `height` empty rows. */
    constructor New(width: nat, height: nat)
      ensures this.width == width && this.height == height
      ensures Valid()
      ensures buf == Repeat(height, [])
    {
      this.width := width;
      this.height := height;
      var rows: seq<seq<Rgb>> := [];
      for k := 0 to height
        invariant rows == Repeat(k, [])
      {
        rows := rows + [[]];
      }
      buf := rows;
    }

    /**
     * `initialize()`: pushes `width` black pixels onto each row. It appends
     * rather than overwrites, so on a new buffer every row ends up holding
     * exactly `width` black pixels.
     */
    method Initialize()
      requires Valid()
      modifies this
      ensures width == old(width) && height == old(height) && Valid()
      ensures forall i :: 0 <= i < height ==> buf[i] == old(buf)[i] + Repeat(width, Black)
    {
      for i := 0 to height
        invariant width == old(width) && height == old(height) && Valid()
        invariant forall r :: 0 <= r < i ==> buf[r] == old(buf)[r] + Repeat(width, Black)
        invariant forall r :: i <= r < height ==> buf[r] == old(buf)[r]
      {
        for k := 0 to width
          invariant width == old(width) && height == old(height) && Valid()
          invariant forall r :: 0 <= r < i ==> buf[r] == old(buf)[r] + Repeat(width, Black)
          invariant forall r :: i < r < height ==> buf[r] == old(buf)[r]
          invariant buf[i] == old(buf)[i] + Repeat(k, Black)
        {
          buf := buf[i := buf[i] + [FromChannels(0, 0, 0)]];
        }
      }
    }

    /** `width()`: the width the buffer was made with. */
    function Width(): (w: nat)
      reads this
      ensures w == width
    {
      width
    }

    /** `height()`: the number of rows. */
    function Height(): (h: nat)
      reads this
      ensures Valid() ==> h == |buf|
    {
      height
    }

    /** `self[i]` through `Index`: row `i`; a row past the last panics. */
    function Row(i: nat): (row: seq<Rgb>)
      reads this
      requires i < |buf|
      ensures row == buf[i]
    {
      buf[i]
    }

    /** `self[i][j] = c` through `IndexMut`: pixel `(i, j)` becomes `c`, nothing else changes. */
    method SetPixel(i: nat, j: nat, c: Rgb)
      requires Valid() && i < |buf| && j < |buf[i]|
      modifies this
      ensures width == old(width) && height == old(height) && Valid()
      ensures buf == old(buf)[i := old(buf)[i][j := c]]
    {
      buf := buf[i := buf[i][j := c]];
    }

    /**
     * `dump_frame(other_buf)`: when `other_buf` holds at least
     * `3 * height * width` bytes, writes the channels of pixel `(i, j)` at
     * `width * i + j`, `+ 1` and `+ 2` and returns that size; otherwise
     * writes nothing. The index is not multiplied by 3, so each pixel's green
     * and blue are overwritten by the next pixel: byte `k` below
     * `width * height` ends up as the red of the `k`-th pixel in row-major
     * order, and only the last pixel's green and blue survive, just past it.
     */
    method DumpFrame(other: array<byte>) returns (r: Option<nat>)
      requires Valid()
      requires other.Length >= 3 * height * width ==> forall i :: 0 <= i < height ==> |buf[i]| >= width
      modifies other
      ensures r == if other.Length >= 3 * height * width then Some(3 * height * width) else None
      ensures r.None? ==> other[..] == old(other[..])
      ensures r.Some? ==> DumpedAs(old(other[..]), other[..], Flatten(buf, width, height))
    {
      if other.Length >= 3 * height * width {
        ghost var pixels: seq<Rgb> := [];
        for i := 0 to height
          invariant pixels == Flatten(buf, width, i)
          invariant DumpedAs(old(other[..]), other[..], pixels)
        {
          if 0 < width {
            DumpIndexInBounds(width, height, i, width - 1);
          }
          DumpRow(other, buf[i], width, width * i, old(other[..]), pixels);
          pixels := pixels + buf[i][..width];
          assert buf[i][..width] == buf[i][..width];
        }
        r := Some(3 * height * width);
      } else {
        r := None;
      }
    }

    /** `scanlines()`: a fresh iterator over the rows as they are now. */
    method Scanlines() returns (it: RowIter<Rgb>)
      ensures fresh(it)
      ensures it.lines == buf && it.index == 0
    {
      it := new RowIter(buf);
    }
  }

  /** `frame_buffer(width, height)`: a new buffer, initialized to black. */
  method MakeFrameBuffer(width: nat, height: nat) returns (fb: FrameBuffer)
    ensures fresh(fb)
    ensures fb.width == width && fb.height == height && fb.Valid()
    ensures fb.buf == Filled(width, height, Black)
  {
    fb := new FrameBuffer.New(width, height);
    fb.Initialize();
    assert [] + Repeat(width, Black) == Repeat(width, Black);
  }

  /**
   * The first two tests of the file: a new buffer reports its dimensions,
   * and every scanline holds `width` black pixels. The iterator yields
   * `height - 1` rows, not `height`.
   */
  method InitializedScanlines(width: nat, height: nat) returns (w: nat, h: nat, lines: seq<seq<Rgb>>)
    ensures w == width && h == height
    ensures |lines| == if height == 0 then 0 else height - 1
    ensures forall k :: 0 <= k < |lines| ==> |lines[k]| == width
    ensures forall k, c :: 0 <= k < |lines| && 0 <= c < |lines[k]| ==> lines[k][c] == Black
  {
    var fb := MakeFrameBuffer(width, height);
    w := fb.Width();
    h := fb.Height();
    var it := fb.Scanlines();
    lines := it.Drain();
  }

  /**
   * `test_dump_frame` passes a vector that has capacity but no length, so the
   * dump writes nothing and returns `None` for every non-empty frame; the
   * test's loop over the dumped chunks then has nothing to check.
   */
  method DumpIntoEmptySlice(width: nat, height: nat, color: Rgb) returns (r: Option<nat>)
    ensures r.None? <==> width * height > 0
  {
    var fb := MakeFrameBuffer(width, height);
    for i := 0 to height
      invariant fb.width == width && fb.height == height && fb.Valid()
      invariant forall r :: 0 <= r < height ==> |fb.buf[r]| == width
    {
      for j := 0 to width
        invariant fb.width == width && fb.height == height && fb.Valid()
        invariant forall r :: 0 <= r < height ==> |fb.buf[r]| == width
      {
        fb.SetPixel(i, j, color);
      }
    }
    var dump := new byte[0];
    r := fb.DumpFrame(dump);
  }

  /**
   * Dumping two red pixels into a slice large enough for them: the first
   * three bytes read back as `(255, 255, 0)`, not as the red pixel, so the
   * dump does not round-trip through `chunks(3)`.
   */
  method DumpDoesNotRoundTrip() returns (bytes: seq<byte>)
    ensures |bytes| == 6
    ensures bytes[..3] == [255, 255, 0]
    ensures FromArray(bytes[..3]) != FromChannels(255, 0, 0)
  {
    var fb := MakeFrameBuffer(2, 1);
    var red := FromChannels(255, 0, 0);
    fb.SetPixel(0, 0, red);
    fb.SetPixel(0, 1, red);
    var dump := new byte[6](_ => 0);
    var r := fb.DumpFrame(dump);
    assert Flatten(fb.buf, 2, 1) == [red, red] by {
      assert Flatten(fb.buf, 2, 0) == [];
      assert fb.buf[0][..2] == [red, red];
    }
    bytes := dump[..];
  }
}
