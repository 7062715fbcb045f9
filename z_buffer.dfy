/**
 * The z-buffer: a grid of depths, one per pixel, with `+∞` meaning that
 * nothing has been drawn there yet.
 */
module ZBuf {
  import opened Grid

  /** A stored depth: a finite value or the `+∞` sentinel. */
  datatype Depth = Fin(z: real) | Inf

  /** `z < stored`: a finite depth is nearer than every finite larger one and than `+∞`. */
  predicate Closer(z: real, stored: Depth) {
    stored.Inf? || z < stored.z
  }

  /** Every finite depth passes the test against the sentinel. */
  lemma EverythingIsCloserThanInfinity(z: real)
    ensures Closer(z, Inf)
  {
  }

  /** `ZBuffer { width, height, buf }`, rows of `width` depths. */
  class ZBuffer {
    var width: nat
    var height: nat
    var buf: seq<seq<Depth>>

    /** `height` rows of `width` cells each. */
    ghost predicate Valid()
      reads this
    {
      |buf| == height && forall i :: 0 <= i < |buf| ==> |buf[i]| == width
    }

    /** `ZBuffer::new(width, height)`: pushes `height` rows, then `width` zero cells into each. */
    constructor New(width: nat, height: nat)
      ensures this.width == width && this.height == height
      ensures Valid()
      ensures buf == Filled(width, height, Fin(0.0))
    {
      this.width := width;
      this.height := height;
      var rows: seq<seq<Depth>> := [];
      for k := 0 to height
        invariant rows == Repeat(k, [])
      {
        rows := rows + [[]];
      }
      for i := 0 to height
        invariant |rows| == height
        invariant forall r :: 0 <= r < i ==> rows[r] == Repeat(width, Fin(0.0))
        invariant forall r :: i <= r < height ==> rows[r] == []
      {
        for k := 0 to width
          invariant |rows| == height
          invariant rows[i] == Repeat(k, Fin(0.0))
          invariant forall r :: 0 <= r < i ==> rows[r] == Repeat(width, Fin(0.0))
          invariant forall r :: i < r < height ==> rows[r] == []
        {
          rows := rows[i := rows[i] + [Fin(0.0)]];
        }
      }
      buf := rows;
    }

    /**
     * `initialize()`: overwrites every cell with `+∞`. The new contents
     * depend on the dimensions alone, so initializing twice is the same as
     * initializing once.
     */
    method Initialize()
      requires Valid()
      modifies this
      ensures width == old(width) && height == old(height)
      ensures Valid()
      ensures buf == Filled(width, height, Inf)
    {
      for i := 0 to height
        invariant Valid() && width == old(width) && height == old(height)
        invariant forall r :: 0 <= r < i ==> buf[r] == Repeat(width, Inf)
        invariant forall r :: i <= r < height ==> buf[r] == old(buf)[r]
      {
        for j := 0 to width
          invariant Valid() && width == old(width) && height == old(height)
          invariant forall r :: 0 <= r < i ==> buf[r] == Repeat(width, Inf)
          invariant forall r :: i < r < height ==> buf[r] == old(buf)[r]
          invariant forall c :: 0 <= c < j ==> buf[i][c] == Inf
        {
          buf := buf[i := buf[i][j := Inf]];
        }
      }
    }

    /** `width()`: the length of every row. */
    function Width(): (w: nat)
      reads this
      ensures Valid() ==> forall i :: 0 <= i < |buf| ==> |buf[i]| == w
    {
      width
    }

    /** `height()`: the number of rows. */
    function Height(): (h: nat)
      reads this
      ensures Valid() ==> h == |buf|
    {
      height
    }

    /** `lines()`: a fresh iterator over the rows as they are now. */
    method Lines() returns (it: RowIter<Depth>)
      ensures fresh(it)
      ensures it.lines == buf && it.index == 0
    {
      it := new RowIter(buf);
    }

    /** The stored depth of pixel `(i, j)`, as the integration test reads it. */
    function Get(i: nat, j: nat): (d: Depth)
      reads this
      requires i < |buf| && j < |buf[i]|
      ensures d == buf[i][j]
    {
      buf[i][j]
    }

    /** Store depth `z` at pixel `(i, j)`; only that cell changes. */
    method Set(i: nat, j: nat, z: real)
      requires Valid() && i < height && j < width
      modifies this
      ensures width == old(width) && height == old(height) && Valid()
      ensures buf == old(buf)[i := old(buf)[i][j := Fin(z)]]
    {
      buf := buf[i := buf[i][j := Fin(z)]];
    }
  }

  /** `z_buffer(width, height)`: a new buffer, initialized to `+∞`. */
  method MakeZBuffer(width: nat, height: nat) returns (zb: ZBuffer)
    ensures fresh(zb)
    ensures zb.width == width && zb.height == height && zb.Valid()
    ensures zb.buf == Filled(width, height, Inf)
  {
    zb := new ZBuffer.New(width, height);
    zb.Initialize();
  }

  /**
   * The two tests of the file: a new buffer reports the dimensions it was
   * made with, and every row its line iterator yields has `width` cells,
   * all `+∞`. The iterator yields `height - 1` rows, not `height`.
   */
  method InitializedLines(width: nat, height: nat) returns (w: nat, h: nat, lines: seq<seq<Depth>>)
    ensures w == width && h == height
    ensures |lines| == if height == 0 then 0 else height - 1
    ensures forall k :: 0 <= k < |lines| ==> |lines[k]| == width
    ensures forall k, c :: 0 <= k < |lines| && 0 <= c < |lines[k]| ==> lines[k][c] == Inf
  {
    var zb := MakeZBuffer(width, height);
    w := zb.Width();
    h := zb.Height();
    var it := zb.Lines();
    lines := it.Drain();
  }
}
