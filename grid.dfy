/**
 * Grids stored as a sequence of rows, shared by the z-buffer and the frame
 * buffer, and the row iterator both of them hand out.
 */
module Grid {
  import opened Wrappers

  /** `n` copies of `x`. */
  function Repeat<T>(n: nat, x: T): (s: seq<T>)
    ensures |s| == n
    ensures forall k :: 0 <= k < n ==> s[k] == x
  {
    seq(n, _ => x)
  }

  /** A grid of `h` rows of `w` cells, every cell `x`. */
  function Filled<T>(w: nat, h: nat, x: T): (g: seq<seq<T>>)
    ensures |g| == h
    ensures forall i :: 0 <= i < h ==> |g[i]| == w
    ensures forall i, j :: 0 <= i < h && 0 <= j < w ==> g[i][j] == x
  {
    Repeat(h, Repeat(w, x))
  }

  /**
   * `ZBufferLineIter` and `ScanlineIter`: an iterator over a borrowed slice
   * of rows. `next` increments `index` before reading it, so the row at
   * index 0 is never produced.
   */
  class RowIter<T> {
    var index: nat
    const lines: seq<seq<T>>

    /** The iterator `lines()` / `scanlines()` build: `index` 0 over the buffer's rows. */
    constructor (lines: seq<seq<T>>)
      ensures this.lines == lines && index == 0
    {
      this.lines := lines;
      index := 0;
    }

    /** `next()`: steps `index`, then yields the row there if there is one. */
    method Next() returns (r: Option<seq<T>>)
      modifies this
      ensures index == old(index) + 1
      ensures index < |lines| ==> r == Some(lines[index])
      ensures index >= |lines| ==> r == None
    {
      index := index + 1;
      if index < |lines| {
        r := Some(lines[index]);
      } else {
        r := None;
      }
    }

    /**
     * A `for` loop over the iterator: the rows it yields, in order. From a
     * fresh iterator these are all rows but the first.
     */
    method Drain() returns (rows: seq<seq<T>>)
      modifies this
      ensures old(index) < |lines| ==> rows == lines[old(index) + 1..] && index == |lines|
      ensures old(index) >= |lines| ==> rows == [] && index == old(index) + 1
    {
      rows := [];
      var r := Next();
      while r.Some?
        invariant old(index) + 1 <= index
        invariant r.Some? ==> index < |lines| && r.value == lines[index]
        invariant r.None? ==> index >= |lines|
        invariant index <= |lines| ==> rows == lines[old(index) + 1..index]
        invariant index > |lines| ==> rows == [] && index == old(index) + 1
        decreases |lines| - index
      {
        rows := rows + [r.value];
        r := Next();
      }
    }
  }
}
