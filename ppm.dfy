/**
 * The Netpbm encoder: writes an image in the plain (ASCII) formats P1, P2
 * and P3 to an output sink, one `write!` at a time, stopping at the first
 * write that fails.
 */
module Ppm {
  import opened Prim
  import Fmt

  /** The six Netpbm formats. */
  datatype NetPBM = BitMapAscii | GrayMapAscii | PixMapAscii | BitMapBinary | GrayMapBinary | PixMapBinary

  /** `magic_number()`: "P1" to "P6", in the order of the variants. */
  function MagicNumber(t: NetPBM): (s: string)
    ensures |s| == 2 && s[0] == 'P'
    ensures '1' <= s[1] <= '6'
    ensures s[1] as int - '0' as int ==
      (if t == AsciiForm(t) then 0 else 3) + (match PixelType(t) case BitMap => 1 case Gray => 2 case Rgb => 3)
  {
    match t
    case BitMapAscii => "P1"
    case GrayMapAscii => "P2"
    case PixMapAscii => "P3"
    case BitMapBinary => "P4"
    case GrayMapBinary => "P5"
    case PixMapBinary => "P6"
  }

  /** Each format has its own magic number. */
  lemma MagicNumberInjective(a: NetPBM, b: NetPBM)
    ensures MagicNumber(a) == MagicNumber(b) ==> a == b
  {
  }

  /** The colour type of each format; only 8-bit depths are supported. */
  datatype ColorType = BitMap | Gray | Rgb

  /** `file_extension()`: one extension per colour type, shared by the ASCII and binary forms. */
  function FileExtension(t: NetPBM): (s: string)
    ensures s == "pbm" <==> PixelType(t) == BitMap
    ensures s == "pgm" <==> PixelType(t) == Gray
    ensures s == "ppm" <==> PixelType(t) == Rgb
  {
    match t
    case BitMapAscii => "pbm"
    case GrayMapAscii => "pgm"
    case PixMapAscii => "ppm"
    case BitMapBinary => "pbm"
    case GrayMapBinary => "pgm"
    case PixMapBinary => "ppm"
  }

  /** `max_pixel_value()`: 1 for a bitmap, 255 for the 8-bit grey and colour maps. */
  function MaxPixelValue(c: ColorType): (v: nat)
    ensures v == 1 <==> c == BitMap
    ensures v == 255 <==> c != BitMap
  {
    match c
    case BitMap => 1
    case Gray => 255
    case Rgb => 255
  }

  /** The colour type `encode` picks for a format: the ASCII and binary form of a map agree. */
  function PixelType(t: NetPBM): (c: ColorType)
    ensures c == BitMap <==> t == BitMapAscii || t == BitMapBinary
    ensures c == Gray <==> t == GrayMapAscii || t == GrayMapBinary
    ensures c == Rgb <==> t == PixMapAscii || t == PixMapBinary
  {
    match t
    case BitMapAscii => BitMap
    case GrayMapAscii => Gray
    case PixMapAscii => Rgb
    case BitMapBinary => BitMap
    case GrayMapBinary => Gray
    case PixMapBinary => Rgb
  }

  /** `{}` of a whole number. */
  function Decimal(n: nat): string {
    Fmt.Radix(n, 10)
  }

  /** How an encoding ends: normally, with the error of a failed write, or in a panic. */
  datatype Outcome = Done | IoError | Panicked

  /**
   * One step of an encoding: a `write!` of `text` whose error is returned
   * when `checked` and ignored otherwise, or a panic.
   */
  datatype Call = Put(text: string, checked: bool) | Crash

  /** The sink as the encoder sees it: what has been written, and how many write calls were made. */
  datatype WriterState = WriterState(out: string, calls: nat)

  datatype RunResult = RunResult(outcome: Outcome, state: WriterState)

  /**
   * Carrying out `calls` on a sink whose write calls numbered in `failing`
   * fail: a failing checked write ends the run with its error, a failing
   * unchecked one is passed over, a panic ends the run, and every other
   * write appends its text.
   */
  function Run(calls: seq<Call>, st: WriterState, failing: set<nat>): RunResult
    decreases |calls|
  {
    if calls == [] then RunResult(Done, st)
    else match calls[0]
      case Crash => RunResult(Panicked, st)
      case Put(text, checked) =>
        if st.calls in failing then
          if checked then RunResult(IoError, WriterState(st.out, st.calls + 1))
          else Run(calls[1..], WriterState(st.out, st.calls + 1), failing)
        else Run(calls[1..], WriterState(st.out + text, st.calls + 1), failing)
  }

  /** The texts of a run's writes, concatenated. */
  function Texts(calls: seq<Call>): string
    decreases |calls|
  {
    if calls == [] then [] else (if calls[0].Put? then calls[0].text else []) + Texts(calls[1..])
  }

  /** Running a concatenation runs the first part, then the second if the first ended normally. */
  lemma {:induction false} RunConcat(a: seq<Call>, b: seq<Call>, st: WriterState, failing: set<nat>)
    ensures Run(a + b, st, failing) ==
      var ra := Run(a, st, failing); if ra.outcome == Done then Run(b, ra.state, failing) else ra
    decreases |a|
  {
    if a == [] {
      assert a + b == b;
    } else {
      assert (a + b)[0] == a[0];
      assert (a + b)[1..] == a[1..] + b;
      if a[0].Put? {
        var next := if st.calls in failing then WriterState(st.out, st.calls + 1) else WriterState(st.out + a[0].text, st.calls + 1);
        RunConcat(a[1..], b, next, failing);
      }
    }
  }

  /** A write call at the head of a run: made, passed over, or ending the run with its error. */
  lemma RunPut(text: string, checked: bool, rest: seq<Call>, st: WriterState, failing: set<nat>)
    ensures Run([Put(text, checked)] + rest, st, failing) ==
      if st.calls !in failing then Run(rest, WriterState(st.out + text, st.calls + 1), failing)
      else if checked then RunResult(IoError, WriterState(st.out, st.calls + 1))
      else Run(rest, WriterState(st.out, st.calls + 1), failing)
  {
    assert ([Put(text, checked)] + rest)[1..] == rest;
  }

  /** An unchecked write call at the head of a run: made or passed over, and the run goes on either way. */
  lemma RunUnchecked(text: string, rest: seq<Call>, st: WriterState, failing: set<nat>)
    ensures Run([Put(text, false)] + rest, st, failing) ==
      Run(rest, WriterState(if st.calls in failing then st.out else st.out + text, st.calls + 1), failing)
  {
    RunPut(text, false, rest, st, failing);
  }

  /** A panic at the head of a run ends it where it is. */
  lemma RunCrash(rest: seq<Call>, st: WriterState, failing: set<nat>)
    ensures Run([Crash] + rest, st, failing) == RunResult(Panicked, st)
  {
  }

  /** No step of `calls` before position `n` is a panic. */
  predicate NoCrashBefore(calls: seq<Call>, n: nat) {
    forall m :: 0 <= m < n && m < |calls| ==> calls[m].Put?
  }

  /** On a sink that never fails, a run without a panic writes all its texts and ends normally. */
  lemma {:induction false} RunWithoutFailures(calls: seq<Call>, st: WriterState)
    requires NoCrashBefore(calls, |calls|)
    ensures Run(calls, st, {}) == RunResult(Done, WriterState(st.out + Texts(calls), st.calls + |calls|))
    decreases |calls|
  {
    if calls != [] {
      assert calls[0].Put?;
      RunWithoutFailures(calls[1..], WriterState(st.out + calls[0].text, st.calls + 1));
      assert st.out + calls[0].text + Texts(calls[1..]) == st.out + (calls[0].text + Texts(calls[1..]));
    }
  }

  /**
   * When only the `k`-th write call fails and no panic comes up to it, the
   * writes before it are all made; a checked write then ends the encoding
   * with its error and nothing after it is written, while an unchecked one
   * is passed over and the encoding goes on.
   */
  lemma {:induction false} RunFailsAt(calls: seq<Call>, st: WriterState, k: nat)
    requires k < |calls| && NoCrashBefore(calls, k + 1)
    ensures calls[k].checked ==>
      Run(calls, st, {st.calls + k}) == RunResult(IoError, WriterState(st.out + Texts(calls[..k]), st.calls + k + 1))
    ensures !calls[k].checked ==>
      Run(calls, st, {st.calls + k}) == Run(calls[k + 1..], WriterState(st.out + Texts(calls[..k]), st.calls + k + 1), {st.calls + k})
    decreases k
  {
    assert calls[0].Put?;
    if k == 0 {
      assert calls[..0] == [];
      assert st.out + [] == st.out;
    } else {
      var next := WriterState(st.out + calls[0].text, st.calls + 1);
      assert NoCrashBefore(calls[1..], k) by {
        forall m | 0 <= m < k && m < |calls[1..]|
          ensures calls[1..][m].Put?
        {
          assert calls[1..][m] == calls[m + 1];
        }
      }
      RunFailsAt(calls[1..], next, k - 1);
      assert calls[1..][k - 1] == calls[k];
      assert calls[1..][..k - 1] == calls[1..k];
      assert calls[..k][1..] == calls[1..k];
      assert calls[1..][k..] == calls[k + 1..];
      assert Texts(calls[..k]) == calls[0].text + Texts(calls[1..k]);
      assert next.out + Texts(calls[1..k]) == st.out + Texts(calls[..k]);
    }
  }

  /** `write_magic_number()`: the magic number on a line of its own. */
  function MagicCalls(t: NetPBM): seq<Call> {
    [Put(MagicNumber(t) + "\n", true)]
  }

  /** `write_header(width, height, pixel_type)`: "{width} {height}\n{max}\n" in one write. */
  function HeaderCalls(width: u32, height: u32, c: ColorType): seq<Call> {
    [Put(Decimal(width) + " " + Decimal(height) + "\n" + Decimal(MaxPixelValue(c)) + "\n", true)]
  }

  /** A bitmap pixel: "0 " for a zero byte, "1 " for any other. */
  function BitCell(p: byte): string {
    if p == 0 then "0 " else "1 "
  }

  /** The writes for one bitmap line. */
  function BitCells(line: seq<byte>): seq<Call>
    decreases |line|
  {
    if line == [] then [] else [Put(BitCell(line[0]), true)] + BitCells(line[1..])
  }

  function Min(a: nat, b: nat): nat {
    if a < b then a else b
  }

  /** The bitmap body: one line of cells per `width` bytes (`image.chunks(width)`), each ended by a newline. */
  function BitMapLines(image: seq<byte>, width: nat): seq<Call>
    requires width > 0
    decreases |image|
  {
    if image == [] then []
    else BitCells(image[..Min(width, |image|)]) + [Put("\n", true)] + BitMapLines(image[Min(width, |image|)..], width)
  }

  /** A grey pixel `image[width * i + j]`, or a panic when the index is past the image. */
  function GrayCell(image: seq<byte>, width: nat, i: nat, j: nat): Call {
    if width * i + j < |image| then Put(Decimal(image[width * i + j] as nat) + " ", true) else Crash
  }

  /** The writes for the pixels `j` to `width - 1` of grey row `i`. */
  function GrayCells(image: seq<byte>, width: nat, i: nat, j: nat): seq<Call>
    decreases width - j
  {
    if j >= width then [] else [GrayCell(image, width, i, j)] + GrayCells(image, width, i, j + 1)
  }

  /** The grey-map body from row `i` on: `height` rows of `width` pixels, each row ended by a checked newline. */
  function GrayRows(image: seq<byte>, width: nat, height: nat, i: nat): seq<Call>
    decreases height - i
  {
    if i >= height then [] else GrayCells(image, width, i, 0) + [Put("\n", true)] + GrayRows(image, width, height, i + 1)
  }

  /** `"{} {} {} "` of a colour pixel's three channels. */
  function RgbText(r: byte, g: byte, b: byte): string {
    Decimal(r as nat) + " " + Decimal(g as nat) + " " + Decimal(b as nat) + " "
  }

  /** The writes for one colour line, three bytes per pixel, or a panic when the last chunk has fewer than three. */
  function RgbPixels(line: seq<byte>): seq<Call>
    decreases |line|
  {
    if line == [] then []
    else if |line| < 3 then [Crash]
    else [Put(RgbText(line[0], line[1], line[2]), true)] + RgbPixels(line[3..])
  }

  /** Unfolding one pixel of a colour line in front of the rest of the run. */
  lemma RgbPixelsStep(line: seq<byte>, next: seq<Call>)
    requires |line| >= 3
    ensures RgbPixels(line) + next == [Put(RgbText(line[0], line[1], line[2]), true)] + (RgbPixels(line[3..]) + next)
  {
  }

  /**
   * Running a non-empty colour line in front of `next`: a chunk shorter than
   * three bytes panics; otherwise the first pixel's write is made, or ends
   * the run with its error.
   */
  lemma RgbPixelRun(line: seq<byte>, next: seq<Call>, st: WriterState, failing: set<nat>)
    requires |line| > 0
    ensures |line| < 3 ==> Run(RgbPixels(line) + next, st, failing) == RunResult(Panicked, st)
    ensures |line| >= 3 && st.calls in failing ==>
      Run(RgbPixels(line) + next, st, failing) == RunResult(IoError, WriterState(st.out, st.calls + 1))
    ensures |line| >= 3 && st.calls !in failing ==>
      Run(RgbPixels(line) + next, st, failing) ==
        Run(RgbPixels(line[3..]) + next, WriterState(st.out + RgbText(line[0], line[1], line[2]), st.calls + 1), failing)
  {
    if |line| < 3 {
      assert RgbPixels(line) + next == [Crash] + next;
    } else {
      RgbPixelsStep(line, next);
      RunPut(RgbText(line[0], line[1], line[2]), true, RgbPixels(line[3..]) + next, st, failing);
    }
  }

  /** The colour body: one line per `3 * width` bytes, each ended by a newline whose error is ignored. */
  function RgbLines(image: seq<byte>, lineLength: nat): seq<Call>
    requires lineLength > 0
    decreases |image|
  {
    if image == [] then []
    else RgbPixels(image[..Min(lineLength, |image|)]) + [Put("\n", false)] + RgbLines(image[Min(lineLength, |image|)..], lineLength)
  }

  /** The colour body splits into its first line's pixels, that line's newline and the remaining lines. */
  lemma RgbLinesStep(image: seq<byte>, lineLength: nat)
    requires lineLength > 0 && image != []
    ensures RgbLines(image, lineLength) ==
      RgbPixels(image[..Min(lineLength, |image|)]) + ([Put("\n", false)] + RgbLines(image[Min(lineLength, |image|)..], lineLength))
  {
  }

  /**
   * `write_image(image, width, height, pixel_type)`: panics on an empty
   * image, and on a zero `width` for the bitmap and colour bodies, whose
   * `chunks` reject a zero size.
   */
  function ImageCalls(image: seq<byte>, width: u32, height: u32, c: ColorType): seq<Call> {
    if |image| == 0 then [Crash]
    else match c
      case BitMap => if width == 0 then [Crash] else BitMapLines(image, width)
      case Gray => GrayRows(image, width, height, 0)
      case Rgb => if width == 0 then [Crash] else RgbLines(image, 3 * width)
  }

  /** `encode(image, width, height)`: the magic number, the header, then the body. */
  function EncodeCalls(t: NetPBM, image: seq<byte>, width: u32, height: u32): seq<Call> {
    MagicCalls(t) + HeaderCalls(width, height, PixelType(t)) + ImageCalls(image, width, height, PixelType(t))
  }

  /**
   * A successful encoding on a sink that never fails writes the magic
   * number and a newline, then "{width} {height}\n{max}\n", then the body.
   */
  lemma EncodeWithoutFailures(t: NetPBM, image: seq<byte>, width: u32, height: u32, st: WriterState)
    requires Crash !in ImageCalls(image, width, height, PixelType(t))
    ensures var body := ImageCalls(image, width, height, PixelType(t));
      Run(EncodeCalls(t, image, width, height), st, {}) ==
        RunResult(Done, WriterState(st.out + (MagicNumber(t) + "\n") +
                                    (Decimal(width) + " " + Decimal(height) + "\n" + Decimal(MaxPixelValue(PixelType(t))) + "\n") +
                                    Texts(body),
                                    st.calls + 2 + |body|))
  {
    var c := PixelType(t);
    var magic := MagicNumber(t) + "\n";
    var header := Decimal(width) + " " + Decimal(height) + "\n" + Decimal(MaxPixelValue(c)) + "\n";
    HeaderAndBody(magic, header, ImageCalls(image, width, height, c), st);
  }

  /** A run with no panic in it has none before any position. */
  lemma NoCrashIn(calls: seq<Call>)
    requires Crash !in calls
    ensures NoCrashBefore(calls, |calls|)
  {
    forall m | 0 <= m < |calls|
      ensures calls[m].Put?
    {
      assert calls[m] in calls;
    }
  }

  /** Two checked writes and then a body without a panic, on a sink that never fails. */
  lemma HeaderAndBody(magic: string, header: string, body: seq<Call>, st: WriterState)
    requires Crash !in body
    ensures Run([Put(magic, true)] + [Put(header, true)] + body, st, {}) ==
      RunResult(Done, WriterState(st.out + magic + header + Texts(body), st.calls + 2 + |body|))
  {
    var st1 := WriterState(st.out + magic, st.calls + 1);
    var st2 := WriterState(st1.out + header, st1.calls + 1);
    assert [Put(magic, true)] + [Put(header, true)] + body == [Put(magic, true)] + ([Put(header, true)] + body);
    RunPut(magic, true, [Put(header, true)] + body, st, {});
    assert Run([Put(magic, true)] + ([Put(header, true)] + body), st, {}) == Run([Put(header, true)] + body, st1, {});
    RunPut(header, true, body, st1, {});
    assert Run([Put(header, true)] + body, st1, {}) == Run(body, st2, {});
    NoCrashIn(body);
    RunWithoutFailures(body, st2);
    assert st2 == WriterState(st.out + magic + header, st.calls + 2);
  }

  /** The ASCII form of each format. */
  function AsciiForm(t: NetPBM): NetPBM {
    match t
    case BitMapBinary => BitMapAscii
    case GrayMapBinary => GrayMapAscii
    case PixMapBinary => PixMapAscii
    case _ => t
  }

  /**
   * A binary format is encoded exactly as its ASCII form but for the magic
   * number: the binary formats get the same plain-text header and body.
   */
  lemma BinaryIsAsciiWithAnotherMagicNumber(t: NetPBM, image: seq<byte>, width: u32, height: u32)
    ensures EncodeCalls(t, image, width, height)[1..] == EncodeCalls(AsciiForm(t), image, width, height)[1..]
    ensures t != AsciiForm(t) ==> MagicNumber(t) != MagicNumber(AsciiForm(t))
  {
    assert PixelType(t) == PixelType(AsciiForm(t));
  }

  /** The bitmap and colour bodies are cut by `width` alone; `height` plays no part in them. */
  lemma BodiesIgnoreHeight(image: seq<byte>, width: u32, h1: u32, h2: u32)
    ensures ImageCalls(image, width, h1, BitMap) == ImageCalls(image, width, h2, BitMap)
    ensures ImageCalls(image, width, h1, Rgb) == ImageCalls(image, width, h2, Rgb)
  {
  }

  /** A bitmap line is written as "0 " or "1 " per byte: a `0` exactly for a zero byte. */
  lemma {:induction false} BitCellsText(line: seq<byte>)
    ensures Crash !in BitCells(line)
    ensures |Texts(BitCells(line))| == 2 * |line|
    ensures forall k :: 0 <= k < |line| ==>
      Texts(BitCells(line))[2 * k] == (if line[k] == 0 then '0' else '1') && Texts(BitCells(line))[2 * k + 1] == ' '
    decreases |line|
  {
    if line != [] {
      BitCellsText(line[1..]);
      var cs := BitCells(line);
      assert cs == [Put(BitCell(line[0]), true)] + BitCells(line[1..]);
      TextsCons(Put(BitCell(line[0]), true), BitCells(line[1..]));
      BitCellsShift(line, Texts(BitCells(line[1..])));
    }
  }

  lemma TextsCons(c: Call, rest: seq<Call>)
    ensures Texts([c] + rest) == (if c.Put? then c.text else []) + Texts(rest)
  {
    assert ([c] + rest)[1..] == rest;
  }

  /** Putting the first byte's cell in front of the text of the other bytes' cells. */
  lemma BitCellsShift(line: seq<byte>, rest: string)
    requires line != []
    requires |rest| == 2 * (|line| - 1)
    requires forall k :: 0 <= k < |line| - 1 ==>
      rest[2 * k] == (if line[1..][k] == 0 then '0' else '1') && rest[2 * k + 1] == ' '
    ensures |BitCell(line[0]) + rest| == 2 * |line|
    ensures forall k :: 0 <= k < |line| ==>
      (BitCell(line[0]) + rest)[2 * k] == (if line[k] == 0 then '0' else '1') && (BitCell(line[0]) + rest)[2 * k + 1] == ' '
  {
    var whole := BitCell(line[0]) + rest;
    forall k | 1 <= k < |line|
      ensures whole[2 * k] == (if line[k] == 0 then '0' else '1')
      ensures whole[2 * k + 1] == ' '
    {
      assert line[1..][k - 1] == line[k];
      assert whole[2 * k] == rest[2 * (k - 1)];
      assert whole[2 * k + 1] == rest[2 * (k - 1) + 1];
    }
  }

  /** The bitmap body never panics. */
  lemma {:induction false} BitMapNeverPanics(image: seq<byte>, width: nat)
    requires width > 0
    ensures Crash !in BitMapLines(image, width)
    decreases |image|
  {
    if image != [] {
      var n := Min(width, |image|);
      BitCellsText(image[..n]);
      BitMapNeverPanics(image[n..], width);
    }
  }

  /** Grey row `i` from pixel `j` on panics exactly when its last pixel lies past the image. */
  lemma {:induction false} GrayCellsPanic(image: seq<byte>, width: nat, i: nat, j: nat)
    ensures Crash in GrayCells(image, width, i, j) <==> j < width && |image| < width * i + width
    decreases width - j
  {
    if j < width {
      GrayCellsPanic(image, width, i, j + 1);
      assert GrayCells(image, width, i, j) == [GrayCell(image, width, i, j)] + GrayCells(image, width, i, j + 1);
    }
  }

  /** The grey body from row `i` on panics exactly when the image holds fewer than `width * height` bytes. */
  lemma {:induction false} GrayRowsPanic(image: seq<byte>, width: nat, height: nat, i: nat)
    ensures Crash in GrayRows(image, width, height, i) <==> i < height && 0 < width && |image| < width * height
    decreases height - i
  {
    if i < height {
      GrayCellsPanic(image, width, i, 0);
      GrayRowsPanic(image, width, height, i + 1);
      assert GrayRows(image, width, height, i) == GrayCells(image, width, i, 0) + [Put("\n", true)] + GrayRows(image, width, height, i + 1);
      RowBound(width, height, i, |image|);
    }
  }

  /** Some row from `i` on ends past `len` exactly when the whole grid does. */
  lemma RowBound(width: nat, height: nat, i: nat, len: nat)
    requires i < height
    ensures (len < width * i + width || (i + 1 < height && 0 < width && len < width * height)) <==> (0 < width && len < width * height)
  {
    var k: nat := height - (i + 1);
    var p := width * (i + 1);
    var q := width * k;
    assert width * i + width == p;
    assert width * height == p + q by {
      assert height == (i + 1) + k;
    }
    assert 0 <= q;
    assert k == 0 ==> q == 0;
  }

  /** A colour line panics exactly when its length is not a multiple of three. */
  lemma {:induction false} RgbPixelsPanic(line: seq<byte>)
    ensures Crash in RgbPixels(line) <==> |line| % 3 != 0
    decreases |line|
  {
    if |line| >= 3 {
      RgbPixelsPanic(line[3..]);
      RgbPixelsStep(line, []);
      assert RgbPixels(line) + [] == RgbPixels(line);
      assert RgbPixels(line[3..]) + [] == RgbPixels(line[3..]);
    }
  }

  /** The colour body panics exactly when the image's length is not a multiple of three. */
  lemma {:induction false} RgbLinesPanic(image: seq<byte>, lineLength: nat)
    requires lineLength > 0 && lineLength % 3 == 0
    ensures Crash in RgbLines(image, lineLength) <==> |image| % 3 != 0
    decreases |image|
  {
    if image != [] {
      var n := Min(lineLength, |image|);
      var k := lineLength / 3;
      assert lineLength == 3 * k;
      RgbPixelsPanic(image[..n]);
      RgbLinesPanic(image[n..], lineLength);
      var head, rest := RgbPixels(image[..n]), RgbLines(image[n..], lineLength);
      assert RgbLines(image, lineLength) == head + [Put("\n", false)] + rest;
      assert Crash in RgbLines(image, lineLength) <==> Crash in head || Crash in rest;
      if n == lineLength {
        ShiftByThrees(|image[n..]|, k);
      } else {
        assert image[n..] == [];
      }
    }
  }

  /** Adding whole threes does not change the remainder modulo three. */
  lemma ShiftByThrees(a: nat, k: nat)
    ensures (3 * k + a) % 3 == a % 3
  {
  }

  /**
   * When `write_image` panics: on an empty image; for a bitmap on a zero
   * width; for a grey map when the image is shorter than `width * height`;
   * for a colour map on a zero width or a length not a multiple of three.
   */
  lemma WriteImagePanics(image: seq<byte>, width: u32, height: u32)
    ensures Crash in ImageCalls(image, width, height, BitMap) <==> |image| == 0 || width == 0
    ensures Crash in ImageCalls(image, width, height, Gray) <==>
      |image| == 0 || (0 < width && 0 < height && |image| < width * height)
    ensures Crash in ImageCalls(image, width, height, Rgb) <==> |image| == 0 || width == 0 || |image| % 3 != 0
  {
    if |image| > 0 {
      if width > 0 {
        BitMapNeverPanics(image, width);
        RgbLinesPanic(image, 3 * width);
      }
      GrayRowsPanic(image, width, height, 0);
    }
  }

  /** The output sink: what has been written, how many writes were made, and which of them fail. */
  class Writer {
    var out: string
    var calls: nat
    const failing: set<nat>

    /** An empty sink whose write calls numbered in `failing` fail. */
    constructor (failing: set<nat>)
      ensures out == [] && calls == 0 && this.failing == failing
    {
      out := [];
      calls := 0;
      this.failing := failing;
    }

    function State(): WriterState
      reads this
    {
      WriterState(out, calls)
    }

    /** One write call: fails if its number is in `failing`, and otherwise appends `text`. */
    method Write(text: string) returns (ok: bool)
      modifies this
      ensures ok == (old(calls) !in failing)
      ensures calls == old(calls) + 1
      ensures out == if ok then old(out) + text else old(out)
    {
      ok := calls !in failing;
      if ok {
        out := out + text;
      }
      calls := calls + 1;
    }
  }

  /** `NetPBMEncoder { enc_type, writer }`. */
  class NetPBMEncoder {
    const encType: NetPBM
    const writer: Writer

    /** `NetPBMEncoder::new(enc_type, writer)`. */
    constructor (encType: NetPBM, writer: Writer)
      ensures this.encType == encType && this.writer == writer
    {
      this.encType := encType;
      this.writer := writer;
    }

    /** `write_magic_number()`. */
    method WriteMagicNumber() returns (r: Outcome)
      modifies writer
      ensures RunResult(r, writer.State()) == Run(MagicCalls(encType), old(writer.State()), writer.failing)
    {
      var ok := writer.Write(MagicNumber(encType) + "\n");
      r := if ok then Done else IoError;
    }

    /** `write_header(width, height, pixel_type)`. */
    method WriteHeader(width: u32, height: u32, pixelType: ColorType) returns (r: Outcome)
      modifies writer
      ensures RunResult(r, writer.State()) == Run(HeaderCalls(width, height, pixelType), old(writer.State()), writer.failing)
    {
      var maxVal := MaxPixelValue(pixelType);
      var ok := writer.Write(Decimal(width) + " " + Decimal(height) + "\n" + Decimal(maxVal) + "\n");
      r := if ok then Done else IoError;
    }

    /** `write_image(image, width, height, pixel_type)`. */
    method WriteImage(image: seq<byte>, width: u32, height: u32, pixelType: ColorType) returns (r: Outcome)
      modifies writer
      ensures RunResult(r, writer.State()) == Run(ImageCalls(image, width, height, pixelType), old(writer.State()), writer.failing)
    {
      ghost var target := Run(ImageCalls(image, width, height, pixelType), writer.State(), writer.failing);
      if |image| == 0 {
        return Panicked;
      }
      match pixelType
      case BitMap =>
        if width == 0 {
          return Panicked;
        }
        r := WriteBitMap(image, width, target);
      case Gray =>
        r := WriteGray(image, width, height, target);
      case Rgb =>
        if width == 0 {
          return Panicked;
        }
        r := WriteRgb(image, width, target);
    }

    /** The bitmap arm of `write_image`. */
    method WriteBitMap(image: seq<byte>, width: u32, ghost target: RunResult) returns (r: Outcome)
      requires width > 0 && target == Run(BitMapLines(image, width), writer.State(), writer.failing)
      modifies writer
      ensures RunResult(r, writer.State()) == target
    {
      var rest := image;
      while |rest| > 0
        invariant Run(BitMapLines(rest, width), writer.State(), writer.failing) == target
        decreases |rest|
      {
        var n := Min(width, |rest|);
        var line := rest[..n];
        ghost var whole := rest;
        rest := rest[n..];
        assert BitMapLines(whole, width) == BitCells(line[0..]) + ([Put("\n", true)] + BitMapLines(rest, width));
        assert line[0..] == line;
        r := WriteBitLine(line, [Put("\n", true)] + BitMapLines(rest, width), target);
        if r != Done {
          return;
        }
        RunPut("\n", true, BitMapLines(rest, width), writer.State(), writer.failing);
        var ok := writer.Write("\n");
        if !ok {
          return IoError;
        }
      }
      r := Done;
    }

    /** The grey-map arm of `write_image`. */
    method WriteGray(image: seq<byte>, width: u32, height: u32, ghost target: RunResult) returns (r: Outcome)
      requires target == Run(GrayRows(image, width, height, 0), writer.State(), writer.failing)
      modifies writer
      ensures RunResult(r, writer.State()) == target
    {
      for i := 0 to height as nat
        invariant Run(GrayRows(image, width, height, i), writer.State(), writer.failing) == target
      {
        ghost var next := [Put("\n", true)] + GrayRows(image, width, height, i + 1);
        assert GrayRows(image, width, height, i) == GrayCells(image, width, i, 0) + next;
        r := WriteGrayRow(image, width, i, next, target);
        if r != Done {
          return;
        }
        RunPut("\n", true, GrayRows(image, width, height, i + 1), writer.State(), writer.failing);
        var ok := writer.Write("\n");
        if !ok {
          return IoError;
        }
      }
      r := Done;
    }

    /** The colour arm of `write_image`; the result of each line's newline is dropped. */
    method WriteRgb(image: seq<byte>, width: u32, ghost target: RunResult) returns (r: Outcome)
      requires width > 0 && target == Run(RgbLines(image, 3 * width), writer.State(), writer.failing)
      modifies writer
      ensures RunResult(r, writer.State()) == target
    {
      var lineLength: nat := 3 * width;
      var rest := image;
      while |rest| > 0
        invariant Run(RgbLines(rest, lineLength), writer.State(), writer.failing) == target
        decreases |rest|
      {
        r, rest := WriteRgbChunk(rest, lineLength, target);
        if r != Done {
          return;
        }
      }
      r := Done;
    }

    /** One pass of the colour arm's loop: the first line of `image`, then its newline, whose result is dropped. */
    method WriteRgbChunk(image: seq<byte>, lineLength: nat, ghost target: RunResult) returns (r: Outcome, rest: seq<byte>)
      requires lineLength > 0 && image != []
      requires target == Run(RgbLines(image, lineLength), writer.State(), writer.failing)
      modifies writer
      ensures rest == image[Min(lineLength, |image|)..]
      ensures r == Done ==> Run(RgbLines(rest, lineLength), writer.State(), writer.failing) == target
      ensures r != Done ==> RunResult(r, writer.State()) == target
    {
      var n := Min(lineLength, |image|);
      var line := image[..n];
      RgbLinesStep(image, lineLength);
      rest := image[n..];
      ghost var next := [Put("\n", false)] + RgbLines(rest, lineLength);
      r := WriteRgbLine(line, next, target);
      if r != Done {
        return;
      }
      RunUnchecked("\n", RgbLines(rest, lineLength), writer.State(), writer.failing);
      var _ := writer.Write("\n");
    }

    /**
     * The pixels of one colour line, three bytes at a time, stopping at the
     * first failed write or at a last chunk shorter than three bytes.
     */
    method WriteRgbLine(line: seq<byte>, ghost next: seq<Call>, ghost target: RunResult) returns (r: Outcome)
      requires target == Run(RgbPixels(line) + next, writer.State(), writer.failing)
      modifies writer
      ensures r == Done ==> Run(next, writer.State(), writer.failing) == target
      ensures r != Done ==> RunResult(r, writer.State()) == target
    {
      var rest := line;
      while |rest| > 0
        invariant Run(RgbPixels(rest) + next, writer.State(), writer.failing) == target
        decreases |rest|
      {
        RgbPixelRun(rest, next, writer.State(), writer.failing);
        if |rest| < 3 {
          return Panicked;
        }
        var ok := writer.Write(RgbText(rest[0], rest[1], rest[2]));
        if !ok {
          return IoError;
        }
        rest := rest[3..];
      }
      assert RgbPixels(rest) + next == next;
      r := Done;
    }

    /** The cells of one bitmap line, "0 " or "1 " each, stopping at the first failed write. */
    method WriteBitLine(line: seq<byte>, ghost next: seq<Call>, ghost target: RunResult) returns (r: Outcome)
      requires target == Run(BitCells(line) + next, writer.State(), writer.failing)
      modifies writer
      ensures r == Done ==> Run(next, writer.State(), writer.failing) == target
      ensures r != Done ==> RunResult(r, writer.State()) == target
    {
      assert line[0..] == line;
      for k := 0 to |line|
        invariant Run(BitCells(line[k..]) + next, writer.State(), writer.failing) == target
      {
        ghost var after := BitCells(line[k + 1..]) + next;
        assert line[k..][1..] == line[k + 1..];
        assert BitCells(line[k..]) + next == [Put(BitCell(line[k]), true)] + after;
        RunPut(BitCell(line[k]), true, after, writer.State(), writer.failing);
        var ok;
        if line[k] == 0 {
          ok := writer.Write("0 ");
        } else {
          ok := writer.Write("1 ");
        }
        if !ok {
          return IoError;
        }
      }
      assert BitCells(line[|line|..]) + next == next;
      r := Done;
    }

    /** The `width` pixels of grey row `i`, stopping at the first failed write or at a pixel past the image. */
    method WriteGrayRow(image: seq<byte>, width: u32, i: nat, ghost next: seq<Call>, ghost target: RunResult) returns (r: Outcome)
      requires target == Run(GrayCells(image, width, i, 0) + next, writer.State(), writer.failing)
      modifies writer
      ensures r == Done ==> Run(next, writer.State(), writer.failing) == target
      ensures r != Done ==> RunResult(r, writer.State()) == target
    {
      for j := 0 to width as nat
        invariant Run(GrayCells(image, width, i, j) + next, writer.State(), writer.failing) == target
      {
        ghost var after := GrayCells(image, width, i, j + 1) + next;
        assert GrayCells(image, width, i, j) + next == [GrayCell(image, width, i, j)] + after;
        if width as nat * i + j >= |image| {
          RunCrash(after, writer.State(), writer.failing);
          return Panicked;
        }
        RunPut(Decimal(image[width as nat * i + j] as nat) + " ", true, after, writer.State(), writer.failing);
        var ok := writer.Write(Decimal(image[width as nat * i + j] as nat) + " ");
        if !ok {
          return IoError;
        }
      }
      assert GrayCells(image, width, i, width as nat) + next == next;
      r := Done;
    }

    /** `encode(image, width, height)` and `__encode`: magic number, header and body, stopping at the first error. */
    method Encode(image: seq<byte>, width: u32, height: u32) returns (r: Outcome)
      modifies writer
      ensures RunResult(r, writer.State()) == Run(EncodeCalls(encType, image, width, height), old(writer.State()), writer.failing)
    {
      var pixelType := PixelType(encType);
      RunConcat(MagicCalls(encType) + HeaderCalls(width, height, pixelType), ImageCalls(image, width, height, pixelType), writer.State(), writer.failing);
      RunConcat(MagicCalls(encType), HeaderCalls(width, height, pixelType), writer.State(), writer.failing);
      r := WriteMagicNumber();
      if r != Done {
        return;
      }
      r := WriteHeader(width, height, pixelType);
      if r != Done {
        return;
      }
      r := WriteImage(image, width, height, pixelType);
    }
  }
}
