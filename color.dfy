/** The 24-bit `Rgb` pixel type: three 8-bit channels, red, green and blue. */
module Color {
  import opened Prim
  import opened Algebra
  import Fmt

  /** `Rgb { data: [r, g, b] }`. */
  datatype Rgb = Rgb(r: byte, g: byte, b: byte)
  {
    /** `channels()`: the channels in storage order, red first. */
    function Channels(): (s: seq<byte>)
      ensures |s| == ChannelCount()
      ensures s[0] == r && s[1] == g && s[2] == b
    {
      [r, g, b]
    }

    /** `self[i]`: channel `i`; an index past the third channel panics. */
    function Index(i: nat): (v: byte)
      requires i < ChannelCount()
      ensures v == Channels()[i]
    {
      if i == 0 then r else if i == 1 then g else b
    }
  }

  /** `channel_count()`: an `Rgb` has three channels of one byte each. */
  function ChannelCount(): nat {
    3
  }

  /** `from_channels(r, g, b)`, and likewise `From<(u8, u8, u8)>`. */
  function FromChannels(r: byte, g: byte, b: byte): (c: Rgb)
    ensures c.Channels() == [r, g, b]
  {
    Rgb(r, g, b)
  }

  /** `From<[u8; 3]>` and `From<&[u8; 3]>`: the array becomes the channels unchanged. */
  function FromArray(arr: seq<byte>): (c: Rgb)
    requires |arr| == 3
    ensures c.Channels() == arr
  {
    Rgb(arr[0], arr[1], arr[2])
  }

  /** `From<(u8, u8, u8)>`. */
  function FromTuple(t: (byte, byte, byte)): (c: Rgb)
    ensures c.Channels() == [t.0, t.1, t.2]
  {
    Rgb(t.0, t.1, t.2)
  }

  /** The channels determine the pixel and the pixel its channels. */
  lemma ChannelsRoundTrip(c: Rgb)
    ensures FromArray(c.Channels()) == c
    ensures FromTuple((c.r, c.g, c.b)) == c
  {
  }

  /** `Default`: black. */
  function Default(): (c: Rgb)
    ensures forall i | 0 <= i < ChannelCount() :: c.Index(i) == 0
  {
    FromChannels(0, 0, 0)
  }

  /**
   * `self[i] = v` through `IndexMut`: channel `i` becomes `v` and the other
   * two keep their values. The pixel is passed in and the updated pixel
   * returned, as `&mut self` is.
   */
  method SetChannel(c: Rgb, i: nat, v: byte) returns (c': Rgb)
    requires i < ChannelCount()
    ensures c'.Index(i) == v
    ensures forall k | 0 <= k < ChannelCount() && k != i :: c'.Index(k) == c.Index(k)
  {
    c' := c;
    if i == 0 {
      c' := c'.(r := v);
    } else if i == 1 {
      c' := c'.(g := v);
    } else {
      c' := c'.(b := v);
    }
  }

  /** `Display`: `0x` and each channel in upper-case hexadecimal, without padding. */
  function Display(c: Rgb): (s: string)
    ensures 5 <= |s| <= 8
    ensures s[..2] == "0x"
    ensures forall k | 2 <= k < |s| :: Fmt.DigitValue(s[k]) < 16
    ensures s[2..] == Fmt.Radix(c.r as nat, 16) + Fmt.Radix(c.g as nat, 16) + Fmt.Radix(c.b as nat, 16)
  {
    HexDigitCount(c.r as nat);
    HexDigitCount(c.g as nat);
    HexDigitCount(c.b as nat);
    "0x" + Fmt.Radix(c.r as nat, 16) + Fmt.Radix(c.g as nat, 16) + Fmt.Radix(c.b as nat, 16)
  }

  /** A channel below 256 takes at most two hexadecimal digits. */
  lemma HexDigitCount(n: nat)
    requires n < 256
    ensures 1 <= |Fmt.Radix(n, 16)| <= 2
  {
    if n >= 16 {
      assert Fmt.Radix(n, 16) == Fmt.Radix(n / 16, 16) + [Fmt.DigitChar(n % 16)];
    }
  }

  /**
   * When every channel is at least 16, each takes exactly two digits, so the
   * text has eight characters and reading its digit pairs back gives the
   * channels: the written form then determines the colour.
   */
  lemma DisplayReadsBackTwoDigitChannels(c: Rgb)
    requires 16 <= c.r && 16 <= c.g && 16 <= c.b
    ensures |Display(c)| == 8
    ensures Fmt.Value(Display(c)[2..4], 16) == c.r as nat
    ensures Fmt.Value(Display(c)[4..6], 16) == c.g as nat
    ensures Fmt.Value(Display(c)[6..8], 16) == c.b as nat
  {
    var rs, gs, bs := Fmt.Radix(c.r as nat, 16), Fmt.Radix(c.g as nat, 16), Fmt.Radix(c.b as nat, 16);
    HexDigitCount(c.r as nat);
    HexDigitCount(c.g as nat);
    HexDigitCount(c.b as nat);
    var s := Display(c);
    assert s == "0x" + rs + gs + bs;
    assert s[2..4] == rs && s[4..6] == gs && s[6..8] == bs;
    Fmt.RadixRoundTrip(c.r as nat, 16);
    Fmt.RadixRoundTrip(c.g as nat, 16);
    Fmt.RadixRoundTrip(c.b as nat, 16);
  }

  /** Two colours whose channels all have two hexadecimal digits display alike only when they are equal. */
  lemma DisplayInjectiveOnTwoDigitChannels(a: Rgb, b: Rgb)
    requires 16 <= a.r && 16 <= a.g && 16 <= a.b
    requires 16 <= b.r && 16 <= b.g && 16 <= b.b
    requires Display(a) == Display(b)
    ensures a == b
  {
    DisplayReadsBackTwoDigitChannels(a);
    DisplayReadsBackTwoDigitChannels(b);
  }

  /**
   * Without padding the written form does not determine the colour: the
   * channels `(1, 16, 0)` and `(17, 0, 0)` both display as `0x1100`.
   */
  lemma DisplayIsAmbiguous()
    ensures Display(Rgb(1, 16, 0)) == Display(Rgb(17, 0, 0)) == "0x1100"
    ensures Rgb(1, 16, 0) != Rgb(17, 0, 0)
  {
    assert Fmt.Radix(16, 16) == Fmt.Radix(1, 16) + [Fmt.DigitChar(0)];
    assert Fmt.Radix(17, 16) == Fmt.Radix(1, 16) + [Fmt.DigitChar(1)];
  }

  /** A colour component in `[0, 1]` as a byte: `trunc(255 c) as u8`. */
  function CastChannel(c: real): (v: byte)
    ensures 0.0 <= c <= 1.0 ==> v as real <= 255.0 * c < v as real + 1.0
    ensures c <= 0.0 ==> v == 0
    ensures 1.0 <= c ==> v == 255
  {
    SaturateU8(Trunc(255.0 * c))
  }

  /**
   * `Rgb::rgb_cast(color)`: each component scaled by 255 and truncated
   * towards zero. The source gives it for vectors and points, by value and by
   * reference, at both float widths; all of these are this one function.
   */
  function RgbCast(color: Vector3): (c: Rgb)
    ensures 0.0 <= color.x <= 1.0 ==> c.r as real <= 255.0 * color.x < c.r as real + 1.0
    ensures 0.0 <= color.y <= 1.0 ==> c.g as real <= 255.0 * color.y < c.g as real + 1.0
    ensures 0.0 <= color.z <= 1.0 ==> c.b as real <= 255.0 * color.z < c.b as real + 1.0
  {
    FromChannels(CastChannel(color.x), CastChannel(color.y), CastChannel(color.z))
  }

  /** The cast truncates rather than rounds: 0.999 of full intensity is 254, not 255. */
  lemma RgbCastTruncates()
    ensures RgbCast(Vector3(0.999, 0.999, 0.999)) == Rgb(254, 254, 254)
    ensures RgbCast(Vector3(1.0, 0.0, 0.5)) == Rgb(255, 0, 127)
  {
  }
}
