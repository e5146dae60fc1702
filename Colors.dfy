/**
 * Colours of the LED clock control: the three 8-bit channels of a
 * System.Drawing.Color, the packed integer the COM interface exchanges
 * (the Windows COLORREF layout, red in the low byte), and the clamping
 * used by the RGB setters.
 */
module Colors {

  /** One colour channel, as System.Drawing.Color stores it. */
  type Byte = x: int | 0 <= x < 0x100

  /** A C# `int`: the type of every packed colour and RGB argument. */
  type Int32 = x: int | -0x8000_0000 <= x < 0x8000_0000

  /** An opaque colour; the control never sets an alpha other than 255. */
  datatype Color = Color(r: Byte, g: Byte, b: Byte)

  /** Color.Lime (#00FF00), the default LED colour. */
  const Lime := Color(0, 0xFF, 0)

  /** Color.Black, the default background. */
  const Black := Color(0, 0, 0)

  /** The C# expression `color.R | (color.G << 8) | (color.B << 16)`.
      The three shifted channels occupy disjoint bits 0-7, 8-15 and 16-23,
      so the bitwise or is their sum; no shift reaches the sign bit. */
  function ColorToInt(c: Color): (v: Int32)
    ensures 0 <= v < 0x100_0000
  {
    c.r + c.g * 0x100 + c.b * 0x1_0000
  }

  /** Unpacks `colorValue & 0xFF`, `(colorValue >> 8) & 0xFF` and
      `(colorValue >> 16) & 0xFF`. On a two's-complement `int`, masking with
      0xFF keeps the remainder modulo 256 and `>>` is an arithmetic shift,
      i.e. floor division by a power of two; Dafny's `%` and `/` by a
      positive constant are exactly these, negative values included. */
  function IntToColor(colorValue: Int32): (c: Color)
    ensures ColorToInt(c) == colorValue % 0x100_0000
  {
    LowThreeBytes(colorValue);
    Color(colorValue % 0x100, colorValue / 0x100 % 0x100, colorValue / 0x1_0000 % 0x100)
  }

  /** Unpacking a packed colour gives back its channels. */
  lemma {:induction false} DecodeEncode(c: Color)
    ensures IntToColor(ColorToInt(c)) == c
  {
    var v := ColorToInt(c);
    assert v == c.r + (c.g + c.b * 0x100) * 0x100;
    SplitLowByte(c.r, c.g + c.b * 0x100);
    SplitLowByte(c.g, c.b);
    assert v / 0x1_0000 == v / 0x100 / 0x100;
  }

  /** Packing an unpacked value keeps its low 24 bits: the getter returns
      what the setter was given, masked with `& 0xFFFFFF`. */
  lemma EncodeDecode(v: Int32)
    ensures ColorToInt(IntToColor(v)) == v % 0x100_0000
    ensures 0 <= v < 0x100_0000 ==> ColorToInt(IntToColor(v)) == v
  {
  }

  /** The low 24 bits of a value are its three low bytes, each weighted by
      its position. */
  lemma {:induction false} LowThreeBytes(v: Int32)
    ensures v % 0x100_0000
         == v % 0x100 + (v / 0x100 % 0x100) * 0x100 + (v / 0x1_0000 % 0x100) * 0x1_0000
  {
    var q1 := v / 0x100;
    var q2 := q1 / 0x100;
    SplitLowByte(v % 0x100, q1);
    SplitLowByte(q1 % 0x100, q2);
    assert v / 0x1_0000 == q2;
    // v == r + 2^8 * (g + 2^8 * q2), and the 24-bit remainder drops q2's
    // part above its low byte.
    assert v == v % 0x100 + 0x100 * (q1 % 0x100) + 0x1_0000 * q2;
    assert v % 0x100_0000 == v % 0x100 + 0x100 * (q1 % 0x100) + 0x1_0000 * (q2 % 0x100);
  }

  /** Division by 256 splits a value into its low byte and the rest. */
  lemma SplitLowByte(lo: Byte, hi: int)
    ensures (lo + hi * 0x100) % 0x100 == lo
    ensures (lo + hi * 0x100) / 0x100 == hi
  {
  }

  function Min(a: int, b: int): int { if a <= b then a else b }

  function Max(a: int, b: int): int { if a >= b then a else b }

  /** `Math.Max(0, Math.Min(255, x))`: the channel value in [0, 255]
      nearest to `x`. */
  function Clamp(x: int): (r: Byte)
    ensures 0 <= x <= 0xFF ==> r == x
    ensures x < 0 ==> r == 0
    ensures 0xFF < x ==> r == 0xFF
  {
    Max(0, Min(0xFF, x))
  }

  /** No channel value is closer to `x` than Clamp(x). */
  lemma ClampIsNearest(x: int, y: Byte)
    ensures Distance(Clamp(x), x) <= Distance(y, x)
  {
  }

  function Distance(a: int, b: int): nat { if a <= b then b - a else a - b }

  /** `Color.FromArgb(red, green, blue)` after each channel is clamped. */
  function ClampedColor(red: Int32, green: Int32, blue: Int32): (c: Color)
    ensures 0 <= red <= 0xFF && 0 <= green <= 0xFF && 0 <= blue <= 0xFF
            ==> c == Color(red, green, blue)
  {
    Color(Clamp(red), Clamp(green), Clamp(blue))
  }

  /** An out-of-range triple is pulled to the nearest bounds channel by channel. */
  lemma ClampedColorExample()
    ensures ClampedColor(-10, 300, 128) == Color(0, 0xFF, 128)
  {
  }
}
