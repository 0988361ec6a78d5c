/** The static colour helpers of the frame processor: hex text to RGB and
    back, channel-order reversal, and the lighten/darken channel arithmetic.
    Python floats are modelled by exact `real`s and `int(x)` by truncation
    toward zero. */
module ColorMath {
  import opened Wrappers
  import PyText
  import Hex

  /** A colour triple; the same shape holds RGB or BGR order. */
  datatype Rgb = Rgb(r: int, g: int, b: int)

  predicate IsByte(n: int) { 0 <= n <= 255 }

  predicate IsByteColor(c: Rgb) { IsByte(c.r) && IsByte(c.g) && IsByte(c.b) }

  /** Python's `int(x)` on a float: truncation toward zero. */
  function Trunc(x: real): (n: int)
    ensures x >= 0.0 ==> n as real <= x < n as real + 1.0
    ensures x < 0.0 ==> n as real - 1.0 < x <= n as real
  {
    if x >= 0.0 then x.Floor else -((-x).Floor)
  }

  /** `hex_to_rgb`: strip every leading '#', then read the clipped slices
      [0:2], [2:4] and [4:6] with `int(_, 16)`. */
  function HexToRgb(hex: string): (r: Result<Rgb>)
    ensures r.Err? ==> r.error == ValueError
  {
    var t := PyText.LStrip(hex, '#');
    match (Hex.ParseHex(PyText.Slice(t, 0, 2)), Hex.ParseHex(PyText.Slice(t, 2, 4)), Hex.ParseHex(PyText.Slice(t, 4, 6)))
    case (Ok(r), Ok(g), Ok(b)) => Ok(Rgb(r, g, b))
    case _ => Err(ValueError)
  }

  /** A `#rrggbb` string (digits of either case) reads as three bytes. */
  lemma HexToRgbOfSixDigits(hex: string)
    requires |hex| == 7 && hex[0] == '#' && Hex.AllHex(hex[1..])
    ensures HexToRgb(hex).Ok? && IsByteColor(HexToRgb(hex).value)
    ensures HexToRgb(hex).value ==
      Rgb(Hex.HexValue(hex[1]) * 16 + Hex.HexValue(hex[2]),
          Hex.HexValue(hex[3]) * 16 + Hex.HexValue(hex[4]),
          Hex.HexValue(hex[5]) * 16 + Hex.HexValue(hex[6]))
  {
    var t := PyText.LStrip(hex, '#');
    assert PyText.LStrip(hex[1..], '#') == hex[1..];
    assert t == hex[1..];
    assert PyText.Slice(t, 0, 2) == hex[1..3];
    assert PyText.Slice(t, 2, 4) == hex[3..5];
    assert PyText.Slice(t, 4, 6) == hex[5..7];
    Hex.TwoDigitsValue(hex[1..3]);
    Hex.TwoDigitsValue(hex[3..5]);
    Hex.TwoDigitsValue(hex[5..7]);
  }

  /** What `rgb_to_hex` accepts: a string, or a triple of integers. */
  datatype ColorValue = HexText(text: string) | Triple(rgb: Rgb)

  /** The `#rrggbb` text `f'#{r:02x}{g:02x}{b:02x}'` writes for a triple. */
  function FormatHex(c: Rgb): (s: string)
    ensures |s| >= 7 && s[0] == '#'
  {
    "#" + Hex.Format02x(c.r) + Hex.Format02x(c.g) + Hex.Format02x(c.b)
  }

  /** `rgb_to_hex`: a string that already starts with '#' is returned as it
      is; a triple is formatted. Any other string fails when its first
      character meets the `x` format code (or when it has none). */
  function RgbToHex(v: ColorValue): (r: Result<string>)
    ensures v.HexText? && |v.text| >= 1 && v.text[0] == '#' ==> r == Ok(v.text)
    ensures v.Triple? ==> r.Ok? && |r.value| >= 7 && r.value[0] == '#'
    ensures v.HexText? && (|v.text| == 0 || v.text[0] != '#') ==> r.Err?
  {
    match v
    case HexText(s) =>
      if |s| >= 1 && s[0] == '#' then Ok(s)
      else if s == [] then Err(IndexError) else Err(ValueError)
    case Triple(c) => Ok(FormatHex(c))
  }

  /** The text written for a colour of bytes, character by character. */
  lemma FormatHexOfBytes(c: Rgb)
    requires IsByteColor(c)
    ensures FormatHex(c) == ['#', Hex.HexChar(c.r / 16), Hex.HexChar(c.r % 16),
                                  Hex.HexChar(c.g / 16), Hex.HexChar(c.g % 16),
                                  Hex.HexChar(c.b / 16), Hex.HexChar(c.b % 16)]
  {
    Hex.Format02xByte(c.r);
    Hex.Format02xByte(c.g);
    Hex.Format02xByte(c.b);
  }

  /** The digit pairs of that text denote the three channels again. */
  lemma FormatHexDigits(c: Rgb)
    requires IsByteColor(c)
    ensures var s := FormatHex(c);
      |s| == 7 && s[0] == '#' && Hex.AllHex(s[1..]) &&
      Rgb(Hex.HexValue(s[1]) * 16 + Hex.HexValue(s[2]),
          Hex.HexValue(s[3]) * 16 + Hex.HexValue(s[4]),
          Hex.HexValue(s[5]) * 16 + Hex.HexValue(s[6])) == c
  {
    var s := FormatHex(c);
    FormatHexOfBytes(c);
    assert Hex.AllHex(s[1..]) by {
      forall i | 1 <= i < 7 ensures Hex.IsHexDigit(s[i]) {
      }
    }
    ByteFromDigits(c.r);
    ByteFromDigits(c.g);
    ByteFromDigits(c.b);
  }

  /** `hex_to_rgb(rgb_to_hex(c)) == c` for every triple of bytes. */
  lemma {:induction false} HexRoundTrip(c: Rgb)
    requires IsByteColor(c)
    ensures HexToRgb(RgbToHex(Triple(c)).value) == Ok(c)
  {
    var s := FormatHex(c);
    assert RgbToHex(Triple(c)) == Ok(s);
    FormatHexDigits(c);
    HexToRgbOfSixDigits(s);
  }

  lemma ByteFromDigits(n: int)
    requires IsByte(n)
    ensures Hex.HexValue(Hex.HexChar(n / 16)) * 16 + Hex.HexValue(Hex.HexChar(n % 16)) == n
  {
  }

  /** `rgb_to_bgr` reverses the triple; reversing the result gives back the
      input, so the conversion is its own inverse. */
  function RgbToBgr(c: Rgb): (bgr: Rgb)
    ensures Rgb(bgr.b, bgr.g, bgr.r) == c
  {
    Rgb(c.b, c.g, c.r)
  }

  function LighterChannel(c: int, factor: real): int {
    var v := Trunc(c as real + (255 - c) as real * factor);
    if v < 255 then v else 255
  }

  function DarkerChannel(c: int, factor: real): int {
    var v := Trunc(c as real * (1.0 - factor));
    if v > 0 then v else 0
  }

  /** `make_lighter_rgb`: each channel moves `factor` of the way toward 255,
      truncated, and capped at 255. */
  function MakeLighterRgb(c: Rgb, factor: real): (r: Rgb)
    ensures r.r <= 255 && r.g <= 255 && r.b <= 255
  {
    Rgb(LighterChannel(c.r, factor), LighterChannel(c.g, factor), LighterChannel(c.b, factor))
  }

  /** `make_darker_rgb`: each channel is scaled by `1 - factor`, truncated,
      and floored at 0. */
  function MakeDarkerRgb(c: Rgb, factor: real): (r: Rgb)
    ensures r.r >= 0 && r.g >= 0 && r.b >= 0
  {
    Rgb(DarkerChannel(c.r, factor), DarkerChannel(c.g, factor), DarkerChannel(c.b, factor))
  }

  lemma MulBounds(a: real, f: real)
    requires a >= 0.0 && 0.0 <= f <= 1.0
    ensures 0.0 <= a * f <= a
  {
    assert a * f <= a * 1.0;
  }

  lemma LighterChannelBounds(c: int, factor: real)
    requires IsByte(c) && 0.0 <= factor <= 1.0
    ensures c <= LighterChannel(c, factor) <= 255
    ensures factor == 0.0 ==> LighterChannel(c, factor) == c
  {
    MulBounds((255 - c) as real, factor);
  }

  lemma DarkerChannelBounds(c: int, factor: real)
    requires IsByte(c) && 0.0 <= factor <= 1.0
    ensures 0 <= DarkerChannel(c, factor) <= c
    ensures factor == 0.0 ==> DarkerChannel(c, factor) == c
  {
    var x := c as real * (1.0 - factor);
    MulBounds(c as real, 1.0 - factor);
    assert 0.0 <= x <= c as real;
    assert Trunc(x) as real <= x;
  }

  /** For a factor in [0, 1], lightening keeps every byte channel within
      [c, 255], darkening within [0, c], and factor 0 changes nothing. */
  lemma {:induction false} LightenDarkenBounds(c: Rgb, factor: real)
    requires IsByteColor(c) && 0.0 <= factor <= 1.0
    ensures var l := MakeLighterRgb(c, factor);
      c.r <= l.r <= 255 && c.g <= l.g <= 255 && c.b <= l.b <= 255
    ensures var d := MakeDarkerRgb(c, factor);
      0 <= d.r <= c.r && 0 <= d.g <= c.g && 0 <= d.b <= c.b
    ensures factor == 0.0 ==> MakeLighterRgb(c, factor) == c && MakeDarkerRgb(c, factor) == c
  {
    LighterChannelBounds(c.r, factor);
    LighterChannelBounds(c.g, factor);
    LighterChannelBounds(c.b, factor);
    DarkerChannelBounds(c.r, factor);
    DarkerChannelBounds(c.g, factor);
    DarkerChannelBounds(c.b, factor);
  }
}
