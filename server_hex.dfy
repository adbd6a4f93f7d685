/**
 * The two private `rgbToHex` helpers of the server extractors: the design
 * extractor's writes lower-case digits, the colour extractor's upper-cases
 * the same string. Both pad each channel with `padStart(2, "0")` after
 * formatting, where the shared utility upper-cases first and pads after.
 */
module ServerHex {
  import opened Wrappers
  import opened Text
  import opened FigmaTypes
  import opened HexColor

  /** `s.padStart(2, "0")` */
  function PadStart2(s: string): (p: string)
    ensures |s| >= 2 ==> p == s
    ensures |s| < 2 ==> |p| == 2 && p[2 - |s|..] == s && forall i :: 0 <= i < 2 - |s| ==> p[i] == '0'
  {
    if |s| == 0 then "00" else if |s| == 1 then "0" + s else s
  }

  /** `n.toString(16).padStart(2, "0")` for one rounded channel. */
  function PaddedBase16(c: Channel): string {
    PadStart2(Base16(c))
  }

  /** designExtractor's `rgbToHex`: '#' and two lower-case digits per rounded channel. */
  function DesignRgbToHex(color: Rgb): string {
    "#" + PaddedBase16(Round255(color.r)) + PaddedBase16(Round255(color.g)) + PaddedBase16(Round255(color.b))
  }

  /** colorExtractor's `rgbToHex`: the same string, upper-cased as a whole. */
  function ColorRgbToHex(color: Rgb): string {
    Upper(DesignRgbToHex(color))
  }

  lemma {:induction false} UpperPadded(c: Channel)
    ensures Upper(PaddedBase16(c)) == ChannelHex(c)
  {
    var lo := Base16(c);
    if |lo| == 1 {
      UpperAppend("0", lo);
      assert Upper("0") == "0";
    }
  }

  /**
   * Padding and upper-casing commute here, so the colour extractor writes
   * exactly what the shared `rgbToHex` writes for the same colour.
   */
  lemma {:induction false} ColorRgbToHexIsShared(color: Rgb)
    ensures ColorRgbToHex(color) == RgbToHex(color.r, color.g, color.b)
  {
    var x, y, z := PaddedBase16(Round255(color.r)), PaddedBase16(Round255(color.g)), PaddedBase16(Round255(color.b));
    UpperAppend("#" + x + y, z);
    UpperAppend("#" + x, y);
    UpperAppend("#", x);
    assert Upper("#") == "#";
    UpperPadded(Round255(color.r));
    UpperPadded(Round255(color.g));
    UpperPadded(Round255(color.b));
  }

  /** The colour extractor's output is '#' and six upper-case hex digits. */
  lemma {:induction false} ColorRgbToHexShape(color: Rgb)
    ensures var s := ColorRgbToHex(color);
      |s| == 7 && s[0] == '#' && forall i :: 1 <= i < 7 ==> IsUpperHexDigit(s[i])
  {
    ColorRgbToHexIsShared(color);
    RgbToHexShape(color.r, color.g, color.b);
  }

  lemma {:induction false} PaddedBase16Lower(c: Channel)
    ensures |PaddedBase16(c)| == 2
    ensures forall i :: 0 <= i < 2 ==> IsLowerHexDigit(PaddedBase16(c)[i])
  {
    Base16Digits(c);
  }

  /** The design extractor's output is '#' and six lower-case hex digits. */
  lemma {:induction false} DesignRgbToHexShape(color: Rgb)
    ensures var s := DesignRgbToHex(color);
      |s| == 7 && s[0] == '#' && forall i :: 1 <= i < 7 ==> IsLowerHexDigit(s[i])
  {
    var x, y, z := PaddedBase16(Round255(color.r)), PaddedBase16(Round255(color.g)), PaddedBase16(Round255(color.b));
    PaddedBase16Lower(Round255(color.r));
    PaddedBase16Lower(Round255(color.g));
    PaddedBase16Lower(Round255(color.b));
    var s := DesignRgbToHex(color);
    assert s == "#" + x + y + z;
    forall i | 1 <= i < 7
      ensures IsLowerHexDigit(s[i])
    {
      if i < 3 { assert s[i] == x[i - 1]; }
      else if i < 5 { assert s[i] == y[i - 3]; }
      else { assert s[i] == z[i - 5]; }
    }
  }

  /**
   * The two server spellings of a colour differ only in case: lower-casing the
   * colour extractor's hex gives the design extractor's, and both parse back
   * to the rounded channels.
   */
  lemma {:induction false} ServerHexesAgree(color: Rgb)
    ensures Lower(ColorRgbToHex(color)) == DesignRgbToHex(color)
    ensures HexToRgb(DesignRgbToHex(color)) == Some(Rgb255(Round255(color.r), Round255(color.g), Round255(color.b)))
    ensures HexToRgb(ColorRgbToHex(color)) == HexToRgb(DesignRgbToHex(color))
  {
    var s := DesignRgbToHex(color);
    DesignRgbToHexShape(color);
    LowerOfUpper(s);
    LowerWithoutUpper(s);
    HexToRgbIgnoresCase(s);
    ColorRgbToHexIsShared(color);
    HexRoundTrip(color.r, color.g, color.b);
  }
}
