/**
 * Colour matching, part one: hex <-> RGB conversion and Euclidean RGB distance
 * (packages/shared/src/complianceUtils.ts; packages/figma-plugin/src/code.ts
 * carries an identical copy of these utilities).
 */
module HexColor {
  import opened Wrappers
  import opened Text
  import opened FigmaTypes

  /** The channels `hexToRgb` returns, each 0..255. */
  datatype Rgb255 = Rgb255(r: Channel, g: Channel, b: Channel)

  /** `[a-f\d]` under the `i` flag. */
  predicate IsHexDigit(c: char) {
    IsDigit(c) || 'a' <= c <= 'f' || 'A' <= c <= 'F'
  }

  predicate IsUpperHexDigit(c: char) {
    IsDigit(c) || 'A' <= c <= 'F'
  }

  predicate IsLowerHexDigit(c: char) {
    IsDigit(c) || 'a' <= c <= 'f'
  }

  /** `parseInt(c, 16)` for one digit. */
  function DigitValue(c: char): (v: nat)
    requires IsHexDigit(c)
    ensures v < 16
  {
    if IsDigit(c) then c as int - '0' as int
    else if 'a' <= c <= 'f' then c as int - 'a' as int + 10
    else c as int - 'A' as int + 10
  }

  /** The lower-case digit `Number.prototype.toString(16)` writes for `d`. */
  function LowerDigit(d: nat): char
    requires d < 16
  {
    "0123456789abcdef"[d]
  }

  lemma LowerDigitValue(d: nat)
    requires d < 16
    ensures IsLowerHexDigit(LowerDigit(d)) && DigitValue(LowerDigit(d)) == d
  {
  }

  /** `c.toString(16)` for a channel: lower case, no leading zero. */
  function Base16(c: Channel): (s: string)
    ensures 1 <= |s| <= 2 && (|s| == 1 <==> c < 16)
  {
    if c < 16 then [LowerDigit(c)] else [LowerDigit(c / 16), LowerDigit(c % 16)]
  }

  /** The digits of `c.toString(16)` are lower-case and spell `c`. */
  lemma Base16Digits(c: Channel)
    ensures forall i :: 0 <= i < |Base16(c)| ==> IsLowerHexDigit(Base16(c)[i])
    ensures |Base16(c)| == 1 ==> DigitValue(Base16(c)[0]) == c
    ensures |Base16(c)| == 2 ==> 16 * DigitValue(Base16(c)[0]) + DigitValue(Base16(c)[1]) == c
  {
    if c < 16 {
      LowerDigitValue(c);
    } else {
      LowerDigitValue(c / 16);
      LowerDigitValue(c % 16);
    }
  }

  /** The `toHex` closure of `rgbToHex`: upper-cased, then padded with '0' when one digit long. */
  function ChannelHex(c: Channel): string {
    var hex := Upper(Base16(c));
    if |hex| == 1 then "0" + hex else hex
  }

  /** Two upper-case digits whose value is the channel. */
  lemma ChannelHexDigits(c: Channel)
    ensures |ChannelHex(c)| == 2
    ensures IsUpperHexDigit(ChannelHex(c)[0]) && IsUpperHexDigit(ChannelHex(c)[1])
    ensures 16 * DigitValue(ChannelHex(c)[0]) + DigitValue(ChannelHex(c)[1]) == c
  {
    var lo := Base16(c);
    Base16Digits(c);
    assert Upper(lo)[0] == UpperChar(lo[0]);
    if c >= 16 {
      assert Upper(lo)[1] == UpperChar(lo[1]);
    }
  }

  /** `rgbToHex(r, g, b)`: '#' and two digits per rounded channel. */
  function RgbToHex(r: UnitReal, g: UnitReal, b: UnitReal): string {
    "#" + ChannelHex(Round255(r)) + ChannelHex(Round255(g)) + ChannelHex(Round255(b))
  }

  /** The shape `^#?([a-f\d]{2}){3}$` (flag i) accepts. */
  predicate IsHexColorString(s: string) {
    || (|s| == 7 && s[0] == '#' && forall i :: 1 <= i < 7 ==> IsHexDigit(s[i]))
    || (|s| == 6 && forall i :: 0 <= i < 6 ==> IsHexDigit(s[i]))
  }

  /** `parseInt(pair, 16)` */
  function PairValue(hi: char, lo: char): (v: Channel)
    requires IsHexDigit(hi) && IsHexDigit(lo)
  {
    16 * DigitValue(hi) + DigitValue(lo)
  }

  /** The three capture groups of six hex digits, parsed. */
  function ParseSix(s: string): Option<Rgb255>
    requires |s| == 6
  {
    if forall i :: 0 <= i < 6 ==> IsHexDigit(s[i]) then
      Some(Rgb255(PairValue(s[0], s[1]), PairValue(s[2], s[3]), PairValue(s[4], s[5])))
    else
      None
  }

  /** `hexToRgb(hex)`: null (None) unless an optional '#' is followed by exactly six hex digits. */
  function HexToRgb(hex: string): (r: Option<Rgb255>)
    ensures r.Some? <==> IsHexColorString(hex)
  {
    if |hex| == 7 && hex[0] == '#' then ParseSix(hex[1..])
    else if |hex| == 6 then ParseSix(hex)
    else None
  }

  /** The shape of `rgbToHex`'s output: '#' and six upper-case hex digits. */
  lemma {:induction false} RgbToHexShape(r: UnitReal, g: UnitReal, b: UnitReal)
    ensures var s := RgbToHex(r, g, b);
      |s| == 7 && s[0] == '#' && forall i :: 1 <= i < 7 ==> IsUpperHexDigit(s[i])
  {
    ChannelHexDigits(Round255(r));
    ChannelHexDigits(Round255(g));
    ChannelHexDigits(Round255(b));
  }

  /** The two digits of a channel parse back to the channel. */
  lemma {:induction false} ChannelHexParses(c: Channel)
    ensures |ChannelHex(c)| == 2
    ensures IsHexDigit(ChannelHex(c)[0]) && IsHexDigit(ChannelHex(c)[1])
    ensures PairValue(ChannelHex(c)[0], ChannelHex(c)[1]) == c
  {
    ChannelHexDigits(c);
  }

  /** Round trip: parsing `rgbToHex`'s output gives back the rounded channels. */
  lemma {:induction false} HexRoundTrip(r: UnitReal, g: UnitReal, b: UnitReal)
    ensures HexToRgb(RgbToHex(r, g, b)) == Some(Rgb255(Round255(r), Round255(g), Round255(b)))
  {
    ChannelsRoundTrip(Round255(r), Round255(g), Round255(b));
  }

  lemma {:induction false} ChannelsRoundTrip(cr: Channel, cg: Channel, cb: Channel)
    ensures HexToRgb("#" + ChannelHex(cr) + ChannelHex(cg) + ChannelHex(cb)) == Some(Rgb255(cr, cg, cb))
  {
    ChannelHexParses(cr);
    ChannelHexParses(cg);
    ChannelHexParses(cb);
    PairsParse(ChannelHex(cr), ChannelHex(cg), ChannelHex(cb));
  }

  /** '#' and three pairs of hex digits parse to the three pair values. */
  lemma PairsParse(x: string, y: string, z: string)
    requires |x| == 2 && |y| == 2 && |z| == 2
    requires IsHexDigit(x[0]) && IsHexDigit(x[1]) && IsHexDigit(y[0]) && IsHexDigit(y[1])
    requires IsHexDigit(z[0]) && IsHexDigit(z[1])
    ensures HexToRgb("#" + x + y + z)
         == Some(Rgb255(PairValue(x[0], x[1]), PairValue(y[0], y[1]), PairValue(z[0], z[1])))
  {
    var s := "#" + x + y + z;
    var t := s[1..];
    assert t == x + y + z;
    assert t[0] == x[0] && t[1] == x[1];
    assert t[2] == y[0] && t[3] == y[1];
    assert t[4] == z[0] && t[5] == z[1];
  }

  /** Upper-casing keeps hex digits hex digits, with the same value, and nothing else becomes one. */
  lemma UpperDigit(c: char)
    ensures IsHexDigit(UpperChar(c)) <==> IsHexDigit(c)
    ensures IsHexDigit(c) ==> DigitValue(UpperChar(c)) == DigitValue(c)
  {
  }

  /** Parsing ignores the case of the digits. */
  lemma {:induction false} HexToRgbIgnoresCase(s: string)
    ensures HexToRgb(Upper(s)) == HexToRgb(s)
  {
    var u := Upper(s);
    forall i | 0 <= i < |s|
      ensures IsHexDigit(u[i]) <==> IsHexDigit(s[i])
      ensures IsHexDigit(s[i]) ==> DigitValue(u[i]) == DigitValue(s[i])
    {
      UpperDigit(s[i]);
    }
    if |s| == 7 && s[0] == '#' {
      assert u[0] == '#';
      SameParse(s[1..], u[1..]);
    } else if |s| == 6 {
      SameParse(s, u);
    }
  }

  lemma SameParse(s: string, u: string)
    requires |s| == |u| == 6
    requires forall i :: 0 <= i < 6 ==> (IsHexDigit(u[i]) <==> IsHexDigit(s[i]))
    requires forall i :: 0 <= i < 6 && IsHexDigit(s[i]) ==> DigitValue(u[i]) == DigitValue(s[i])
    ensures ParseSix(u) == ParseSix(s)
  {
  }

  /** The result of `colorDistance`: a finite distance, kept squared, or `Infinity`. */
  datatype Distance = Finite(squared: nat) | Infinite

  /** `a < b` on the distances the square roots stand for. */
  predicate Less(a: Distance, b: Distance) {
    a.Finite? && (b.Infinite? || a.squared < b.squared)
  }

  /** `sqrt(d) <= tolerance`; `Infinity <= t` is false. */
  predicate WithinTolerance(d: Distance, tolerance: int) {
    d.Finite? && 0 <= tolerance && d.squared <= tolerance * tolerance
  }

  /** `colorDistance(hex1, hex2)`, squared: Infinity when either side does not parse. */
  function ColorDistance(hex1: string, hex2: string): (d: Distance)
    ensures d.Infinite? <==> !IsHexColorString(hex1) || !IsHexColorString(hex2)
    ensures d.Finite? ==> d.squared <= 3 * 255 * 255
  {
    match (HexToRgb(hex1), HexToRgb(hex2))
    case (Some(c1), Some(c2)) =>
      var rDiff, gDiff, bDiff := c1.r - c2.r, c1.g - c2.g, c1.b - c2.b;
      SquareAtMost(rDiff);
      SquareAtMost(gDiff);
      SquareAtMost(bDiff);
      Finite(rDiff * rDiff + gDiff * gDiff + bDiff * bDiff)
    case _ => Infinite
  }

  lemma SquareAtMost(x: int)
    requires -255 <= x <= 255
    ensures 0 <= x * x <= 255 * 255
  {
    var a := if x < 0 then -x else x;
    assert x * x == a * a;
    MulMono(a, 255, a);
    MulMono(a, 255, 255);
  }

  /** `0 <= x <= y` and `0 <= k` give `x * k <= y * k`. */
  lemma MulMono(x: int, y: int, k: int)
    requires 0 <= x <= y && 0 <= k
    ensures 0 <= x * k <= y * k
  {
  }

  /** A parseable colour is at distance 0 from itself. */
  lemma DistanceToSelf(hex: string)
    requires IsHexColorString(hex)
    ensures ColorDistance(hex, hex) == Finite(0)
  {
  }

  /** The distance is symmetric. */
  lemma DistanceSymmetric(hex1: string, hex2: string)
    ensures ColorDistance(hex1, hex2) == ColorDistance(hex2, hex1)
  {
    if HexToRgb(hex1).Some? && HexToRgb(hex2).Some? {
      var c1, c2 := HexToRgb(hex1).value, HexToRgb(hex2).value;
      SquaredGapSymmetric(c1.r, c2.r);
      SquaredGapSymmetric(c1.g, c2.g);
      SquaredGapSymmetric(c1.b, c2.b);
    }
  }

  /** The squared gap between two channel values does not depend on their order. */
  lemma SquaredGapSymmetric(a: int, b: int)
    ensures (a - b) * (a - b) == (b - a) * (b - a)
  {
  }

  /** Distance 0 exactly when both strings parse to the same channels. */
  lemma {:induction false} DistanceZeroIffSameChannels(hex1: string, hex2: string)
    ensures ColorDistance(hex1, hex2) == Finite(0) <==>
      HexToRgb(hex1).Some? && HexToRgb(hex1) == HexToRgb(hex2)
  {
    if HexToRgb(hex1).Some? && HexToRgb(hex2).Some? {
      var c1, c2 := HexToRgb(hex1).value, HexToRgb(hex2).value;
      var rd, gd, bd := c1.r - c2.r, c1.g - c2.g, c1.b - c2.b;
      if rd * rd + gd * gd + bd * bd == 0 {
        SquareZero(rd, gd, bd);
      }
    }
  }

  lemma SquareZero(x: int, y: int, z: int)
    requires x * x + y * y + z * z == 0
    ensures x == 0 && y == 0 && z == 0
  {
    SquareSign(x);
    SquareSign(y);
    SquareSign(z);
  }

  lemma SquareSign(x: int)
    ensures x * x >= 0
    ensures x != 0 ==> x * x > 0
  {
  }
}
