/**
 * Font normalisation and two-way substring matching against the brand fonts
 * (packages/shared/src/complianceUtils.ts, copied in packages/figma-plugin/src/code.ts).
 */
module Fonts {
  import opened Text

  /** The characters `\s` matches in a JavaScript regular expression. */
  predicate IsJsWhitespace(c: char) {
    || c == ' ' || c == '\t' || c == '\n' || c == '\r' || c == '\U{000B}' || c == '\U{000C}'
    || c == '\U{00A0}' || c == '\U{1680}' || ('\U{2000}' <= c <= '\U{200A}')
    || c == '\U{2028}' || c == '\U{2029}' || c == '\U{202F}' || c == '\U{205F}' || c == '\U{3000}' || c == '\U{FEFF}'
  }

  /** `.replace(/\s+/g, '')`: every whitespace run removed. */
  function RemoveWhitespace(s: string): (r: string)
    ensures forall i :: 0 <= i < |r| ==> !IsJsWhitespace(r[i])
    ensures forall c :: c in r ==> c in s
    ensures forall c :: !IsJsWhitespace(c) ==> multiset(r)[c] == multiset(s)[c]
  {
    if s == [] then []
    else
      assert s == [s[0]] + s[1..];
      (if IsJsWhitespace(s[0]) then [] else [s[0]]) + RemoveWhitespace(s[1..])
  }

  /** `.replace(/-/g, '')`: every hyphen removed. */
  function RemoveHyphens(s: string): (r: string)
    ensures forall i :: 0 <= i < |r| ==> r[i] != '-'
    ensures forall c :: c in r ==> c in s
    ensures forall c :: c != '-' ==> multiset(r)[c] == multiset(s)[c]
  {
    if s == [] then []
    else
      assert s == [s[0]] + s[1..];
      (if s[0] == '-' then [] else [s[0]]) + RemoveHyphens(s[1..])
  }

  /** `normalizeFontName`: lower-case, then drop whitespace, then drop hyphens. */
  function NormalizeFontName(fontName: string): (r: string)
    ensures forall i :: 0 <= i < |r| ==> !IsJsWhitespace(r[i]) && r[i] != '-' && !IsAsciiUpper(r[i])
  {
    var lowered := Lower(fontName);
    assert forall c :: c in lowered ==> !IsAsciiUpper(c);
    var spaced := RemoveWhitespace(lowered);
    var r := RemoveHyphens(spaced);
    assert forall i :: 0 <= i < |r| ==> r[i] in spaced && r[i] in lowered;
    r
  }

  lemma {:induction false} RemoveWhitespaceIdentity(s: string)
    requires forall i :: 0 <= i < |s| ==> !IsJsWhitespace(s[i])
    ensures RemoveWhitespace(s) == s
  {
    if s != [] {
      RemoveWhitespaceIdentity(s[1..]);
    }
  }

  lemma {:induction false} RemoveHyphensIdentity(s: string)
    requires forall i :: 0 <= i < |s| ==> s[i] != '-'
    ensures RemoveHyphens(s) == s
  {
    if s != [] {
      RemoveHyphensIdentity(s[1..]);
    }
  }

  /** Normalising twice is normalising once. */
  lemma NormalizeIdempotent(fontName: string)
    ensures NormalizeFontName(NormalizeFontName(fontName)) == NormalizeFontName(fontName)
  {
    var n := NormalizeFontName(fontName);
    LowerWithoutUpper(n);
    RemoveWhitespaceIdentity(n);
    RemoveHyphensIdentity(n);
  }

  /** One allowed font matches when either normalised name contains the other. */
  predicate FontMatches(normalized: string, brandFont: string) {
    Contains(normalized, NormalizeFontName(brandFont)) || Contains(NormalizeFontName(brandFont), normalized)
  }

  /** `isBrandFont(fontFamily, brandFonts)`: `brandFonts.some(...)`. */
  predicate IsBrandFont(fontFamily: string, brandFonts: seq<string>) {
    exists i :: 0 <= i < |brandFonts| && FontMatches(NormalizeFontName(fontFamily), brandFonts[i])
  }

  /** No allowed font, no match; an empty family matches any non-empty list. */
  lemma BrandFontEdgeCases(fontFamily: string, brandFonts: seq<string>)
    ensures brandFonts == [] ==> !IsBrandFont(fontFamily, brandFonts)
    ensures fontFamily == "" && brandFonts != [] ==> IsBrandFont(fontFamily, brandFonts)
  {
    if fontFamily == "" && brandFonts != [] {
      var b := NormalizeFontName(brandFonts[0]);
      assert StartsWith(b[0..], "");
      assert Contains(b, NormalizeFontName(fontFamily));
    }
  }

  /** Matching depends only on the normalised family name. */
  lemma BrandFontSeesNormalizedName(fontFamily: string, brandFonts: seq<string>)
    ensures IsBrandFont(NormalizeFontName(fontFamily), brandFonts) == IsBrandFont(fontFamily, brandFonts)
  {
    NormalizeIdempotent(fontFamily);
  }
}
