/**
 * Colour matching, part two: nearest brand colour under a tolerance, and the
 * brand palette and fonts read from the guidelines document
 * (packages/shared/src/complianceUtils.ts, copied in packages/figma-plugin/src/code.ts).
 */
module Palette {
  import opened Wrappers
  import opened HexColor

  /** The result record of `isColorInBrandPalette`; `distance` is kept squared. */
  datatype PaletteMatch = PaletteMatch(matches: bool, closestColor: string, distance: Distance)

  /**
   * The guidelines document, as far as the plugin reads it:
   * `color.palette.{skyviewBlue,offBlack,white}.hex`, `typography.primaryFont.name`
   * and `spacing.system.baseUnit`. An absent object on an optional chain is `None`.
   */
  datatype BrandGuidelines = BrandGuidelines(
    palette: Option<Swatches>,
    primaryFontName: Option<string>,
    spacingBaseUnit: Option<real>)

  datatype Swatches = Swatches(skyviewBlue: Option<string>, offBlack: Option<string>, white: Option<string>)

  /** The canonical brand font the plugin always allows. */
  const AMERICAN_GROTESK: string := "American Grotesk"

  /** The tolerance the plugin passes (and `isColorInBrandPalette`'s default). */
  const DEFAULT_TOLERANCE: int := 15

  /** A JavaScript string is truthy when present and non-empty. */
  predicate Truthy(s: Option<string>) {
    s.Some? && s.value != ""
  }

  /** The distances from `colorHex` to each palette entry, in palette order. */
  function Distances(colorHex: string, brandColors: seq<string>): (ds: seq<Distance>)
    ensures |ds| == |brandColors|
    ensures forall i :: 0 <= i < |ds| ==> ds[i] == ColorDistance(colorHex, brandColors[i])
  {
    if brandColors == [] then []
    else Distances(colorHex, brandColors[..|brandColors| - 1]) + [ColorDistance(colorHex, brandColors[|brandColors| - 1])]
  }

  /**
   * The loop state `(closestColor, minDistance)` of `isColorInBrandPalette`
   * after scanning entries with distances `ds`; a candidate replaces the best
   * only when strictly closer.
   */
  function Scan(ds: seq<Distance>, brandColors: seq<string>): (string, Distance)
    requires |ds| == |brandColors|
  {
    if brandColors == [] then ("", Infinite)
    else
      var n := |brandColors| - 1;
      var sc := Scan(ds[..n], brandColors[..n]);
      if Less(ds[n], sc.1) then (brandColors[n], ds[n]) else sc
  }

  /** The result record built from the finished scan over distances `ds`. */
  function Nearest(ds: seq<Distance>, brandColors: seq<string>, tolerance: int): PaletteMatch
    requires |ds| == |brandColors|
  {
    var sc := Scan(ds, brandColors);
    PaletteMatch(WithinTolerance(sc.1, tolerance), sc.0, sc.1)
  }

  /** The value `isColorInBrandPalette(colorHex, brandColors, tolerance)` returns. */
  function NearestBrandColor(colorHex: string, brandColors: seq<string>, tolerance: int): PaletteMatch {
    Nearest(Distances(colorHex, brandColors), brandColors, tolerance)
  }

  /** Entry `k` is the first entry at the least distance. */
  ghost predicate IsFirstNearest(ds: seq<Distance>, k: nat) {
    && k < |ds|
    && (forall j :: 0 <= j < |ds| ==> !Less(ds[j], ds[k]))
    && (forall j :: 0 <= j < k ==> Less(ds[k], ds[j]))
  }

  /** The scan's distance is at most every entry's distance. */
  lemma {:induction false} ScanIsMinimal(ds: seq<Distance>, brandColors: seq<string>)
    requires |ds| == |brandColors|
    ensures forall j :: 0 <= j < |ds| ==> !Less(ds[j], Scan(ds, brandColors).1)
  {
    if brandColors != [] {
      var n := |brandColors| - 1;
      ScanIsMinimal(ds[..n], brandColors[..n]);
      assert forall j :: 0 <= j < n ==> ds[..n][j] == ds[j];
    }
  }

  /** The scan's distance is Infinity exactly when every entry's is, and then nothing was chosen. */
  lemma {:induction false} ScanInfinite(ds: seq<Distance>, brandColors: seq<string>)
    requires |ds| == |brandColors|
    ensures Scan(ds, brandColors).1.Infinite? <==> forall j :: 0 <= j < |ds| ==> ds[j].Infinite?
    ensures Scan(ds, brandColors).1.Infinite? ==> Scan(ds, brandColors).0 == ""
  {
    if brandColors != [] {
      var n := |brandColors| - 1;
      ScanInfinite(ds[..n], brandColors[..n]);
      assert forall j :: 0 <= j < n ==> ds[..n][j] == ds[j];
    }
  }

  /** A finite scan distance belongs to the first entry reaching it, and that entry is chosen. */
  lemma {:induction false} ScanChoosesFirstNearest(ds: seq<Distance>, brandColors: seq<string>)
    requires |ds| == |brandColors|
    requires Scan(ds, brandColors).1.Finite?
    ensures exists k: nat ::
      IsFirstNearest(ds, k) && Scan(ds, brandColors).0 == brandColors[k] && Scan(ds, brandColors).1 == ds[k]
  {
    var n := |brandColors| - 1;
    var sc := Scan(ds[..n], brandColors[..n]);
    ScanIsMinimal(ds[..n], brandColors[..n]);
    assert forall j :: 0 <= j < n ==> ds[..n][j] == ds[j];
    if Less(ds[n], sc.1) {
      assert IsFirstNearest(ds, n);
    } else {
      ScanChoosesFirstNearest(ds[..n], brandColors[..n]);
      var k: nat :| IsFirstNearest(ds[..n], k) && sc.0 == brandColors[..n][k] && sc.1 == ds[..n][k];
      assert IsFirstNearest(ds, k);
    }
  }

  /**
   * `isColorInBrandPalette`: `matches` holds exactly when some palette entry is
   * within the tolerance; an empty or wholly unparseable palette gives no match
   * and an empty `closestColor`; otherwise `closestColor` is the first nearest
   * entry and `distance` its distance.
   */
  lemma {:induction false} NearestSpec(ds: seq<Distance>, brandColors: seq<string>, tolerance: int)
    requires |ds| == |brandColors|
    ensures var m := Nearest(ds, brandColors, tolerance);
      && (m.matches <==> exists i :: 0 <= i < |ds| && WithinTolerance(ds[i], tolerance))
      && ((forall i :: 0 <= i < |ds| ==> ds[i].Infinite?) <==> m.distance.Infinite?)
      && (m.distance.Infinite? ==> !m.matches && m.closestColor == "")
      && (m.distance.Finite? ==>
            exists k: nat :: IsFirstNearest(ds, k) && m.closestColor == brandColors[k] && m.distance == ds[k])
  {
    ScanIsMinimal(ds, brandColors);
    ScanInfinite(ds, brandColors);
    if Scan(ds, brandColors).1.Finite? {
      ScanChoosesFirstNearest(ds, brandColors);
    }
    var m := Nearest(ds, brandColors, tolerance);
    if exists i :: 0 <= i < |ds| && WithinTolerance(ds[i], tolerance) {
      var i :| 0 <= i < |ds| && WithinTolerance(ds[i], tolerance);
      assert !Less(ds[i], m.distance);
    }
  }

  /** An empty palette never matches and suggests nothing. */
  lemma EmptyPaletteNoMatch(colorHex: string, tolerance: int)
    ensures NearestBrandColor(colorHex, [], tolerance) == PaletteMatch(false, "", Infinite)
  {
  }

  /** `isColorInBrandPalette`: one pass keeping the running minimum and its entry. */
  method IsColorInBrandPalette(colorHex: string, brandColors: seq<string>, tolerance: int)
    returns (result: PaletteMatch)
    ensures result == NearestBrandColor(colorHex, brandColors, tolerance)
  {
    ghost var ds := Distances(colorHex, brandColors);
    var closestColor := "";
    var minDistance := Infinite;
    var i := 0;
    while i < |brandColors|
      invariant 0 <= i <= |brandColors|
      invariant (closestColor, minDistance) == Scan(ds[..i], brandColors[..i])
    {
      var distance := ColorDistance(colorHex, brandColors[i]);
      assert ds[..i + 1][..i] == ds[..i];
      assert brandColors[..i + 1][..i] == brandColors[..i];
      if Less(distance, minDistance) {
        minDistance := distance;
        closestColor := brandColors[i];
      }
      i := i + 1;
    }
    assert ds[..i] == ds && brandColors[..i] == brandColors;
    result := PaletteMatch(WithinTolerance(minDistance, tolerance), closestColor, minDistance);
  }

  /** `extractBrandColors`: the truthy swatch hexes, in the order skyviewBlue, offBlack, white. */
  function ExtractBrandColors(guidelines: BrandGuidelines): (colors: seq<string>)
    ensures |colors| <= 3
    ensures forall i :: 0 <= i < |colors| ==> colors[i] != ""
    ensures guidelines.palette.None? ==> colors == []
  {
    match guidelines.palette
    case None => []
    case Some(p) =>
      (if Truthy(p.skyviewBlue) then [p.skyviewBlue.value] else [])
      + (if Truthy(p.offBlack) then [p.offBlack.value] else [])
      + (if Truthy(p.white) then [p.white.value] else [])
  }

  /** The swatches that `extractBrandColors` keeps come out in document order. */
  lemma BrandColorsInOrder(guidelines: BrandGuidelines)
    requires guidelines.palette.Some?
    ensures var p := guidelines.palette.value;
      var colors := ExtractBrandColors(guidelines);
      && (Truthy(p.skyviewBlue) ==> colors[0] == p.skyviewBlue.value)
      && (Truthy(p.white) ==> colors[|colors| - 1] == p.white.value)
      && (Truthy(p.offBlack) ==> colors[if Truthy(p.skyviewBlue) then 1 else 0] == p.offBlack.value)
      && |colors| == (if Truthy(p.skyviewBlue) then 1 else 0) + (if Truthy(p.offBlack) then 1 else 0)
                     + (if Truthy(p.white) then 1 else 0)
  {
  }

  /**
   * `extractBrandFonts`: the truthy primary font first (when given), and
   * "American Grotesk" exactly once.
   */
  function ExtractBrandFonts(guidelines: BrandGuidelines): (fonts: seq<string>)
    ensures 1 <= |fonts| <= 2
    ensures multiset(fonts)[AMERICAN_GROTESK] == 1
    ensures Truthy(guidelines.primaryFontName) ==> fonts[0] == guidelines.primaryFontName.value
    ensures !Truthy(guidelines.primaryFontName) ==> fonts == [AMERICAN_GROTESK]
    ensures forall f :: f in fonts ==> f == AMERICAN_GROTESK || Some(f) == guidelines.primaryFontName
  {
    var fonts := if Truthy(guidelines.primaryFontName) then [guidelines.primaryFontName.value] else [];
    if AMERICAN_GROTESK !in fonts then fonts + [AMERICAN_GROTESK] else fonts
  }
}
