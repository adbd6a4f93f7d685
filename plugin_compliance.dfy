/**
 * The plugin's compliance check (packages/figma-plugin/src/code.ts):
 * `analyzeNode` appends violations for a node and then its subtree,
 * `checkBrandCompliance` runs it over the selection and scores the result.
 */
module PluginCompliance {
  import opened Wrappers
  import opened FigmaTypes
  import opened HexColor
  import opened Palette
  import opened Grid
  import opened Fonts
  import opened Violations
  import opened Scoring
  import opened Scene
  import opened SeqLemmas

  /** `guidelines.spacing?.system?.baseUnit || 8`: a missing or zero base unit falls back to 8. */
  function BaseUnit(guidelines: BrandGuidelines): (u: real)
    ensures u != 0.0
    ensures guidelines.spacingBaseUnit.Some? && guidelines.spacingBaseUnit.value != 0.0 ==> u == guidelines.spacingBaseUnit.value
    ensures !(guidelines.spacingBaseUnit.Some? && guidelines.spacingBaseUnit.value != 0.0) ==> u == 8.0
  {
    if guidelines.spacingBaseUnit.Some? && guidelines.spacingBaseUnit.value != 0.0 then guidelines.spacingBaseUnit.value
    else DEFAULT_BASE_UNIT
  }

  /** The colour violation, if any, for one fill of `node`. */
  function FillViolation(node: SceneNode, fill: Paint, brandColors: seq<string>): seq<Violation> {
    if fill.Solid? && fill.NotHidden() then
      var colorHex := RgbToHex(fill.color.r, fill.color.g, fill.color.b);
      var colorCheck := NearestBrandColor(colorHex, brandColors, DEFAULT_TOLERANCE);
      if colorCheck.matches then []
      else
        [Violation(ColorType, Warning, ColorNotInPalette(colorHex), Some(node.id), Some(node.name),
           Some(if colorCheck.closestColor != "" then ClosestBrandColor(colorCheck.closestColor) else BrandPaletteHint))]
    else []
  }

  /** The colour violations for the fills `fills` of `node`, in fill order. */
  function FillViolations(node: SceneNode, fills: seq<Paint>, brandColors: seq<string>): seq<Violation> {
    if fills == [] then []
    else FillViolations(node, fills[..|fills| - 1], brandColors) + FillViolation(node, fills[|fills| - 1], brandColors)
  }

  /** The colour violations for the fills of `node`, none when it has no fill array. */
  function NodeFillViolations(node: SceneNode, brandColors: seq<string>): seq<Violation> {
    if node.fills.Some? then FillViolations(node, node.fills.value, brandColors) else []
  }

  /** A TEXT node's `fontSize`, 0 when mixed. */
  function FontSizeOf(node: SceneNode): real {
    if node.text.Some? && node.text.value.fontSize.Value? then node.text.value.fontSize.value else 0.0
  }

  /** A TEXT node's font family, `''` when mixed. */
  function FontFamilyOf(node: SceneNode): string {
    if node.text.Some? && node.text.value.fontName.Value? then node.text.value.fontName.value.family else ""
  }

  /** The typography checks of a TEXT node: the font family, then the font size. */
  function TextViolations(node: SceneNode, guidelines: BrandGuidelines, brandFonts: seq<string>): seq<Violation> {
    if node.IsText() then
      var fontSize := FontSizeOf(node);
      var fontFamily := FontFamilyOf(node);
      var baseUnit := BaseUnit(guidelines);
      (if !IsBrandFont(fontFamily, brandFonts) then
         [Violation(TypographyType, Error, FontNotBrand(fontFamily), Some(node.id), Some(node.name), Some(BrandFontHint))]
       else [])
      + (if fontSize > 0.0 && !IsOnGrid(fontSize, baseUnit) then
           [Violation(SpacingType, Info, FontSizeOffGrid(fontSize, baseUnit), Some(node.id), Some(node.name),
              Some(ConsiderGridSize(ClosestGridValue(fontSize, baseUnit))))]
         else [])
    else []
  }

  /** The padding and item-spacing checks, each independent of the other. */
  function SpacingViolations(node: SceneNode, guidelines: BrandGuidelines): seq<Violation> {
    var baseUnit := BaseUnit(guidelines);
    (if node.padding.Some? && !IsOnGrid(node.padding.value.left, baseUnit) then
       [Violation(SpacingType, Info, PaddingOffGrid(node.padding.value.left, baseUnit), Some(node.id), Some(node.name),
          Some(UseGridValue(ClosestGridValue(node.padding.value.left, baseUnit))))]
     else [])
    + (if node.itemSpacing.Some? && !IsOnGrid(node.itemSpacing.value, baseUnit) then
         [Violation(SpacingType, Info, ItemSpacingOffGrid(node.itemSpacing.value, baseUnit), Some(node.id), Some(node.name),
            Some(UseGridValue(ClosestGridValue(node.itemSpacing.value, baseUnit))))]
       else [])
  }

  /** Everything `analyzeNode` pushes for `node` itself, before visiting its children. */
  function OwnViolations(node: SceneNode, guidelines: BrandGuidelines, brandColors: seq<string>, brandFonts: seq<string>): seq<Violation> {
    NodeFillViolations(node, brandColors)
    + TextViolations(node, guidelines, brandFonts)
    + SpacingViolations(node, guidelines)
  }

  /** `OwnViolations` with the guidelines fixed, as a per-node function. */
  function OwnViolationsOf(guidelines: BrandGuidelines, brandColors: seq<string>, brandFonts: seq<string>): SceneNode -> seq<Violation> {
    (n: SceneNode) => OwnViolations(n, guidelines, brandColors, brandFonts)
  }

  /** What `analyzeNode` pushes for the tree under `node`. */
  function TreeViolations(node: SceneNode, guidelines: BrandGuidelines, brandColors: seq<string>, brandFonts: seq<string>): seq<Violation>
    decreases node
  {
    OwnViolations(node, guidelines, brandColors, brandFonts) + ForestViolations(node.children, guidelines, brandColors, brandFonts)
  }

  /** What successive `analyzeNode` calls push for the trees of `roots`. */
  function ForestViolations(roots: seq<SceneNode>, guidelines: BrandGuidelines, brandColors: seq<string>, brandFonts: seq<string>): seq<Violation>
    decreases roots
  {
    if roots == [] then []
    else ForestViolations(roots[..|roots| - 1], guidelines, brandColors, brandFonts)
         + TreeViolations(roots[|roots| - 1], guidelines, brandColors, brandFonts)
  }

  /** One iteration of the fill loop of `analyzeNode`. */
  method CheckFill(node: SceneNode, fill: Paint, brandColors: seq<string>, violations: seq<Violation>)
    returns (out: seq<Violation>)
    ensures out == violations + FillViolation(node, fill, brandColors)
  {
    out := violations;
    if fill.Solid? && fill.NotHidden() {
      var colorHex := RgbToHex(fill.color.r, fill.color.g, fill.color.b);
      var colorCheck := IsColorInBrandPalette(colorHex, brandColors, DEFAULT_TOLERANCE);
      if !colorCheck.matches {
        var suggestion := if colorCheck.closestColor != "" then ClosestBrandColor(colorCheck.closestColor) else BrandPaletteHint;
        out := out + [Violation(ColorType, Warning, ColorNotInPalette(colorHex), Some(node.id), Some(node.name), Some(suggestion))];
      }
    }
  }

  /** The fill loop of `analyzeNode`: one colour check per fill, in order. */
  method CheckFills(node: SceneNode, fills: seq<Paint>, brandColors: seq<string>, violations: seq<Violation>)
    returns (out: seq<Violation>)
    ensures out == violations + FillViolations(node, fills, brandColors)
  {
    out := violations;
    var i := 0;
    while i < |fills|
      invariant 0 <= i <= |fills|
      invariant out == violations + FillViolations(node, fills[..i], brandColors)
    {
      assert fills[..i + 1][..i] == fills[..i];
      out := CheckFill(node, fills[i], brandColors, out);
      i := i + 1;
    }
    assert fills[..i] == fills;
  }

  /** The typography block of `analyzeNode`. */
  method CheckText(node: SceneNode, guidelines: BrandGuidelines, brandFonts: seq<string>, violations: seq<Violation>)
    returns (out: seq<Violation>)
    ensures out == violations + TextViolations(node, guidelines, brandFonts)
  {
    out := violations;
    if node.IsText() {
      var fontSize := if node.text.value.fontSize.Value? then node.text.value.fontSize.value else 0.0;
      var fontFamily := if node.text.value.fontName.Value? then node.text.value.fontName.value.family else "";
      if !IsBrandFont(fontFamily, brandFonts) {
        out := out + [Violation(TypographyType, Error, FontNotBrand(fontFamily), Some(node.id), Some(node.name), Some(BrandFontHint))];
      }
      var baseUnit := BaseUnit(guidelines);
      if fontSize > 0.0 && !IsOnGrid(fontSize, baseUnit) {
        var closestGrid := GetClosestGridValue(fontSize, baseUnit);
        out := out + [Violation(SpacingType, Info, FontSizeOffGrid(fontSize, baseUnit), Some(node.id), Some(node.name),
                         Some(ConsiderGridSize(closestGrid)))];
      }
    }
  }

  /** The padding and item-spacing block of `analyzeNode`. */
  method CheckSpacing(node: SceneNode, guidelines: BrandGuidelines, violations: seq<Violation>)
    returns (out: seq<Violation>)
    ensures out == violations + SpacingViolations(node, guidelines)
  {
    out := violations;
    if node.padding.Some? || node.itemSpacing.Some? {
      var baseUnit := BaseUnit(guidelines);
      if node.padding.Some? {
        if !IsOnGrid(node.padding.value.left, baseUnit) {
          var closest := GetClosestGridValue(node.padding.value.left, baseUnit);
          out := out + [Violation(SpacingType, Info, PaddingOffGrid(node.padding.value.left, baseUnit), Some(node.id), Some(node.name),
                           Some(UseGridValue(closest)))];
        }
      }
      if node.itemSpacing.Some? {
        if !IsOnGrid(node.itemSpacing.value, baseUnit) {
          var closest := GetClosestGridValue(node.itemSpacing.value, baseUnit);
          out := out + [Violation(SpacingType, Info, ItemSpacingOffGrid(node.itemSpacing.value, baseUnit), Some(node.id), Some(node.name),
                           Some(UseGridValue(closest)))];
        }
      }
    }
  }

  /** The three checks `analyzeNode` runs on the node itself: fills, text, spacing. */
  method CheckOwn(node: SceneNode, guidelines: BrandGuidelines, brandColors: seq<string>, brandFonts: seq<string>,
                  violations: seq<Violation>)
    returns (out: seq<Violation>)
    ensures out == violations + OwnViolations(node, guidelines, brandColors, brandFonts)
  {
    out := violations;
    if node.fills.Some? {
      out := CheckFills(node, node.fills.value, brandColors, out);
    }
    ghost var fillPart := NodeFillViolations(node, brandColors);
    assert out == violations + fillPart;
    out := CheckText(node, guidelines, brandFonts, out);
    ghost var textPart := TextViolations(node, guidelines, brandFonts);
    out := CheckSpacing(node, guidelines, out);
    ghost var spacingPart := SpacingViolations(node, guidelines);
    AppendAssoc4(violations, fillPart, textPart, spacingPart);
  }

  lemma ForestStep(roots: seq<SceneNode>, j: nat, guidelines: BrandGuidelines, brandColors: seq<string>, brandFonts: seq<string>)
    requires j < |roots|
    ensures ForestViolations(roots[..j + 1], guidelines, brandColors, brandFonts)
         == ForestViolations(roots[..j], guidelines, brandColors, brandFonts) + TreeViolations(roots[j], guidelines, brandColors, brandFonts)
  {
    assert roots[..j + 1][..j] == roots[..j];
  }

  /**
   * `analyzeNode`: appends to the caller's `violations` the node's own
   * violations, then those of each child's subtree; nothing already there
   * changes.
   */
  method AnalyzeNode(node: SceneNode, guidelines: BrandGuidelines, brandColors: seq<string>, brandFonts: seq<string>,
                     violations: seq<Violation>)
    returns (out: seq<Violation>)
    ensures out == violations + TreeViolations(node, guidelines, brandColors, brandFonts)
    decreases node
  {
    out := CheckOwn(node, guidelines, brandColors, brandFonts, violations);
    ghost var own := OwnViolations(node, guidelines, brandColors, brandFonts);

    var children := node.children;
    var j := 0;
    while j < |children|
      invariant 0 <= j <= |children|
      invariant out == violations + (own + ForestViolations(children[..j], guidelines, brandColors, brandFonts))
    {
      ghost var before := ForestViolations(children[..j], guidelines, brandColors, brandFonts);
      ForestStep(children, j, guidelines, brandColors, brandFonts);
      out := AnalyzeNode(children[j], guidelines, brandColors, brandFonts, out);
      AppendShift(violations, own, before, TreeViolations(children[j], guidelines, brandColors, brandFonts));
      j := j + 1;
    }
    assert children[..j] == children;
  }

  /** The result `checkBrandCompliance` returns for `selection`. */
  function BrandCompliance(selection: seq<SceneNode>, guidelines: BrandGuidelines): ComplianceResult {
    if |selection| == 0 then
      ComplianceResult(false, [Violation(ComponentType, Error, NoNodesSelected, None, None, None)], 0)
    else
      var violations := ForestViolations(selection, guidelines, ExtractBrandColors(guidelines), ExtractBrandFonts(guidelines));
      ComplianceResult(|violations| == 0, violations, ComplianceScore(violations))
  }

  /** `checkBrandCompliance(guidelines)`, the current selection passed in. */
  method CheckBrandCompliance(selection: seq<SceneNode>, guidelines: BrandGuidelines) returns (result: ComplianceResult)
    ensures result == BrandCompliance(selection, guidelines)
  {
    if |selection| == 0 {
      return ComplianceResult(false, [Violation(ComponentType, Error, NoNodesSelected, None, None, None)], 0);
    }
    var brandColors := ExtractBrandColors(guidelines);
    var brandFonts := ExtractBrandFonts(guidelines);
    var violations := [];
    var i := 0;
    while i < |selection|
      invariant 0 <= i <= |selection|
      invariant violations == ForestViolations(selection[..i], guidelines, brandColors, brandFonts)
    {
      ForestStep(selection, i, guidelines, brandColors, brandFonts);
      violations := AnalyzeNode(selection[i], guidelines, brandColors, brandFonts, violations);
      i := i + 1;
    }
    assert selection[..i] == selection;
    var score := CalculateComplianceScore(violations);
    result := ComplianceResult(|violations| == 0, violations, score);
  }

  /**
   * An empty selection yields the single "No nodes selected" error with score 0;
   * otherwise the result is compliant iff it has no violations, its score is the
   * violations' score, and the score is 100 exactly when compliant.
   */
  lemma BrandComplianceSpec(selection: seq<SceneNode>, guidelines: BrandGuidelines)
    ensures var r := BrandCompliance(selection, guidelines);
      && (|selection| == 0 ==>
            && !r.isCompliant && r.score == 0 && |r.violations| == 1
            && r.violations[0].vtype == ComponentType && r.violations[0].severity == Error
            && r.violations[0].message == NoNodesSelected)
      && (|selection| > 0 ==> (r.isCompliant <==> r.violations == []) && r.score == ComplianceScore(r.violations))
      && 0 <= r.score <= 100
      && (r.score == 100 <==> r.isCompliant)
  {
    var r := BrandCompliance(selection, guidelines);
    ComplianceScoreFormula(r.violations);
    if |selection| > 0 && r.violations != [] {
      NonEmptyScoresBelowHundred(r.violations);
    }
  }

  /** The violations of the selection, one node at a time in depth-first pre-order. */
  lemma {:induction false} ViolationsInPreOrder(roots: seq<SceneNode>, guidelines: BrandGuidelines, brandColors: seq<string>, brandFonts: seq<string>)
    ensures ForestViolations(roots, guidelines, brandColors, brandFonts)
         == FlatMap(OwnViolationsOf(guidelines, brandColors, brandFonts), PreOrderAll(roots))
    decreases roots, 1
  {
    if roots != [] {
      var last := roots[|roots| - 1];
      ViolationsInPreOrder(roots[..|roots| - 1], guidelines, brandColors, brandFonts);
      TreeViolationsInPreOrder(last, guidelines, brandColors, brandFonts);
      FlatMapAppend(OwnViolationsOf(guidelines, brandColors, brandFonts), PreOrderAll(roots[..|roots| - 1]), PreOrder(last));
    }
  }

  lemma {:induction false} TreeViolationsInPreOrder(node: SceneNode, guidelines: BrandGuidelines, brandColors: seq<string>, brandFonts: seq<string>)
    ensures TreeViolations(node, guidelines, brandColors, brandFonts)
         == FlatMap(OwnViolationsOf(guidelines, brandColors, brandFonts), PreOrder(node))
    decreases node, 0
  {
    var f := OwnViolationsOf(guidelines, brandColors, brandFonts);
    ViolationsInPreOrder(node.children, guidelines, brandColors, brandFonts);
    FlatMapAppend(f, [node], PreOrderAll(node.children));
    assert [node][..0] == [];
    assert FlatMap(f, [node]) == f(node);
    assert f(node) == OwnViolations(node, guidelines, brandColors, brandFonts);
  }

  /**
   * Each SOLID, not-hidden fill farther than the tolerance from every brand
   * colour yields exactly one colour warning, suggesting the closest brand
   * colour or, when there is none, the fixed palette hint; other fills yield
   * nothing.
   */
  lemma FillViolationSpec(node: SceneNode, fill: Paint, brandColors: seq<string>)
    ensures var vs := FillViolation(node, fill, brandColors);
      && |vs| <= 1
      && (|vs| == 1 <==>
            fill.Solid? && fill.NotHidden()
            && forall i :: 0 <= i < |brandColors| ==>
                 !WithinTolerance(ColorDistance(RgbToHex(fill.color.r, fill.color.g, fill.color.b), brandColors[i]), DEFAULT_TOLERANCE))
      && (|vs| == 1 ==>
            && vs[0].vtype == ColorType && vs[0].severity == Warning
            && vs[0].nodeId == Some(node.id)
            && var m := NearestBrandColor(RgbToHex(fill.color.r, fill.color.g, fill.color.b), brandColors, DEFAULT_TOLERANCE);
               vs[0].suggestion == Some(if m.closestColor == "" then BrandPaletteHint else ClosestBrandColor(m.closestColor)))
  {
    if fill.Solid? {
      var colorHex := RgbToHex(fill.color.r, fill.color.g, fill.color.b);
      NearestSpec(Distances(colorHex, brandColors), brandColors, DEFAULT_TOLERANCE);
    }
  }

  /** How many fills of `fills` draw a colour warning. */
  function CountOffPalette(fills: seq<Paint>, brandColors: seq<string>): nat {
    if fills == [] then 0
    else
      var f := fills[|fills| - 1];
      CountOffPalette(fills[..|fills| - 1], brandColors)
      + (if f.Solid? && f.NotHidden()
              && !NearestBrandColor(RgbToHex(f.color.r, f.color.g, f.color.b), brandColors, DEFAULT_TOLERANCE).matches
         then 1 else 0)
  }

  /** The fill check yields one colour warning per off-palette fill and nothing else. */
  lemma {:induction false} FillViolationsCount(node: SceneNode, fills: seq<Paint>, brandColors: seq<string>)
    ensures |FillViolations(node, fills, brandColors)| == CountOffPalette(fills, brandColors)
    ensures forall i :: 0 <= i < |FillViolations(node, fills, brandColors)| ==>
      FillViolations(node, fills, brandColors)[i].vtype == ColorType
      && FillViolations(node, fills, brandColors)[i].severity == Warning
  {
    if fills != [] {
      FillViolationsCount(node, fills[..|fills| - 1], brandColors);
    }
  }

  /**
   * A TEXT node draws one typography error iff its family is not a brand
   * font, and after it one spacing notice iff its size is positive and off
   * the grid; other nodes draw neither. Both name the node.
   */
  lemma TextViolationsSpec(node: SceneNode, guidelines: BrandGuidelines, brandFonts: seq<string>)
    ensures var vs := TextViolations(node, guidelines, brandFonts);
      && |vs| <= 2
      && ((exists i :: 0 <= i < |vs| && vs[i].vtype == TypographyType) <==>
            node.IsText() && !IsBrandFont(FontFamilyOf(node), brandFonts))
      && ((exists i :: 0 <= i < |vs| && vs[i].vtype == SpacingType) <==>
            node.IsText() && FontSizeOf(node) > 0.0 && !IsOnGrid(FontSizeOf(node), BaseUnit(guidelines)))
      && (forall i :: 0 <= i < |vs| && vs[i].vtype == TypographyType ==> vs[i].severity == Error)
      && (forall i :: 0 <= i < |vs| && vs[i].vtype == SpacingType ==>
            vs[i].severity == Info && vs[i].suggestion == Some(ConsiderGridSize(ClosestGridValue(FontSizeOf(node), BaseUnit(guidelines)))))
    ensures |TextViolations(node, guidelines, brandFonts)| ==
      (if node.IsText() && !IsBrandFont(FontFamilyOf(node), brandFonts) then 1 else 0)
      + (if node.IsText() && FontSizeOf(node) > 0.0 && !IsOnGrid(FontSizeOf(node), BaseUnit(guidelines)) then 1 else 0)
    ensures node.IsText() && !IsBrandFont(FontFamilyOf(node), brandFonts) ==>
      TextViolations(node, guidelines, brandFonts)[0]
        == Violation(TypographyType, Error, FontNotBrand(FontFamilyOf(node)), Some(node.id), Some(node.name), Some(BrandFontHint))
    ensures node.IsText() && FontSizeOf(node) > 0.0 && !IsOnGrid(FontSizeOf(node), BaseUnit(guidelines)) ==>
      var vs := TextViolations(node, guidelines, brandFonts);
      vs[|vs| - 1]
        == Violation(SpacingType, Info, FontSizeOffGrid(FontSizeOf(node), BaseUnit(guidelines)), Some(node.id), Some(node.name),
             Some(ConsiderGridSize(ClosestGridValue(FontSizeOf(node), BaseUnit(guidelines)))))
  {
    var vs := TextViolations(node, guidelines, brandFonts);
    if node.IsText() {
      var fontOk := IsBrandFont(FontFamilyOf(node), brandFonts);
      var sizeOk := !(FontSizeOf(node) > 0.0 && !IsOnGrid(FontSizeOf(node), BaseUnit(guidelines)));
      if !fontOk {
        assert vs[0].vtype == TypographyType;
        if !sizeOk {
          assert vs[1].vtype == SpacingType;
        }
      } else if !sizeOk {
        assert vs[0].vtype == SpacingType;
      }
    }
  }

  /**
   * Padding (left side only) and item spacing are checked independently:
   * each off-grid value adds one spacing notice naming that value and
   * suggesting the closest grid value, the padding notice first.
   */
  lemma SpacingViolationsSpec(node: SceneNode, guidelines: BrandGuidelines)
    ensures var vs := SpacingViolations(node, guidelines);
      var u := BaseUnit(guidelines);
      && |vs| == (if node.padding.Some? && !IsOnGrid(node.padding.value.left, u) then 1 else 0)
               + (if node.itemSpacing.Some? && !IsOnGrid(node.itemSpacing.value, u) then 1 else 0)
      && (forall i :: 0 <= i < |vs| ==> vs[i].vtype == SpacingType && vs[i].severity == Info)
      && (forall i :: 0 <= i < |vs| ==> vs[i].message.PaddingOffGrid? || vs[i].message.ItemSpacingOffGrid?)
      && (forall i :: 0 <= i < |vs| ==> vs[i].nodeId == Some(node.id) && vs[i].nodeName == Some(node.name))
      && (forall i :: 0 <= i < |vs| && vs[i].message.PaddingOffGrid? ==>
            node.padding.Some? && vs[i].suggestion == Some(UseGridValue(ClosestGridValue(node.padding.value.left, u))))
      && (forall i :: 0 <= i < |vs| && vs[i].message.ItemSpacingOffGrid? ==>
            node.itemSpacing.Some? && vs[i].suggestion == Some(UseGridValue(ClosestGridValue(node.itemSpacing.value, u))))
    ensures node.padding.Some? && !IsOnGrid(node.padding.value.left, BaseUnit(guidelines)) ==>
      SpacingViolations(node, guidelines)[0].message == PaddingOffGrid(node.padding.value.left, BaseUnit(guidelines))
    ensures node.itemSpacing.Some? && !IsOnGrid(node.itemSpacing.value, BaseUnit(guidelines)) ==>
      var vs := SpacingViolations(node, guidelines);
      vs[|vs| - 1].message == ItemSpacingOffGrid(node.itemSpacing.value, BaseUnit(guidelines))
  {
  }
}
