/**
 * src/utils/complianceChecker.ts: the server's rule checks over extracted
 * colours, text styles and layout. The rules come from a JSON guidelines
 * file that the checker imports; here they are a parameter.
 */
module ComplianceChecker {
  import opened Wrappers
  import opened Text
  import opened FigmaTypes
  import opened ServerHex
  import opened ColorExtractor
  import opened TypographyExtractor
  import opened LayoutExtractor
  import opened SeqLemmas

  datatype ColorRule = ColorRule(id: string, name: string, severity: string, colors: seq<string>)

  datatype TypographyRule = TypographyRule(
    id: string, name: string, severity: string, allowedFonts: seq<string>, minSize: real, maxSize: real)

  datatype SpacingRule = SpacingRule(
    id: string, name: string, severity: string, baseUnit: real, allowedMultiples: seq<real>)

  /** The `colorRules`, `typographyRules` and `spacingRules` lists of the guidelines file. */
  datatype Guidelines = Guidelines(
    colorRules: seq<ColorRule>, typographyRules: seq<TypographyRule>, spacingRules: seq<SpacingRule>)

  /** What an issue's `message` says, with the values it interpolates; number formatting is not modelled. */
  datatype IssueMessage =
    | ColorNotInPalette(hex: string, approved: seq<string>)
    | FontNotApproved(family: string, allowed: seq<string>)
    | FontSizeOutOfRange(size: real, minSize: real, maxSize: real)
    | SpacingOffGrid(spacing: real, allowedValues: seq<real>)

  /** A `ComplianceIssue`; `severity` is the rule's, copied without a check. */
  datatype ComplianceIssue = ComplianceIssue(ruleId: string, ruleName: string, severity: string, message: IssueMessage)

  /** The extractors' output handed to `checkAll`. */
  datatype CheckInput = CheckInput(colors: seq<ColorData>, typography: seq<TypographyData>, layout: Option<LayoutData>)

  const BRAND_COLORS := "brand-colors"
  const HEADING_TYPOGRAPHY := "heading-typography"
  const SPACING_SYSTEM := "spacing-system"

  /** `xs.findIndex(p)`: the first index whose element satisfies `p`. */
  function FindFirst<T>(xs: seq<T>, p: T -> bool): (k: Option<nat>)
    ensures k.Some? ==> k.value < |xs| && p(xs[k.value]) && forall j :: 0 <= j < k.value ==> !p(xs[j])
    ensures k.None? ==> forall j :: 0 <= j < |xs| ==> !p(xs[j])
  {
    if xs == [] then None
    else if p(xs[0]) then Some(0)
    else
      match FindFirst(xs[1..], p)
      case None => None
      case Some(k) => Some(k + 1)
  }

  /** `find(r => r.id === "brand-colors")` */
  function ColorRuleOf(g: Guidelines): Option<ColorRule> {
    match FindFirst(g.colorRules, (r: ColorRule) => r.id == BRAND_COLORS)
    case None => None
    case Some(k) => Some(g.colorRules[k])
  }

  function TypographyRuleOf(g: Guidelines): Option<TypographyRule> {
    match FindFirst(g.typographyRules, (r: TypographyRule) => r.id == HEADING_TYPOGRAPHY)
    case None => None
    case Some(k) => Some(g.typographyRules[k])
  }

  function SpacingRuleOf(g: Guidelines): Option<SpacingRule> {
    match FindFirst(g.spacingRules, (r: SpacingRule) => r.id == SPACING_SYSTEM)
    case None => None
    case Some(k) => Some(g.spacingRules[k])
  }

  /** The rule checked is the first one carrying the expected id; none means no such rule exists. */
  lemma RuleLookup(g: Guidelines)
    ensures ColorRuleOf(g).Some? <==> exists i :: 0 <= i < |g.colorRules| && g.colorRules[i].id == BRAND_COLORS
    ensures ColorRuleOf(g).Some? ==>
      exists i :: 0 <= i < |g.colorRules| && g.colorRules[i] == ColorRuleOf(g).value
        && (forall j :: 0 <= j < i ==> g.colorRules[j].id != BRAND_COLORS)
    ensures TypographyRuleOf(g).Some? <==> exists i :: 0 <= i < |g.typographyRules| && g.typographyRules[i].id == HEADING_TYPOGRAPHY
    ensures SpacingRuleOf(g).Some? <==> exists i :: 0 <= i < |g.spacingRules| && g.spacingRules[i].id == SPACING_SYSTEM
    ensures ColorRuleOf(g).Some? ==> ColorRuleOf(g).value.id == BRAND_COLORS
    ensures TypographyRuleOf(g).Some? ==> TypographyRuleOf(g).value.id == HEADING_TYPOGRAPHY
    ensures SpacingRuleOf(g).Some? ==> SpacingRuleOf(g).value.id == SPACING_SYSTEM
  {
    var pc := (r: ColorRule) => r.id == BRAND_COLORS;
    var pt := (r: TypographyRule) => r.id == HEADING_TYPOGRAPHY;
    var ps := (r: SpacingRule) => r.id == SPACING_SYSTEM;
    var kc := FindFirst(g.colorRules, pc);
    var kt := FindFirst(g.typographyRules, pt);
    var ks := FindFirst(g.spacingRules, ps);
    if kc.Some? {
      assert pc(g.colorRules[kc.value]);
    } else {
      forall i | 0 <= i < |g.colorRules| ensures g.colorRules[i].id != BRAND_COLORS { assert !pc(g.colorRules[i]); }
    }
    if kt.Some? {
      assert pt(g.typographyRules[kt.value]);
    } else {
      forall i | 0 <= i < |g.typographyRules| ensures g.typographyRules[i].id != HEADING_TYPOGRAPHY { assert !pt(g.typographyRules[i]); }
    }
    if ks.Some? {
      assert ps(g.spacingRules[ks.value]);
    } else {
      forall i | 0 <= i < |g.spacingRules| ensures g.spacingRules[i].id != SPACING_SYSTEM { assert !ps(g.spacingRules[i]); }
    }
  }

  // ----- colours -----

  /** `colorRule.colors.some(c => c.toLowerCase() === hex.toLowerCase())` */
  predicate IsApproved(rule: ColorRule, hex: string) {
    exists i :: 0 <= i < |rule.colors| && Lower(rule.colors[i]) == Lower(hex)
  }

  function ColorIssue(rule: ColorRule, color: ColorData): ComplianceIssue {
    ComplianceIssue(rule.id, rule.name, rule.severity, ColorNotInPalette(color.hex, rule.colors))
  }

  /** The issues the `forEach` over `colors` pushes. */
  function ColorIssues(rule: ColorRule, colors: seq<ColorData>): seq<ComplianceIssue> {
    if colors == [] then []
    else
      var last := colors[|colors| - 1];
      ColorIssues(rule, colors[..|colors| - 1]) + (if IsApproved(rule, last.hex) then [] else [ColorIssue(rule, last)])
  }

  function CountUnapproved(rule: ColorRule, colors: seq<ColorData>): nat {
    if colors == [] then 0
    else CountUnapproved(rule, colors[..|colors| - 1]) + (if IsApproved(rule, colors[|colors| - 1].hex) then 0 else 1)
  }

  /** A colour outside the palette, as a filter. */
  function Unapproved(rule: ColorRule): ColorData -> bool {
    (c: ColorData) => !IsApproved(rule, c.hex)
  }

  /** `checkColors(colors)` */
  function ColorCheck(g: Guidelines, colors: seq<ColorData>): seq<ComplianceIssue> {
    match ColorRuleOf(g)
    case None => []
    case Some(rule) => ColorIssues(rule, colors)
  }

  /** The `forEach` loop of `checkColors`. */
  method PushColorIssues(rule: ColorRule, colors: seq<ColorData>) returns (issues: seq<ComplianceIssue>)
    ensures issues == ColorIssues(rule, colors)
  {
    issues := [];
    var i := 0;
    while i < |colors|
      invariant 0 <= i <= |colors|
      invariant issues == ColorIssues(rule, colors[..i])
    {
      assert colors[..i + 1][..i] == colors[..i];
      var approved := exists j :: 0 <= j < |rule.colors| && Lower(rule.colors[j]) == Lower(colors[i].hex);
      if !approved {
        issues := issues + [ColorIssue(rule, colors[i])];
      }
      i := i + 1;
    }
    assert colors[..i] == colors;
  }

  /** `checkColors(colors)` */
  method CheckColors(g: Guidelines, colors: seq<ColorData>) returns (issues: seq<ComplianceIssue>)
    ensures issues == ColorCheck(g, colors)
  {
    var colorRule := ColorRuleOf(g);
    if colorRule.None? {
      return [];
    }
    issues := PushColorIssues(colorRule.value, colors);
  }

  /**
   * One issue per colour outside the palette, in input order, each naming its
   * colour and carrying the rule's id, name and severity; none for an
   * approved colour.
   */
  lemma {:induction false} ColorIssuesSpec(rule: ColorRule, colors: seq<ColorData>)
    ensures |ColorIssues(rule, colors)| == CountUnapproved(rule, colors)
    ensures forall k :: 0 <= k < |ColorIssues(rule, colors)| ==>
      exists i :: 0 <= i < |colors| && !IsApproved(rule, colors[i].hex) && ColorIssues(rule, colors)[k] == ColorIssue(rule, colors[i])
    ensures forall i :: 0 <= i < |colors| && !IsApproved(rule, colors[i].hex) ==> ColorIssue(rule, colors[i]) in ColorIssues(rule, colors)
  {
    if colors != [] {
      var front := colors[..|colors| - 1];
      ColorIssuesSpec(rule, front);
      var issues := ColorIssues(rule, colors);
      var fi := ColorIssues(rule, front);
      forall k | 0 <= k < |issues|
        ensures exists i :: 0 <= i < |colors| && !IsApproved(rule, colors[i].hex) && issues[k] == ColorIssue(rule, colors[i])
      {
        if k < |fi| {
          var i :| 0 <= i < |front| && !IsApproved(rule, front[i].hex) && fi[k] == ColorIssue(rule, front[i]);
          assert colors[i] == front[i];
        } else {
          assert issues[k] == ColorIssue(rule, colors[|colors| - 1]);
        }
      }
      forall i | 0 <= i < |colors| && !IsApproved(rule, colors[i].hex)
        ensures ColorIssue(rule, colors[i]) in issues
      {
        if i < |front| {
          assert colors[i] == front[i];
        } else {
          assert issues[|issues| - 1] == ColorIssue(rule, colors[i]);
        }
      }
    }
  }

  /**
   * The issues follow the colours one to one and in input order: the k-th
   * issue is the issue of the k-th colour outside the palette.
   */
  lemma {:induction false} ColorIssuesInOrder(rule: ColorRule, colors: seq<ColorData>)
    ensures |ColorIssues(rule, colors)| == |Positions(Unapproved(rule), colors)|
    ensures forall k :: 0 <= k < |ColorIssues(rule, colors)| ==>
      ColorIssues(rule, colors)[k] == ColorIssue(rule, colors[Positions(Unapproved(rule), colors)[k]])
  {
    if colors != [] {
      var front := colors[..|colors| - 1];
      ColorIssuesInOrder(rule, front);
      var issues := ColorIssues(rule, colors);
      var fi := ColorIssues(rule, front);
      var idx := Positions(Unapproved(rule), colors);
      var fidx := Positions(Unapproved(rule), front);
      forall k | 0 <= k < |issues|
        ensures issues[k] == ColorIssue(rule, colors[idx[k]])
      {
        if k < |fi| {
          assert issues[k] == fi[k] && idx[k] == fidx[k];
          assert colors[fidx[k]] == front[fidx[k]];
        }
      }
    }
  }

  /** Approval ignores case on both sides of the comparison. */
  lemma ApprovalIgnoresCase(rule: ColorRule, hex: string)
    ensures IsApproved(rule, Upper(hex)) <==> IsApproved(rule, hex)
    ensures IsApproved(rule, Lower(hex)) <==> IsApproved(rule, hex)
  {
    LowerOfUpper(hex);
    LowerIdempotent(hex);
  }

  lemma LowerIdempotent(s: string)
    ensures Lower(Lower(s)) == Lower(s)
  {
  }

  /**
   * An extracted colour (upper-case hex) is approved exactly when some
   * palette entry, lower-cased, is the design extractor's lower-case spelling
   * of it.
   */
  lemma {:induction false} ExtractedColorApproval(rule: ColorRule, c: Rgb)
    ensures IsApproved(rule, ColorRgbToHex(c)) <==>
      exists i :: 0 <= i < |rule.colors| && Lower(rule.colors[i]) == DesignRgbToHex(c)
  {
    ServerHexesAgree(c);
  }

  // ----- typography -----

  /** `allowedFonts.includes(family)`: an exact, case-sensitive match. */
  predicate FontApproved(rule: TypographyRule, family: string) {
    family in rule.allowedFonts
  }

  predicate SizeOutOfRange(rule: TypographyRule, size: real) {
    size < rule.minSize || size > rule.maxSize
  }

  /** The issues one text style raises: the font first, then the size. */
  function StyleIssues(rule: TypographyRule, t: TypographyData): seq<ComplianceIssue> {
    (if FontApproved(rule, t.fontFamily) then []
     else [ComplianceIssue(rule.id, rule.name, rule.severity, FontNotApproved(t.fontFamily, rule.allowedFonts))])
    + (if SizeOutOfRange(rule, t.fontSize) then
         [ComplianceIssue(rule.id, rule.name, rule.severity, FontSizeOutOfRange(t.fontSize, rule.minSize, rule.maxSize))]
       else [])
  }

  function TypographyIssues(rule: TypographyRule, ts: seq<TypographyData>): seq<ComplianceIssue> {
    if ts == [] then [] else TypographyIssues(rule, ts[..|ts| - 1]) + StyleIssues(rule, ts[|ts| - 1])
  }

  /** `checkTypography(typography)` */
  function TypographyCheck(g: Guidelines, ts: seq<TypographyData>): seq<ComplianceIssue> {
    match TypographyRuleOf(g)
    case None => []
    case Some(rule) => TypographyIssues(rule, ts)
  }

  /** The `forEach` loop of `checkTypography`. */
  method PushTypographyIssues(rule: TypographyRule, ts: seq<TypographyData>) returns (issues: seq<ComplianceIssue>)
    ensures issues == TypographyIssues(rule, ts)
  {
    issues := [];
    var i := 0;
    while i < |ts|
      invariant 0 <= i <= |ts|
      invariant issues == TypographyIssues(rule, ts[..i])
    {
      assert ts[..i + 1][..i] == ts[..i];
      ghost var before := issues;
      var typo := ts[i];
      if typo.fontFamily !in rule.allowedFonts {
        issues := issues + [ComplianceIssue(rule.id, rule.name, rule.severity, FontNotApproved(typo.fontFamily, rule.allowedFonts))];
      }
      if typo.fontSize < rule.minSize || typo.fontSize > rule.maxSize {
        issues := issues + [ComplianceIssue(rule.id, rule.name, rule.severity, FontSizeOutOfRange(typo.fontSize, rule.minSize, rule.maxSize))];
      }
      assert issues == before + StyleIssues(rule, typo);
      i := i + 1;
    }
    assert ts[..i] == ts;
  }

  /** `checkTypography(typography)` */
  method CheckTypography(g: Guidelines, ts: seq<TypographyData>) returns (issues: seq<ComplianceIssue>)
    ensures issues == TypographyCheck(g, ts)
  {
    var typoRule := TypographyRuleOf(g);
    if typoRule.None? {
      return [];
    }
    issues := PushTypographyIssues(typoRule.value, ts);
  }

  /**
   * A text style raises a font issue exactly when its family is not listed
   * verbatim, and a size issue exactly when its size lies outside
   * [minSize, maxSize]; when both, the font issue comes first.
   */
  lemma StyleIssuesSpec(rule: TypographyRule, t: TypographyData)
    ensures var found := StyleIssues(rule, t);
      && |found| == (if FontApproved(rule, t.fontFamily) then 0 else 1) + (if SizeOutOfRange(rule, t.fontSize) then 1 else 0)
      && (forall k :: 0 <= k < |found| ==> found[k].ruleId == rule.id && found[k].ruleName == rule.name && found[k].severity == rule.severity)
      && ((exists k :: 0 <= k < |found| && found[k].message.FontNotApproved?) <==> !FontApproved(rule, t.fontFamily))
      && ((exists k :: 0 <= k < |found| && found[k].message.FontSizeOutOfRange?) <==> SizeOutOfRange(rule, t.fontSize))
      && (!FontApproved(rule, t.fontFamily) ==> found[0].message == FontNotApproved(t.fontFamily, rule.allowedFonts))
      && (SizeOutOfRange(rule, t.fontSize) ==> found[|found| - 1].message == FontSizeOutOfRange(t.fontSize, rule.minSize, rule.maxSize))
  {
    var found := StyleIssues(rule, t);
    if !FontApproved(rule, t.fontFamily) {
      assert found[0].message.FontNotApproved?;
    }
    if SizeOutOfRange(rule, t.fontSize) {
      assert found[|found| - 1].message.FontSizeOutOfRange?;
    }
  }

  function CountFontIssues(rule: TypographyRule, ts: seq<TypographyData>): nat {
    if ts == [] then 0
    else CountFontIssues(rule, ts[..|ts| - 1]) + (if FontApproved(rule, ts[|ts| - 1].fontFamily) then 0 else 1)
  }

  function CountSizeIssues(rule: TypographyRule, ts: seq<TypographyData>): nat {
    if ts == [] then 0
    else CountSizeIssues(rule, ts[..|ts| - 1]) + (if SizeOutOfRange(rule, ts[|ts| - 1].fontSize) then 1 else 0)
  }

  /** Over a list, the issues number the unlisted families plus the out-of-range sizes. */
  lemma {:induction false} TypographyIssuesCount(rule: TypographyRule, ts: seq<TypographyData>)
    ensures |TypographyIssues(rule, ts)| == CountFontIssues(rule, ts) + CountSizeIssues(rule, ts)
  {
    if ts != [] {
      TypographyIssuesCount(rule, ts[..|ts| - 1]);
      StyleIssuesSpec(rule, ts[|ts| - 1]);
    }
  }

  /** Font names are compared verbatim: a family differing only in case is not approved. */
  lemma FontMatchIsCaseSensitive()
    ensures !FontApproved(TypographyRule(HEADING_TYPOGRAPHY, "Headings", "error", ["Inter"], 12.0, 48.0), "inter")
  {
    assert "inter"[0] != "Inter"[0];
  }

  // ----- spacing -----

  /** `allowedMultiples.some(m => spacing === baseUnit * m)` */
  predicate OnGrid(rule: SpacingRule, spacing: real) {
    exists i :: 0 <= i < |rule.allowedMultiples| && spacing == rule.baseUnit * rule.allowedMultiples[i]
  }

  /** `allowedMultiples.map(m => m * baseUnit)`, the values the message suggests. */
  function AllowedValues(rule: SpacingRule, ms: seq<real>): (vs: seq<real>)
    ensures |vs| == |ms|
    ensures forall i :: 0 <= i < |ms| ==> vs[i] == ms[i] * rule.baseUnit
  {
    if ms == [] then [] else [ms[0] * rule.baseUnit] + AllowedValues(rule, ms[1..])
  }

  /**
   * `checkSpacing(layout)`: at most one issue, raised exactly when a spacing
   * rule exists, the layout has an item spacing, and that spacing is no
   * allowed multiple of the base unit.
   */
  function CheckSpacing(g: Guidelines, layout: LayoutData): (issues: seq<ComplianceIssue>)
    ensures |issues| <= 1
    ensures |issues| == 1 <==>
      SpacingRuleOf(g).Some? && layout.spacing.Some? && !OnGrid(SpacingRuleOf(g).value, layout.spacing.value)
    ensures |issues| == 1 ==>
      var rule := SpacingRuleOf(g).value;
      issues[0] == ComplianceIssue(rule.id, rule.name, rule.severity,
        SpacingOffGrid(layout.spacing.value, AllowedValues(rule, rule.allowedMultiples)))
  {
    match SpacingRuleOf(g)
    case None => []
    case Some(rule) =>
      if layout.spacing.None? || OnGrid(rule, layout.spacing.value) then []
      else [ComplianceIssue(rule.id, rule.name, rule.severity,
              SpacingOffGrid(layout.spacing.value, AllowedValues(rule, rule.allowedMultiples)))]
  }

  /** Every suggested value passes the check. */
  lemma {:induction false} SuggestedValuesOnGrid(rule: SpacingRule, i: nat)
    requires i < |rule.allowedMultiples|
    ensures OnGrid(rule, AllowedValues(rule, rule.allowedMultiples)[i])
  {
    assert AllowedValues(rule, rule.allowedMultiples)[i] == rule.baseUnit * rule.allowedMultiples[i];
  }

  // ----- all checks -----

  /** `checkAll(data)`: colour issues, then typography issues, then spacing issues when there is a layout. */
  function AllIssues(g: Guidelines, data: CheckInput): seq<ComplianceIssue> {
    ColorCheck(g, data.colors) + TypographyCheck(g, data.typography)
    + (if data.layout.Some? then CheckSpacing(g, data.layout.value) else [])
  }

  /** `checkAll(data)` */
  method CheckAll(g: Guidelines, data: CheckInput) returns (issues: seq<ComplianceIssue>)
    ensures issues == AllIssues(g, data)
  {
    issues := [];
    var colorIssues := CheckColors(g, data.colors);
    issues := issues + colorIssues;
    var typographyIssues := CheckTypography(g, data.typography);
    issues := issues + typographyIssues;
    if data.layout.Some? {
      issues := issues + CheckSpacing(g, data.layout.value);
    }
  }

  /**
   * The issues `checkAll` reports: as many as the colours outside the palette,
   * the unlisted families and out-of-range sizes, and the off-grid spacing;
   * with no rules at all there are none.
   */
  lemma {:induction false} AllIssuesSpec(g: Guidelines, data: CheckInput)
    ensures |AllIssues(g, data)| ==
      (if ColorRuleOf(g).Some? then CountUnapproved(ColorRuleOf(g).value, data.colors) else 0)
      + (if TypographyRuleOf(g).Some?
         then CountFontIssues(TypographyRuleOf(g).value, data.typography) + CountSizeIssues(TypographyRuleOf(g).value, data.typography)
         else 0)
      + (if data.layout.Some? && SpacingRuleOf(g).Some? && data.layout.value.spacing.Some?
            && !OnGrid(SpacingRuleOf(g).value, data.layout.value.spacing.value) then 1 else 0)
    ensures g == Guidelines([], [], []) ==> AllIssues(g, data) == []
  {
    if ColorRuleOf(g).Some? {
      ColorIssuesSpec(ColorRuleOf(g).value, data.colors);
    }
    if TypographyRuleOf(g).Some? {
      TypographyIssuesCount(TypographyRuleOf(g).value, data.typography);
    }
  }
}
