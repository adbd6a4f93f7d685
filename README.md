# Brand-compliance engine for Figma designs — a Dafny model

The repository checks Figma designs against brand rules. It has two engines
and a few URL helpers. The Dafny project models all three and proves what
each one promises.

- **Plugin engine** (`packages/figma-plugin/src/code.ts`):
  - Walks the selected scene nodes.
  - Reports colour, typography and spacing violations against the brand
    guidelines, and turns them into a 0–100 score.
  - Also provides the design-data walks: colours, typography, layout,
    components, images, structure and spacing.
- **Shared utilities** (`packages/shared/src/complianceUtils.ts`): hex/RGB
  conversion, RGB distance, the nearest palette colour, the spacing grid,
  font-name matching and the severity-weighted score.
  - The plugin carries a copy of them at `code.ts:583-719` that is identical
    line for line. The model defines each utility once, and the plugin
    modules use that single definition.
- **Server engine** (`src/extractors/*.ts`, `src/utils/complianceChecker.ts`):
  - Per-node extractors over REST document nodes.
  - A rule checker driven by a guidelines file.
- **URL helpers** (`packages/shared/src/validators.ts`): recognising Figma
  file URLs and reading the file key and the node id out of them.

## How the source is represented

- **Nodes.** Scene nodes (`Scene.SceneNode`) and REST document nodes
  (`DocTree.DocNode`) are finite datatypes.
  - A key probed with `'x' in node` or read as `node.x` becomes an `Option`.
  - `children` is a plain sequence: a missing key and an empty array
    behave the same in every walk.
  - A Figma "mixed" value (a `symbol`) is `Mixable.Mixed`.
  - `fills`/`strokes` of a scene node are `None` both when absent and when
    mixed, since the plugin skips both.
- **Walks.** Every walk pushes into one shared array. The model threads that
  array through a method as `acc`/`out`.
  - `Visit`/`Traverse` ensure `out == acc + Collect(f, node)`: existing
    entries are kept and only appended to.
  - The lemmas `CollectIsPreOrder` show that `Collect` is `f` applied over
    the depth-first pre-order of the tree.
  - `Scene` and `DocTree` each define this walk (`PreOrder`, `Collect`,
    `FlatMap`, `Count`) over their own node type. A walk generic over the
    node type would need the children function as a parameter, and Dafny
    cannot prove termination through an arbitrary function, so each tree
    type has its own copy.
- **Filters and `forEach` pushes.** `SeqLemmas.Positions(p, s)` is the
  increasing sequence of the positions of `s` whose element satisfies `p`.
  Its contract fixes it uniquely: strictly increasing, only matching
  positions, and every matching position. Each filter or conditional push
  over a list is tied to it: the k-th output is built from the element at the
  k-th matching position, so order and multiplicity are both stated.
- **`extractAllColors`.** The `Map` is a sequence of records in insertion
  order. Updating an existing key replaces its record in place.
  - The sort is a stable insertion sort by `count`, non-increasing.
  - `Array.prototype.sort` is stable, so the order among equal counts is the
    insertion order. The model keeps that order, and
    `ColorTally.SortByCountSpec` states it.
- **Numbers.**
  - Pixel lengths are `real`, so values are exact.
  - JavaScript `v % s === 0` is `Grid.IsMultipleOf`.
  - Colour components lie in [0, 1], and `Math.round(n * 255)` is
    `floor(n * 255 + 0.5)`.
  - Colour distance is kept squared (an integer). `Infinity` is the
    `Infinite` constructor, and `d <= tolerance` is compared on squares.
- **Messages.** Violation and issue messages are datatypes that carry the
  values the source interpolates. Number formatting is not modelled.
- **Inputs.**
  - The guidelines file that `complianceChecker.ts` imports is the parameter
    `ComplianceChecker.Guidelines`.
  - The plugin's brand guidelines object is `Palette.BrandGuidelines`.
  - `figma.currentPage.selection` is a sequence parameter.
- **Severities.** The model has exactly the three severities error, warning
  and info, so "an unknown severity deducts nothing" holds vacuously.
- **Case conversion.** `toLowerCase`/`toUpperCase` convert ASCII letters only.
  That is exact for hex strings. For font names it is an approximation (see
  Left out).
- **Where the code and its description differ.** The server's `checkColors`
  compares hex strings case-insensitively (`toLowerCase` on both sides), not
  by exact equality. The model follows the code; see
  `ComplianceChecker.ApprovalIgnoresCase`.

## Model

| member | source | states |
|---|---|---|
| HexColor.RgbToHexShape | packages/shared/src/complianceUtils.ts:6-12 | `rgbToHex` writes '#' and six upper-case hex digits |
| HexColor.ChannelHexDigits | packages/shared/src/complianceUtils.ts:7-10 | each channel becomes two upper-case digits whose value is the rounded channel, zero-padded |
| HexColor.HexRoundTrip | packages/shared/src/complianceUtils.ts:6-24 | parsing `rgbToHex`'s output gives back the three rounded channels |
| HexColor.HexToRgb | packages/shared/src/complianceUtils.ts:17-24 | a result exists exactly for an optional '#' followed by exactly six hex digits |
| HexColor.HexToRgbIgnoresCase | packages/shared/src/complianceUtils.ts:18 | parsing is case-insensitive: upper-casing the input changes nothing |
| HexColor.ColorDistance | packages/shared/src/complianceUtils.ts:30-41 | Infinity exactly when either hex fails to parse; otherwise the squared distance is at most 3·255² (distance ≤ ~441.7) |
| HexColor.DistanceToSelf | packages/shared/src/complianceUtils.ts:30-41 | a parseable colour is at distance 0 from itself |
| HexColor.DistanceSymmetric | packages/shared/src/complianceUtils.ts:30-41 | the distance is symmetric |
| HexColor.DistanceZeroIffSameChannels | packages/shared/src/complianceUtils.ts:30-41 | the distance is 0 exactly when both parse to the same channels |
| Palette.ScanIsMinimal | packages/shared/src/complianceUtils.ts:55-61 | the running minimum is at most every palette entry's distance |
| Palette.ScanInfinite | packages/shared/src/complianceUtils.ts:52-61 | the minimum stays Infinity, and the closest colour '', exactly when no entry parses |
| Palette.ScanChoosesFirstNearest | packages/shared/src/complianceUtils.ts:56-60 | with the strict `<`, the closest colour is the first entry reaching the minimum |
| Palette.NearestSpec | packages/shared/src/complianceUtils.ts:47-68 | `matches` holds iff the minimum distance is within the tolerance; the closest colour is the first minimiser; `distance` is the minimum |
| Palette.EmptyPaletteNoMatch | packages/shared/src/complianceUtils.ts:52-67 | an empty palette gives no match, closest colour '' and distance Infinity |
| Palette.IsColorInBrandPalette | packages/shared/src/complianceUtils.ts:47-68 | the loop with its running minimum computes the specified result |
| Palette.ExtractBrandColors | packages/shared/src/complianceUtils.ts:73-84 | at most three non-empty swatches, none without a palette |
| Palette.BrandColorsInOrder | packages/shared/src/complianceUtils.ts:76-81 | the swatches present come in the order skyviewBlue, offBlack, white |
| Palette.ExtractBrandFonts | packages/shared/src/complianceUtils.ts:89-102 | 'American Grotesk' occurs exactly once; the primary font, when set, comes first; nothing else is added |
| Grid.OnGridIsHalfUnitMultiple | packages/shared/src/complianceUtils.ts:107-109 | `isOnGrid(v, u)` is equivalent to `v` being a multiple of `u/2` (the multiple-of-`u` case is implied) |
| Grid.HalfUnitMultiplesOnGrid | packages/shared/src/complianceUtils.ts:107-109 | every multiple of half a non-zero base unit is on the grid |
| Grid.GridValues | packages/shared/src/complianceUtils.ts:115 | the candidates are `baseUnit·m` for m in [0.5, 1, 1.5, 2, 3, 4, 6, 8], in order |
| Grid.ClosestGridValueSpec | packages/shared/src/complianceUtils.ts:114-129 | the result is `baseUnit·m` for an allowed multiple; no candidate is strictly closer; a tie with the seed `baseUnit` keeps the seed; otherwise the result is the first candidate at the least distance (every earlier candidate is strictly farther) |
| Grid.GetClosestGridValue | packages/shared/src/complianceUtils.ts:114-129 | the loop with its running best computes the specified value |
| Grid.ClosestGridValueExamples | packages/shared/src/complianceUtils.ts:114-129 | with base 8: 10 gives 8, 6 gives 8 (not 4), 13 gives 12 |
| Grid.ClosestGridValueTieExample | packages/shared/src/complianceUtils.ts:119-126 | with base 8, 20 is 4 from both 16 and 24 and gives 16, the earlier candidate |
| Scoring.CalculateComplianceScore | packages/shared/src/complianceUtils.ts:134-154 | the deduction loop computes the specified score |
| Scoring.TotalDeductionByCounts | packages/shared/src/complianceUtils.ts:139-151 | the deduction is 15 per error, 8 per warning and 3 per info |
| Scoring.ComplianceScoreFormula | packages/shared/src/complianceUtils.ts:134-154 | 100 for no violations, else max(0, 100 − 15e − 8w − 3i); always in [0, 100] |
| Scoring.ScoreNeverRises | packages/shared/src/complianceUtils.ts:134-154 | appending violations never raises the score |
| Scoring.NonEmptyScoresBelowHundred | packages/shared/src/complianceUtils.ts:134-154 | any violation brings the score below 100 |
| Scoring.TotalDeductionAppend | packages/shared/src/complianceUtils.ts:139-151 | deductions add up over concatenation |
| Fonts.NormalizeFontName | packages/shared/src/complianceUtils.ts:159-164 | the normalised name has no whitespace, no '-' and no upper-case letter |
| Fonts.NormalizeIdempotent | packages/shared/src/complianceUtils.ts:159-164 | normalising twice equals normalising once |
| Fonts.RemoveWhitespace | packages/shared/src/complianceUtils.ts:162 | removes every JavaScript `\s` character, adds none, and keeps every other character as often as it occurs |
| Fonts.RemoveHyphens | packages/shared/src/complianceUtils.ts:163 | removes every '-', adds nothing, and keeps every other character as often as it occurs |
| Fonts.BrandFontEdgeCases | packages/shared/src/complianceUtils.ts:169-175 | false for an empty font list; true for an empty family with a non-empty list |
| Fonts.BrandFontSeesNormalizedName | packages/shared/src/complianceUtils.ts:169-175 | normalising the family first does not change the answer |
| Scene.CollectIsPreOrder | packages/figma-plugin/src/code.ts:187-287 | the recursive walk emits `f` over the nodes in depth-first pre-order |
| Scene.CollectAllIsPreOrder | packages/figma-plugin/src/code.ts:369 | walking a list of roots emits `f` over their concatenated pre-orders |
| Scene.NodeBeforeDescendants | packages/figma-plugin/src/code.ts:187-287 | a node's own entries precede those of its children, and earlier children precede later ones |
| Scene.CollectAllPrefix | packages/figma-plugin/src/code.ts:362-366 | the entries of the first k children are a prefix of the whole walk |
| Scene.Visit | packages/figma-plugin/src/code.ts:322-367 | the recursive walk only appends to the shared array: `out == acc + Collect(f, node)` |
| Scene.VisitAll | packages/figma-plugin/src/code.ts:369 | the walk over the selection yields the collected entries of all roots |
| Scene.FlatMapOfOptional | packages/figma-plugin/src/code.ts:376-393 | pushing one record per matching node is mapping over the filtered pre-order |
| Scene.Filter | packages/figma-plugin/src/code.ts:377 | one kept node per node satisfying the test, in order: the k-th kept node is the node at the k-th matching position |
| PluginExtract.VisibleSolids | packages/figma-plugin/src/code.ts:95-97 | exactly the SOLID paints without `visible: false` are kept, in order: the k-th kept paint is the paint at the k-th visible solid position |
| PluginExtract.ColorOf | packages/figma-plugin/src/code.ts:98-103 | alpha is `opacity ?? 1` |
| PluginExtract.NodeColors | packages/figma-plugin/src/code.ts:94-106 | one record per visible solid fill, none without fills |
| PluginExtract.ExtractColorsFromSelection | packages/figma-plugin/src/code.ts:90-120 | the colours of every selected node in pre-order |
| PluginExtract.ZeroOpacityKept | packages/figma-plugin/src/code.ts:102 | an opacity of 0 stays 0 (`??`, not `\|\|`) |
| PluginExtract.SelectionTypographyOf | packages/figma-plugin/src/code.ts:128-135 | a single font gives its family, style (as weight) and size; a mixed font name gives 'Mixed' family and weight, a mixed size 0; a single line height or letter spacing is copied, a mixed one left undefined |
| PluginExtract.ExtractTypographyFromSelection | packages/figma-plugin/src/code.ts:123-150 | one record per TEXT node, in pre-order |
| PluginExtract.TypographyRecordOf | packages/figma-plugin/src/code.ts:377-392 | id and name copied; family and style are the font's own, or 'Mixed' when it is mixed; size is the node's own, absent ('Mixed') iff mixed or 0; line height and letter spacing copied, absent ('Auto', 0) iff mixed; alignment copied; `characters` is the first at most 100 characters; text case '' becomes 'ORIGINAL' |
| PluginExtract.ExtractAllTypography | packages/figma-plugin/src/code.ts:373-404 | one record per TEXT node, in pre-order |
| PluginExtract.ExtractComponentInfo | packages/figma-plugin/src/code.ts:432-454 | one record per COMPONENT, COMPONENT_SET or INSTANCE node, in pre-order, carrying that node's name, type, id and description |
| PluginExtract.ImageFills | packages/figma-plugin/src/code.ts:461-473 | one record per IMAGE fill (visible or not), each naming the node |
| PluginExtract.ImageFillsFromPaints | packages/figma-plugin/src/code.ts:463-470 | one record per IMAGE fill, in order: the k-th record carries the scale mode and hash of the fill at the k-th IMAGE position |
| PluginExtract.ExtractImageInfo | packages/figma-plugin/src/code.ts:456-484 | the image records of every node, in pre-order |
| PluginExtract.SpacingInfoOf | packages/figma-plugin/src/code.ts:510-535 | padding and item spacing copied; corner radius only when not mixed; kept iff any of the three is present |
| PluginExtract.ExtractSpacingInfo | packages/figma-plugin/src/code.ts:506-546 | one record per node with spacing information, in pre-order |
| PluginStructure.LayoutOf | packages/figma-plugin/src/code.ts:407-429 | name, type and geometry copied; auto-layout fields present iff the node has auto layout |
| PluginStructure.ExtractLayoutInfo | packages/figma-plugin/src/code.ts:406-430 | one layout per given node, in order |
| PluginStructure.LayoutIgnoresChildren | packages/figma-plugin/src/code.ts:406-430 | only the given nodes are described, not their descendants |
| PluginStructure.BuildTree | packages/figma-plugin/src/code.ts:487-501 | each child has depth + 1; `childCount` equals the number of children, and both appear only with at least one child |
| PluginStructure.ExtractStructure | packages/figma-plugin/src/code.ts:486-504 | one tree per root, each at depth 0 |
| PluginStructure.StructureCoversTree | packages/figma-plugin/src/code.ts:487-501 | the tree has exactly one entry per node of the subtree |
| PluginStructure.StructureCoversForest | packages/figma-plugin/src/code.ts:503 | the forest has exactly one entry per node under the roots |
| ColorTally.Find | packages/figma-plugin/src/code.ts:328 | `colorSet.get(hex)`: a found record has that hex; none means no record has it |
| ColorTally.TallyAllAppend | packages/figma-plugin/src/code.ts:322-369 | tallying two runs is tallying the first, then the second |
| ColorTally.TallyAllSummarises | packages/figma-plugin/src/code.ts:322-369 | the map holds one record per distinct hex; its count is the number of occurrences; its usage list has no duplicates and lists exactly the usages seen; counts total the occurrences |
| ColorTally.TallyNewKey | packages/figma-plugin/src/code.ts:328-331 | inserting a new hex keeps the summary invariant |
| ColorTally.TallyKnownKey | packages/figma-plugin/src/code.ts:328-331 | bumping a known hex keeps the summary invariant |
| ColorTally.SortByCount | packages/figma-plugin/src/code.ts:370 | the sort is a permutation of the records |
| ColorTally.SortByCountSpec | packages/figma-plugin/src/code.ts:370 | sorted by count, non-increasing; records with equal counts keep their order; total count unchanged |
| ColorTally.TallyAllFirstSeen | packages/figma-plugin/src/code.ts:322-369 | the map's records come in the order their hexes first occur |
| ColorTally.WithCountKeepsOrder | packages/figma-plugin/src/code.ts:370 | the records of one count keep an order by first occurrence |
| ColorTally.EqualCountsInOrder | packages/figma-plugin/src/code.ts:370 | records of equal count stand in the order of their per-count lists |
| ColorTally.SortByCountDistinct | packages/figma-plugin/src/code.ts:370 | sorting keeps hexes distinct |
| ColorTally.InsertSorted | packages/figma-plugin/src/code.ts:370 | inserting into a sorted list keeps it sorted |
| ColorTally.InsertStable | packages/figma-plugin/src/code.ts:370 | an inserted record goes after the records of equal count |
| PluginColors.PaintOccurrences | packages/figma-plugin/src/code.ts:324-359 | one occurrence per counted paint, all with the list's usage |
| PluginColors.PaintOccurrencesInOrder | packages/figma-plugin/src/code.ts:324-359 | one to one and in list order: the k-th occurrence is the hex of the paint at the k-th counted position, under the list's usage |
| PluginColors.NodeOccurrencesCount | packages/figma-plugin/src/code.ts:322-360 | visible solid fills and strokes, plus every solid fill of a TEXT node a second time |
| PluginColors.HiddenTextFill | packages/figma-plugin/src/code.ts:350-359 | a hidden solid fill of a TEXT node is still counted as 'text' |
| PluginColors.TallyPaints | packages/figma-plugin/src/code.ts:325-333 | the loop over one paint list tallies its occurrences |
| PluginColors.ProcessNode | packages/figma-plugin/src/code.ts:322-367 | the recursive walk tallies the occurrences of the subtree in pre-order |
| PluginColors.ExtractAllColors | packages/figma-plugin/src/code.ts:319-371 | the result is the sorted tally of all occurrences |
| PluginColors.AllColorsSpec | packages/figma-plugin/src/code.ts:319-371 | one record per distinct hex; a hex appears iff it occurs; counts exact; usage duplicate-free and exact; non-increasing counts; of two records with equal count, the earlier one's hex occurs in the walk before any occurrence of the later one's; counts total the occurrences |
| PluginCompliance.BaseUnit | packages/figma-plugin/src/code.ts:236 | a set, non-zero base unit is kept; a missing or zero one becomes 8 |
| PluginCompliance.CheckFill | packages/figma-plugin/src/code.ts:197-214 | one fill's check appends its violation, if any |
| PluginCompliance.CheckFills | packages/figma-plugin/src/code.ts:195-215 | the fill loop appends the fills' violations in order |
| PluginCompliance.CheckText | packages/figma-plugin/src/code.ts:218-248 | the text checks append their violations |
| PluginCompliance.CheckSpacing | packages/figma-plugin/src/code.ts:251-279 | the padding and item-spacing checks append their violations |
| PluginCompliance.CheckOwn | packages/figma-plugin/src/code.ts:195-279 | a node's own checks append fill, then text, then spacing violations |
| PluginCompliance.AnalyzeNode | packages/figma-plugin/src/code.ts:187-287 | appends the subtree's violations, leaving existing entries unchanged |
| PluginCompliance.CheckBrandCompliance | packages/figma-plugin/src/code.ts:153-185 | computes the specified result |
| PluginCompliance.BrandComplianceSpec | packages/figma-plugin/src/code.ts:153-185 | empty selection: one component/error "No nodes selected" violation, score 0, not compliant; otherwise compliant iff no violations and score = the weighted score; score in [0, 100]; 100 iff compliant |
| PluginCompliance.ViolationsInPreOrder | packages/figma-plugin/src/code.ts:170-176 | the violations are the per-node violations over the selection's pre-order |
| PluginCompliance.TreeViolationsInPreOrder | packages/figma-plugin/src/code.ts:281-286 | children are visited whether or not the node produced violations, in pre-order |
| PluginCompliance.FillViolationSpec | packages/figma-plugin/src/code.ts:195-215 | a violation iff the fill is solid, visible and farther than 15 from every palette colour; warning, colour type, node id, suggestion falls back to the palette text when there is no closest colour |
| PluginCompliance.FillViolationsCount | packages/figma-plugin/src/code.ts:195-215 | one violation per off-palette fill; strokes are not checked |
| PluginCompliance.TextViolationsSpec | packages/figma-plugin/src/code.ts:218-248 | exactly one typography error iff the font fails `isBrandFont`, first, with message `FontNotBrand(family)` and the brand-font hint; exactly one spacing info iff the size is positive and off the grid, last, naming the size and base unit and suggesting the closest grid value; the count is the sum of the two |
| PluginCompliance.SpacingViolationsSpec | packages/figma-plugin/src/code.ts:251-279 | exactly one info for an off-grid left padding, first, and one for an off-grid item spacing, last; each names its value and the base unit and suggests its closest grid value; no other message kind appears |
| DocTree.CollectIsPreOrder | src/extractors/colorExtractor.ts:54-67 | the `traverse` closure emits over the nodes in depth-first pre-order |
| DocTree.Traverse | src/extractors/colorExtractor.ts:57-63 | a traversal only appends: `out == acc + Collect(f, n)` |
| DocTree.FlatMapCount | src/extractors/typographyExtractor.ts:34-43 | one entry per matching node means as many entries as matching nodes |
| ServerHex.ColorRgbToHexIsShared | src/extractors/colorExtractor.ts:69-74 | padding then upper-casing gives exactly the shared `rgbToHex` |
| ServerHex.ColorRgbToHexShape | src/extractors/colorExtractor.ts:69-74 | '#' and six upper-case, zero-padded hex digits |
| ServerHex.DesignRgbToHexShape | src/extractors/designExtractor.ts:76-81 | '#' and six lower-case, zero-padded hex digits |
| ServerHex.ServerHexesAgree | src/extractors/designExtractor.ts:76-81 | lower-casing the colour extractor's hex gives the design extractor's; both parse back to the rounded channels |
| ServerHex.PadStart2 | src/extractors/colorExtractor.ts:73 | `padStart(2, "0")` keeps longer strings and left-pads shorter ones with '0' |
| ColorExtractor.PaintColors | src/extractors/colorExtractor.ts:14-39 | one entry per visible SOLID paint, with the list's usage, the colour's hex and a non-zero opacity |
| ColorExtractor.PaintColorsFromPaints | src/extractors/colorExtractor.ts:15-23 | one to one and in list order: the k-th entry is built from the paint at the k-th visible solid position, its colour and its opacity `\|\| 1` |
| ColorExtractor.NodeColorsSpec | src/extractors/colorExtractor.ts:10-52 | fills, then strokes, then background; counts match; hex is the upper-case spelling; background opacity 1; no opacity 0 |
| ColorExtractor.ExtractIgnoresChildren | src/extractors/colorExtractor.ts:10-52 | `extract` looks at the node only, not its children |
| ColorExtractor.PushPaints | src/extractors/colorExtractor.ts:15-24 | the `forEach` appends the paint list's entries |
| ColorExtractor.Extract | src/extractors/colorExtractor.ts:10-52 | the method builds the specified list |
| ColorExtractor.TraverseColors | src/extractors/colorExtractor.ts:57-63 | the closure appends the subtree's colours |
| ColorExtractor.ExtractAll | src/extractors/colorExtractor.ts:54-67 | the concatenation of `extract` over the pre-order |
| TypographyExtractor.Extract | src/extractors/typographyExtractor.ts:13-29 | a record exactly for TEXT nodes |
| TypographyExtractor.ExtractSpec | src/extractors/typographyExtractor.ts:18-28 | each value is the style's own when truthy, else "Unknown"/16/400/0/"LEFT"/"ORIGINAL"; size 0 becomes 16 |
| TypographyExtractor.LineHeightPrecedence | src/extractors/typographyExtractor.ts:24 | pixel height if truthy, else percentage if truthy, else "auto" |
| TypographyExtractor.UnstyledTextDefaults | src/extractors/typographyExtractor.ts:18 | a TEXT node without style gets every default |
| TypographyExtractor.TraverseTypography | src/extractors/typographyExtractor.ts:34-43 | the closure appends the subtree's records |
| TypographyExtractor.ExtractAll | src/extractors/typographyExtractor.ts:31-47 | the records over the pre-order |
| TypographyExtractor.ExtractAllCount | src/extractors/typographyExtractor.ts:31-47 | exactly one record per TEXT node |
| LayoutExtractor.Extract | src/extractors/layoutExtractor.ts:20-53 | none iff no bounding box; type and geometry copied; padding iff `paddingTop` present; spacing equals `itemSpacing`; layout mode only when non-empty |
| LayoutExtractor.PaddingSides | src/extractors/layoutExtractor.ts:39-46 | each padding side is the node's value, a missing side 0 |
| DesignExtractor.ProcessPaint | src/extractors/designExtractor.ts:54-74 | SOLID paints, visible or not, become hex and opacity; others pass through unchanged |
| DesignExtractor.ProcessPaints | src/extractors/designExtractor.ts:33-41 | element-wise map, same length |
| DesignExtractor.ExtractElementSpec | src/extractors/designExtractor.ts:10-52 | id, name and type copied; bounding box kept and size keys present iff it is; background as a lower-case '#rrggbb' that parses back to the rounded channels; each fill and stroke processed in place, in order; effects and constraints verbatim |
| DesignExtractor.SolidPaintAgreesWithColorExtractor | src/extractors/designExtractor.ts:54-63 | a solid paint gets the colour extractor's hex in lower case and opacity `\|\| 1` |
| ComplianceChecker.FindFirst | src/utils/complianceChecker.ts:18-20 | `find` returns the first element satisfying the test, none iff no element does |
| ComplianceChecker.RuleLookup | src/utils/complianceChecker.ts:18-22 | each check uses the first rule with its id; none means no rule has it |
| ComplianceChecker.PushColorIssues | src/utils/complianceChecker.ts:24-37 | the `forEach` builds the specified issue list |
| ComplianceChecker.CheckColors | src/utils/complianceChecker.ts:16-40 | no rule gives no issues; otherwise the rule's issues |
| ComplianceChecker.ColorIssuesSpec | src/utils/complianceChecker.ts:24-37 | as many issues as unapproved colours; each issue names an unapproved colour; every unapproved colour has its issue |
| ComplianceChecker.ColorIssuesInOrder | src/utils/complianceChecker.ts:24-37 | one to one and in input order: the k-th issue is the issue of the colour at the k-th position outside the palette (`Positions(Unapproved(rule), colors)`) |
| ComplianceChecker.ApprovalIgnoresCase | src/utils/complianceChecker.ts:25-27 | approval does not depend on the case of the hex |
| ComplianceChecker.ExtractedColorApproval | src/utils/complianceChecker.ts:25-27 | an extracted colour is approved iff some palette entry lower-cased equals its lower-case hex |
| ComplianceChecker.PushTypographyIssues | src/utils/complianceChecker.ts:50-71 | the `forEach` builds the specified issue list |
| ComplianceChecker.CheckTypography | src/utils/complianceChecker.ts:42-74 | no rule gives no issues; otherwise the rule's issues |
| ComplianceChecker.StyleIssuesSpec | src/utils/complianceChecker.ts:50-71 | 0–2 issues; font issue iff the family is not listed verbatim; size issue iff outside [min, max]; font before size; rule id, name and severity copied |
| ComplianceChecker.TypographyIssuesCount | src/utils/complianceChecker.ts:50-71 | issues number the unlisted families plus the out-of-range sizes |
| ComplianceChecker.FontMatchIsCaseSensitive | src/utils/complianceChecker.ts:52 | "inter" is not approved when only "Inter" is listed |
| ComplianceChecker.AllowedValues | src/utils/complianceChecker.ts:94 | the suggested values are the multiples times the base unit |
| ComplianceChecker.CheckSpacing | src/utils/complianceChecker.ts:76-100 | at most one issue, raised iff a rule exists, spacing is set and equals no `baseUnit·m` |
| ComplianceChecker.SuggestedValuesOnGrid | src/utils/complianceChecker.ts:85-94 | every suggested value passes the check |
| ComplianceChecker.CheckAll | src/utils/complianceChecker.ts:102-117 | colours ++ typography ++ spacing, the last only with a layout |
| ComplianceChecker.AllIssuesSpec | src/utils/complianceChecker.ts:102-117 | the issue count adds up the three checks; no spacing part without a layout; no rules give no issues |
| Validators.FirstFrom | packages/shared/src/validators.ts:38 | the leftmost position where the pattern matches |
| Validators.RunEnd | packages/shared/src/validators.ts:38 | greedy `+`: the run is maximal |
| Validators.KeyFrom | packages/shared/src/validators.ts:38-39 | the key is a non-empty alphanumeric run the URL does not continue |
| Validators.ExtractFileKeySpec | packages/shared/src/validators.ts:37-40 | a key iff the pattern occurs; read at the leftmost occurrence |
| Validators.ValidUrlYieldsKey | packages/shared/src/validators.ts:33-40 | a valid URL always yields the key right after its `https://(www.)figma.com/(file\|design)/` prefix |
| Validators.ExtractNodeIdSpec | packages/shared/src/validators.ts:42-45 | none iff no `node-id=` is followed by a non-'&'; otherwise the text up to the next '&' or the end, at the leftmost occurrence |

## Left out

- Figma host I/O in `code.ts` is not modelled: the UI, the selection listener, client storage, message handling, image export and `extractFullDesignData`'s host calls. The selection is a parameter.
- The server's network client, MCP tool handlers, server bootstrap and proxy server are I/O around the model and are not part of it.
- The zod schemas in `validators.ts` are library code and are not modelled.
- Validators.ExtractNodeId: returns the raw capture; `decodeURIComponent` is a library call and is not modelled.
- Number formatting inside messages (`${x}px`, `join(", ")`) is not modelled; messages carry the values as data.
- Floating point: lengths are exact rationals, so JavaScript rounding errors in `%` and in `baseUnit * m` comparisons are not modelled; `NaN` is not a value of the model.
- Fonts.NormalizeFontName: `toLowerCase` is modelled on ASCII letters only; non-ASCII case mappings are not modelled.
- PluginExtract.TypographyRecordOf: strings are sequences of Unicode scalar values, so `substring(0, 100)` keeps the first 100 characters; JavaScript counts UTF-16 code units, so text with characters outside the Basic Multilingual Plane (emoji, for example) is cut at a different place, which the model does not capture.
- `Math.round(n * 255)` is computed on exact reals as `floor(n * 255 + 0.5)`; JavaScript rounds the double product, which can differ by one when the product lies at or within rounding error of a half. The hex conversions (`HexColor.RgbToHexShape`, `ServerHex.ColorRgbToHexShape` and the round trips) inherit this.
- `Math.sqrt` is not computed: distances are compared squared, which is exact for the non-negative integer tolerance used.
- Concurrency: `analyzeNode`'s `async`/`await` has no suspension point and is modelled as a plain recursive method.
- Aliasing of JavaScript objects (the colour record updated in place in the `Map`) is modelled by value: the record is replaced in its slot, which yields the same contents.
