/**
 * The violation record of the plugin's compliance result
 * (packages/shared/src/types.ts, redeclared in packages/figma-plugin/src/code.ts).
 */
module Violations {
  import opened Wrappers

  /** `type: 'color' | 'typography' | 'spacing' | 'component'` */
  datatype ViolationType = ColorType | TypographyType | SpacingType | ComponentType

  /** `severity: 'error' | 'warning' | 'info'` */
  datatype Severity = Error | Warning | Info

  /**
   * The `message` strings the plugin writes, by template; the numbers are kept
   * as numbers rather than formatted.
   */
  datatype Message =
    | NoNodesSelected                                 // "No nodes selected for analysis"
    | ColorNotInPalette(hex: string)                  // "Color <hex> not in RSF brand palette"
    | FontNotBrand(family: string)                    // "Font \"<family>\" is not American Grotesk"
    | FontSizeOffGrid(fontSize: real, baseUnit: real) // "Font size <n>px not on <base>px grid"
    | PaddingOffGrid(padding: real, baseUnit: real)   // "Padding <n>px not on <base>px grid"
    | ItemSpacingOffGrid(spacing: real, baseUnit: real) // "Item spacing <n>px not on <base>px grid"

  /** The `suggestion` strings the plugin writes, by template. */
  datatype Suggestion =
    | ClosestBrandColor(hex: string)   // "Closest brand color: <hex>"
    | BrandPaletteHint                 // the fixed list of the three brand colours
    | BrandFontHint                    // the fixed advice on American Grotesk weights
    | ConsiderGridSize(px: real)       // "Consider using <n>px"
    | UseGridValue(px: real)           // "Use <n>px"

  const NO_NODES_SELECTED_TEXT: string := "No nodes selected for analysis"
  const BRAND_PALETTE_HINT_TEXT: string := "Use Skyview Blue (#066FEF), Off Black (#0F0F0F), or White (#FFFFFF)"
  const BRAND_FONT_HINT_TEXT: string :=
    "Use American Grotesk (Compressed Black for headlines, Bold for nameplates/CTAs, Regular for body)"

  datatype Violation = Violation(
    vtype: ViolationType,
    severity: Severity,
    message: Message,
    nodeId: Option<string>,
    nodeName: Option<string>,
    suggestion: Option<Suggestion>)

  /** `ComplianceResult` */
  datatype ComplianceResult = ComplianceResult(isCompliant: bool, violations: seq<Violation>, score: int)
}
