/**
 * Values the Figma host hands to the engine: colours, paints, boxes.
 * Both the plugin's scene nodes and the REST documents share them.
 */
module FigmaTypes {
  import opened Wrappers

  /** A colour component as Figma stores it: a number in [0, 1]. */
  type UnitReal = x: real | 0.0 <= x <= 1.0

  /** An 8-bit channel, the result of `Math.round(n * 255)` on a unit component. */
  type Channel = c: int | 0 <= c <= 255

  /** Figma's `RGB` record. */
  datatype Rgb = Rgb(r: UnitReal, g: UnitReal, b: UnitReal)

  /** A paint of a fill or stroke list, told apart by its `type` tag. */
  datatype Paint =
    | Solid(color: Rgb, visible: Option<bool>, opacity: Option<real>)
    | Image(scaleMode: string, imageHash: Option<string>, visible: Option<bool>, opacity: Option<real>)
    | OtherPaint(paintType: string, visible: Option<bool>, opacity: Option<real>)
  {
    /** `paint.visible !== false`: an absent flag counts as visible. */
    predicate NotHidden() {
      visible != Some(false)
    }
  }

  /** `paint.type === "SOLID" && paint.visible !== false` */
  predicate IsVisibleSolid(p: Paint) {
    p.Solid? && p.NotHidden()
  }

  /** `absoluteBoundingBox` of a REST node. */
  datatype Rect = Rect(x: real, y: real, width: real, height: real)

  /** `constraints` of a REST node, copied without interpretation. */
  datatype Constraints = Constraints(vertical: string, horizontal: string)

  /** An entry of `effects` of a REST node, copied without interpretation. */
  datatype Effect = Effect(effectType: string, visible: bool, radius: real)

  /** `Math.round(n * 255)`: JavaScript rounds halves up, i.e. `floor(x + 0.5)`. */
  function Round255(n: UnitReal): (c: Channel)
    ensures -0.5 <= n * 255.0 - c as real < 0.5
  {
    (n * 255.0 + 0.5).Floor
  }
}
