/**
 * src/extractors/layoutExtractor.ts: the geometry and auto-layout settings
 * of a REST node, or nothing for a node without a bounding box.
 */
module LayoutExtractor {
  import opened Wrappers
  import opened FigmaTypes
  import opened DocTree

  datatype PaddingData = PaddingData(top: real, right: real, bottom: real, left: real)

  datatype LayoutData = LayoutData(
    layoutType: string,
    width: real,
    height: real,
    x: real,
    y: real,
    constraints: Option<Constraints>,
    layoutMode: Option<string>,
    padding: Option<PaddingData>,
    spacing: Option<real>)

  /**
   * `extract(node)`. Padding is reported as soon as `paddingTop` is present,
   * each side defaulting to 0 when missing or 0; the item spacing is copied
   * as it is, 0 included; a layout mode only when it is a non-empty string.
   */
  function Extract(n: DocNode): (l: Option<LayoutData>)
    ensures l.None? <==> n.absoluteBoundingBox.None?
    ensures l.Some? ==>
      var box := n.absoluteBoundingBox.value;
      && l.value.layoutType == n.nodeType
      && l.value.width == box.width && l.value.height == box.height
      && l.value.x == box.x && l.value.y == box.y
      && l.value.constraints == n.constraints
      && l.value.spacing == n.itemSpacing
      && (l.value.layoutMode.Some? <==> n.layoutMode.Some? && n.layoutMode.value != "")
      && (l.value.layoutMode.Some? ==> l.value.layoutMode == n.layoutMode)
      && (l.value.padding.Some? <==> n.paddingTop.Some?)
  {
    if n.absoluteBoundingBox.None? then None
    else
      var box := n.absoluteBoundingBox.value;
      Some(LayoutData(
        n.nodeType, box.width, box.height, box.x, box.y, n.constraints,
        if n.layoutMode.Some? && n.layoutMode.value != "" then n.layoutMode else None,
        if n.paddingTop.Some? then
          Some(PaddingData(NumberOr(n.paddingTop, 0.0), NumberOr(n.paddingRight, 0.0),
                           NumberOr(n.paddingBottom, 0.0), NumberOr(n.paddingLeft, 0.0)))
        else None,
        n.itemSpacing))
  }

  /** A padding side is the node's value when present and 0 otherwise. */
  function SideOrZero(side: Option<real>): real {
    if side.Some? then side.value else 0.0
  }

  /** Every padding side reads the matching key, a missing side counting as 0. */
  lemma PaddingSides(n: DocNode)
    requires n.absoluteBoundingBox.Some? && n.paddingTop.Some?
    ensures Extract(n).value.padding == Some(PaddingData(
      SideOrZero(n.paddingTop), SideOrZero(n.paddingRight), SideOrZero(n.paddingBottom), SideOrZero(n.paddingLeft)))
  {
  }
}
