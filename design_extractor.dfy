/**
 * src/extractors/designExtractor.ts: a REST node's identity and a record of
 * its visual properties, with solid paints reduced to a lower-case hex
 * colour and an opacity.
 */
module DesignExtractor {
  import opened Wrappers
  import opened Text
  import opened FigmaTypes
  import opened HexColor
  import opened DocTree
  import opened ServerHex

  /** A processed paint: a solid one as hex and opacity, any other passed through untouched. */
  datatype ProcessedPaint =
    | SolidHex(color: string, opacity: real)
    | PassedThrough(paint: Paint)

  /** The `properties` record; a key that is never set is `None`. */
  datatype DesignProperties = DesignProperties(
    boundingBox: Option<Rect>,
    width: Option<real>,
    height: Option<real>,
    backgroundColor: Option<string>,
    fills: Option<seq<ProcessedPaint>>,
    strokes: Option<seq<ProcessedPaint>>,
    effects: Option<seq<Effect>>,
    constraints: Option<Constraints>)

  datatype DesignElement = DesignElement(id: string, name: string, elementType: string, properties: DesignProperties)

  /**
   * `processFill` and `processStroke`, which are the same function: a SOLID
   * paint, visible or not, becomes its hex and `opacity || 1`.
   */
  function ProcessPaint(p: Paint): (q: ProcessedPaint)
    ensures q.SolidHex? <==> p.Solid?
    ensures q.PassedThrough? ==> q.paint == p
  {
    if p.Solid? then SolidHex(DesignRgbToHex(p.color), NumberOr(p.opacity, 1.0)) else PassedThrough(p)
  }

  /** `paints.map(processFill)` */
  function ProcessPaints(ps: seq<Paint>): (qs: seq<ProcessedPaint>)
    ensures |qs| == |ps|
    ensures forall i :: 0 <= i < |ps| ==> qs[i] == ProcessPaint(ps[i])
  {
    if ps == [] then [] else [ProcessPaint(ps[0])] + ProcessPaints(ps[1..])
  }

  function ProcessList(ps: Option<seq<Paint>>): Option<seq<ProcessedPaint>> {
    if ps.Some? then Some(ProcessPaints(ps.value)) else None
  }

  /** `extractProperties(node)` */
  function ExtractProperties(n: DocNode): DesignProperties {
    DesignProperties(
      n.absoluteBoundingBox,
      if n.absoluteBoundingBox.Some? then Some(n.absoluteBoundingBox.value.width) else None,
      if n.absoluteBoundingBox.Some? then Some(n.absoluteBoundingBox.value.height) else None,
      if n.backgroundColor.Some? then Some(DesignRgbToHex(n.backgroundColor.value)) else None,
      ProcessList(n.fills),
      ProcessList(n.strokes),
      n.effects,
      n.constraints)
  }

  /** `extractElement(node)` */
  function ExtractElement(n: DocNode): DesignElement {
    DesignElement(n.id, n.name, n.nodeType, ExtractProperties(n))
  }

  /**
   * `extractElement(node)`: the node's id, name and type; size keys present
   * exactly with a bounding box, which is kept as given; a background as a
   * lower-case '#rrggbb' that parses back to the rounded channels; each fill
   * and each stroke processed in place, in order; effects and constraints as
   * given.
   */
  lemma {:induction false} ExtractElementSpec(n: DocNode)
    ensures var e := ExtractElement(n);
      e.id == n.id && e.name == n.name && e.elementType == n.nodeType
    ensures var p := ExtractElement(n).properties;
      && p.boundingBox == n.absoluteBoundingBox
      && (p.width.Some? <==> n.absoluteBoundingBox.Some?)
      && (p.height.Some? <==> n.absoluteBoundingBox.Some?)
      && (p.width.Some? ==> p.width.value == n.absoluteBoundingBox.value.width)
      && (p.height.Some? ==> p.height.value == n.absoluteBoundingBox.value.height)
      && (p.backgroundColor.Some? <==> n.backgroundColor.Some?)
      && (p.fills.Some? <==> n.fills.Some?)
      && (p.fills.Some? ==> |p.fills.value| == |n.fills.value|)
      && (p.fills.Some? ==> forall i :: 0 <= i < |p.fills.value| ==> p.fills.value[i] == ProcessPaint(n.fills.value[i]))
      && (p.strokes.Some? <==> n.strokes.Some?)
      && (p.strokes.Some? ==> |p.strokes.value| == |n.strokes.value|)
      && (p.strokes.Some? ==> forall i :: 0 <= i < |p.strokes.value| ==> p.strokes.value[i] == ProcessPaint(n.strokes.value[i]))
      && p.effects == n.effects && p.constraints == n.constraints
    ensures var p := ExtractElement(n).properties;
      p.backgroundColor.Some? ==>
        var hex := p.backgroundColor.value;
        var c := n.backgroundColor.value;
        && |hex| == 7 && hex[0] == '#'
        && (forall i :: 1 <= i < 7 ==> IsLowerHexDigit(hex[i]))
        && HexToRgb(hex) == Some(Rgb255(Round255(c.r), Round255(c.g), Round255(c.b)))
  {
    if n.backgroundColor.Some? {
      DesignRgbToHexShape(n.backgroundColor.value);
      ServerHexesAgree(n.backgroundColor.value);
    }
  }

  /**
   * A solid paint that the colour extractor reports gets the same colour from
   * the design extractor, written in lower case, and the same opacity.
   */
  lemma {:induction false} SolidPaintAgreesWithColorExtractor(p: Paint)
    requires p.Solid?
    ensures ProcessPaint(p).color == Lower(ColorRgbToHex(p.color))
    ensures ProcessPaint(p).opacity == NumberOr(p.opacity, 1.0) && ProcessPaint(p).opacity != 0.0
  {
    ServerHexesAgree(p.color);
  }
}
