/**
 * The plugin's read-only walks over the selection
 * (packages/figma-plugin/src/code.ts): colours and typography of the
 * selection, and the typography, component, image and spacing inventories of
 * the full design extraction. Each pushes per-node records in pre-order.
 */
module PluginExtract {
  import opened Wrappers
  import opened FigmaTypes
  import opened Scene
  import opened SeqLemmas

  /** `ColorInfo`: the unit RGB components and the alpha. */
  datatype ColorInfo = ColorInfo(r: UnitReal, g: UnitReal, b: UnitReal, a: real)

  /**
   * The SOLID paints of `ps` not marked `visible: false`, in order: the k-th
   * kept paint is the one at the k-th visible solid position.
   */
  function VisibleSolids(ps: seq<Paint>): (qs: seq<Paint>)
    ensures |qs| == |Positions(IsVisibleSolid, ps)| <= |ps|
    ensures forall k :: 0 <= k < |qs| ==> qs[k] == ps[Positions(IsVisibleSolid, ps)[k]]
    ensures forall i :: 0 <= i < |qs| ==> qs[i].Solid? && qs[i].NotHidden() && qs[i] in ps
    ensures forall p :: p in ps && p.Solid? && p.NotHidden() ==> p in qs
  {
    if ps == [] then []
    else
      var n := |ps| - 1;
      assert forall i :: 0 <= i < n ==> ps[..n][i] == ps[i];
      assert ps == ps[..n] + [ps[n]];
      VisibleSolids(ps[..n]) + (if IsVisibleSolid(ps[n]) then [ps[n]] else [])
  }

  /** A SOLID paint's colour with `opacity ?? 1`: only an absent opacity becomes 1. */
  function ColorOf(p: Paint): (c: ColorInfo)
    requires p.Solid?
    ensures c.a == if p.opacity.Some? then p.opacity.value else 1.0
  {
    ColorInfo(p.color.r, p.color.g, p.color.b, p.opacity.GetOr(1.0))
  }

  /** `extractFromNode` of `extractColorsFromSelection`, for one node. */
  function NodeColors(n: SceneNode): (cs: seq<ColorInfo>)
    ensures n.fills.None? ==> cs == []
    ensures n.fills.Some? ==> |cs| == |VisibleSolids(n.fills.value)|
    ensures n.fills.Some? ==> forall i :: 0 <= i < |cs| ==> cs[i] == ColorOf(VisibleSolids(n.fills.value)[i])
  {
    match n.fills
    case None => []
    case Some(ps) =>
      var qs := VisibleSolids(ps);
      seq(|qs|, i requires 0 <= i < |qs| => ColorOf(qs[i]))
  }

  /** `extractColorsFromSelection`, the selection passed in. */
  method ExtractColorsFromSelection(selection: seq<SceneNode>) returns (colors: seq<ColorInfo>)
    ensures colors == FlatMap(NodeColors, PreOrderAll(selection))
  {
    colors := VisitAll(NodeColors, selection);
    CollectAllIsPreOrder(NodeColors, selection);
  }

  /** Unlike the server's `opacity || 1`, the plugin keeps an explicit opacity of 0. */
  lemma ZeroOpacityKept(n: SceneNode, color: Rgb)
    requires n.fills == Some([Solid(color, None, Some(0.0))])
    ensures NodeColors(n) == [ColorInfo(color.r, color.g, color.b, 0.0)]
  {
    var ps := [Solid(color, None, Some(0.0))];
    assert ps[..0] == [];
    assert VisibleSolids(ps) == ps;
  }

  /** The record `extractTypographyFromSelection` pushes for a TEXT node. */
  datatype SelectionTypography = SelectionTypography(
    fontFamily: string,
    fontSize: real,
    fontWeight: string,
    lineHeight: Option<LineHeight>,        // None: `undefined` for a mixed line height
    letterSpacing: Option<LetterSpacing>)  // None: `undefined` for a mixed letter spacing

  /** Text properties standing in for a non-TEXT node; never read by the walks. */
  const NO_TEXT: TextProps := TextProps(Mixed, Mixed, Mixed, Mixed, Mixed, "", "")

  /**
   * A single font gives its family, style and size; a mixed font or size
   * gives the sentinels 'Mixed' and 0; a mixed line height or letter spacing
   * is left undefined, a single one copied.
   */
  function SelectionTypographyOf(n: SceneNode): (t: SelectionTypography)
    ensures n.text.Some? && n.text.value.fontName.Mixed? ==> t.fontFamily == "Mixed" && t.fontWeight == "Mixed"
    ensures n.text.Some? && n.text.value.fontSize.Mixed? ==> t.fontSize == 0.0
    ensures var tp := n.text.GetOr(NO_TEXT);
      && (tp.fontName.Value? ==> t.fontFamily == tp.fontName.value.family && t.fontWeight == tp.fontName.value.style)
      && (tp.fontSize.Value? ==> t.fontSize == tp.fontSize.value)
      && (t.lineHeight.None? <==> tp.lineHeight.Mixed?)
      && (tp.lineHeight.Value? ==> t.lineHeight == Some(tp.lineHeight.value))
      && (t.letterSpacing.None? <==> tp.letterSpacing.Mixed?)
      && (tp.letterSpacing.Value? ==> t.letterSpacing == Some(tp.letterSpacing.value))
  {
    var tp := n.text.GetOr(NO_TEXT);
    SelectionTypography(
      if tp.fontName.Value? then tp.fontName.value.family else "Mixed",
      if tp.fontSize.Value? then tp.fontSize.value else 0.0,
      if tp.fontName.Value? then tp.fontName.value.style else "Mixed",
      if tp.lineHeight.Value? then Some(tp.lineHeight.value) else None,
      if tp.letterSpacing.Value? then Some(tp.letterSpacing.value) else None)
  }

  function NodeSelectionTypography(n: SceneNode): seq<SelectionTypography> {
    if n.IsText() then [SelectionTypographyOf(n)] else []
  }

  function IsTextNode(n: SceneNode): bool { n.IsText() }

  /** `extractTypographyFromSelection`, the selection passed in. */
  method ExtractTypographyFromSelection(selection: seq<SceneNode>) returns (typography: seq<SelectionTypography>)
    ensures typography == Map(SelectionTypographyOf, Filter(IsTextNode, PreOrderAll(selection)))
  {
    typography := VisitAll(NodeSelectionTypography, selection);
    CollectAllIsPreOrder(NodeSelectionTypography, selection);
    FlatMapOfOptional(NodeSelectionTypography, IsTextNode, SelectionTypographyOf, PreOrderAll(selection));
  }

  /** The record `extractAllTypography` pushes for a TEXT node. */
  datatype TypographyRecord = TypographyRecord(
    nodeName: string,
    nodeId: string,
    fontFamily: string,
    fontStyle: string,
    fontSize: Option<real>,                // None: 'Mixed' (a mixed or zero size)
    lineHeight: Option<LineHeight>,        // None: 'Auto' (a mixed line height)
    letterSpacing: Option<LetterSpacing>,  // None: 0 (a mixed letter spacing)
    textCase: Mixable<string>,
    textAlignHorizontal: string,
    characters: string)

  /** The number of characters of text the inventory keeps. */
  const CHARACTERS_KEPT: nat := 100

  function TypographyRecordOf(n: SceneNode): (t: TypographyRecord)
    ensures t.nodeId == n.id && t.nodeName == n.name
    ensures var tp := n.text.GetOr(NO_TEXT);
      && |t.characters| == (if |tp.characters| < CHARACTERS_KEPT then |tp.characters| else CHARACTERS_KEPT)
      && t.characters <= tp.characters
      && (t.fontSize.None? <==> tp.fontSize.Mixed? || tp.fontSize.value == 0.0)
      && (t.textCase == if tp.textCase == Value("") then Value("ORIGINAL") else tp.textCase)
    ensures var tp := n.text.GetOr(NO_TEXT);
      && (tp.fontName.Value? ==> t.fontFamily == tp.fontName.value.family && t.fontStyle == tp.fontName.value.style)
      && (tp.fontName.Mixed? ==> t.fontFamily == "Mixed" && t.fontStyle == "Mixed")
      && (t.fontSize.Some? ==> tp.fontSize.Value? && t.fontSize.value == tp.fontSize.value)
      && (t.lineHeight.None? <==> tp.lineHeight.Mixed?)
      && (tp.lineHeight.Value? ==> t.lineHeight == Some(tp.lineHeight.value))
      && (t.letterSpacing.None? <==> tp.letterSpacing.Mixed?)
      && (tp.letterSpacing.Value? ==> t.letterSpacing == Some(tp.letterSpacing.value))
      && t.textAlignHorizontal == tp.textAlignHorizontal
  {
    var tp := n.text.GetOr(NO_TEXT);
    TypographyRecord(
      n.name,
      n.id,
      if tp.fontName.Value? then tp.fontName.value.family else "Mixed",
      if tp.fontName.Value? then tp.fontName.value.style else "Mixed",
      if tp.fontSize.Value? && tp.fontSize.value != 0.0 then Some(tp.fontSize.value) else None,
      if tp.lineHeight.Value? then Some(tp.lineHeight.value) else None,
      if tp.letterSpacing.Value? then Some(tp.letterSpacing.value) else None,
      if tp.textCase == Value("") then Value("ORIGINAL") else tp.textCase,
      tp.textAlignHorizontal,
      if |tp.characters| < CHARACTERS_KEPT then tp.characters else tp.characters[..CHARACTERS_KEPT])
  }

  function NodeTypographyRecords(n: SceneNode): seq<TypographyRecord> {
    if n.IsText() then [TypographyRecordOf(n)] else []
  }

  /** `extractAllTypography(nodes)` */
  method ExtractAllTypography(nodes: seq<SceneNode>) returns (typography: seq<TypographyRecord>)
    ensures typography == Map(TypographyRecordOf, Filter(IsTextNode, PreOrderAll(nodes)))
  {
    typography := VisitAll(NodeTypographyRecords, nodes);
    CollectAllIsPreOrder(NodeTypographyRecords, nodes);
    FlatMapOfOptional(NodeTypographyRecords, IsTextNode, TypographyRecordOf, PreOrderAll(nodes));
  }

  /** The record `extractComponentInfo` pushes. */
  datatype ComponentInfo = ComponentInfo(name: string, nodeType: string, id: string, description: Option<string>)

  function IsComponent(n: SceneNode): bool {
    n.nodeType == "COMPONENT" || n.nodeType == "COMPONENT_SET" || n.nodeType == "INSTANCE"
  }

  function ComponentInfoOf(n: SceneNode): ComponentInfo {
    ComponentInfo(n.name, n.nodeType, n.id, n.description)
  }

  function NodeComponents(n: SceneNode): seq<ComponentInfo> {
    if IsComponent(n) then [ComponentInfoOf(n)] else []
  }

  /** `extractComponentInfo(nodes)` */
  method ExtractComponentInfo(nodes: seq<SceneNode>) returns (components: seq<ComponentInfo>)
    ensures components == Map(ComponentInfoOf, Filter(IsComponent, PreOrderAll(nodes)))
  {
    components := VisitAll(NodeComponents, nodes);
    CollectAllIsPreOrder(NodeComponents, nodes);
    FlatMapOfOptional(NodeComponents, IsComponent, ComponentInfoOf, PreOrderAll(nodes));
  }

  /** The record `extractImageInfo` pushes per IMAGE fill. */
  datatype ImageInfo = ImageInfo(nodeName: string, nodeId: string, nodeType: string, scaleMode: string, imageHash: Option<string>)

  /** `paint.type === 'IMAGE'` */
  predicate IsImage(p: Paint) {
    p.Image?
  }

  /** How many of `ps` are IMAGE paints (visible or not). */
  function CountImages(ps: seq<Paint>): nat {
    if ps == [] then 0 else CountImages(ps[..|ps| - 1]) + (if IsImage(ps[|ps| - 1]) then 1 else 0)
  }

  /** The records for the IMAGE paints of `ps`, in order. */
  function ImageFills(n: SceneNode, ps: seq<Paint>): (images: seq<ImageInfo>)
    ensures |images| == CountImages(ps)
    ensures forall i :: 0 <= i < |images| ==>
      images[i].nodeId == n.id && images[i].nodeName == n.name && images[i].nodeType == n.nodeType
  {
    if ps == [] then []
    else
      var last := ps[|ps| - 1];
      ImageFills(n, ps[..|ps| - 1])
        + (if IsImage(last) then [ImageInfo(n.name, n.id, n.nodeType, last.scaleMode, last.imageHash)] else [])
  }

  /**
   * One record per IMAGE paint, in order: the k-th record carries the scale
   * mode and hash of the paint at the k-th IMAGE position.
   */
  lemma {:induction false} ImageFillsFromPaints(n: SceneNode, ps: seq<Paint>)
    ensures |ImageFills(n, ps)| == |Positions(IsImage, ps)|
    ensures forall k :: 0 <= k < |ImageFills(n, ps)| ==>
      ImageFills(n, ps)[k].scaleMode == ps[Positions(IsImage, ps)[k]].scaleMode
      && ImageFills(n, ps)[k].imageHash == ps[Positions(IsImage, ps)[k]].imageHash
  {
    if ps != [] {
      var m := |ps| - 1;
      var init := ps[..m];
      ImageFillsFromPaints(n, init);
      var images := ImageFills(n, ps);
      var front := ImageFills(n, init);
      var idx := Positions(IsImage, ps);
      var fidx := Positions(IsImage, init);
      forall k | 0 <= k < |images|
        ensures images[k].scaleMode == ps[idx[k]].scaleMode && images[k].imageHash == ps[idx[k]].imageHash
      {
        if k < |front| {
          assert images[k] == front[k] && idx[k] == fidx[k];
          assert ps[fidx[k]] == init[fidx[k]];
        }
      }
    }
  }

  function NodeImages(n: SceneNode): seq<ImageInfo> {
    if n.fills.Some? then ImageFills(n, n.fills.value) else []
  }

  /** `extractImageInfo(nodes)` */
  method ExtractImageInfo(nodes: seq<SceneNode>) returns (images: seq<ImageInfo>)
    ensures images == FlatMap(NodeImages, PreOrderAll(nodes))
  {
    images := VisitAll(NodeImages, nodes);
    CollectAllIsPreOrder(NodeImages, nodes);
  }

  /** The record `extractSpacingInfo` pushes; `None` marks a key it does not set. */
  datatype SpacingInfo = SpacingInfo(
    name: string,
    nodeType: string,
    padding: Option<Padding>,
    itemSpacing: Option<real>,
    cornerRadius: Option<real>)

  /** `Object.keys(info).length > 2`: at least one of the three optional keys was set. */
  function HasSpacingInfo(n: SceneNode): bool {
    n.padding.Some? || n.itemSpacing.Some? || (n.cornerRadius.Some? && n.cornerRadius.value.Value?)
  }

  function SpacingInfoOf(n: SceneNode): (info: SpacingInfo)
    ensures info.name == n.name && info.nodeType == n.nodeType
    ensures info.padding == n.padding && info.itemSpacing == n.itemSpacing
    ensures info.cornerRadius.Some? <==> n.cornerRadius.Some? && n.cornerRadius.value.Value?
    ensures HasSpacingInfo(n) <==> info.padding.Some? || info.itemSpacing.Some? || info.cornerRadius.Some?
  {
    SpacingInfo(
      n.name,
      n.nodeType,
      n.padding,
      n.itemSpacing,
      if n.cornerRadius.Some? && n.cornerRadius.value.Value? then Some(n.cornerRadius.value.value) else None)
  }

  function NodeSpacing(n: SceneNode): seq<SpacingInfo> {
    if HasSpacingInfo(n) then [SpacingInfoOf(n)] else []
  }

  /** `extractSpacingInfo(nodes)` */
  method ExtractSpacingInfo(nodes: seq<SceneNode>) returns (spacing: seq<SpacingInfo>)
    ensures spacing == Map(SpacingInfoOf, Filter(HasSpacingInfo, PreOrderAll(nodes)))
  {
    spacing := VisitAll(NodeSpacing, nodes);
    CollectAllIsPreOrder(NodeSpacing, nodes);
    FlatMapOfOptional(NodeSpacing, HasSpacingInfo, SpacingInfoOf, PreOrderAll(nodes));
  }
}
