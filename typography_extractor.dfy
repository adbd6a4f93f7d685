/**
 * src/extractors/typographyExtractor.ts: the text style of a TEXT node of a
 * REST document, with a default for every missing or falsy key, and the
 * styles of all TEXT nodes of a subtree.
 */
module TypographyExtractor {
  import opened Wrappers
  import opened DocTree
  import opened SeqLemmas

  /** `lineHeight: number | string`: a pixel height, a percentage, or "auto". */
  datatype LineHeightValue = LinePx(px: real) | LinePercent(percent: real) | LineAuto

  datatype TypographyData = TypographyData(
    fontFamily: string,
    fontSize: real,
    fontWeight: real,
    lineHeight: LineHeightValue,
    letterSpacing: real,
    textAlign: string,
    textCase: string)

  const DEFAULT_FAMILY := "Unknown"
  const DEFAULT_SIZE := 16.0
  const DEFAULT_WEIGHT := 400.0
  const DEFAULT_ALIGN := "LEFT"
  const DEFAULT_CASE := "ORIGINAL"

  /** `node.style || {}`: a missing style reads as one with no keys. */
  const NO_STYLE := TypeStyle(None, None, None, None, None, None, None, None)

  /** `style.lineHeightPx || style.lineHeightPercent || "auto"` */
  function LineHeightOf(style: TypeStyle): LineHeightValue {
    if style.lineHeightPx.Some? && style.lineHeightPx.value != 0.0 then LinePx(style.lineHeightPx.value)
    else if style.lineHeightPercent.Some? && style.lineHeightPercent.value != 0.0 then LinePercent(style.lineHeightPercent.value)
    else LineAuto
  }

  function StyleData(style: TypeStyle): TypographyData {
    TypographyData(
      TextOr(style.fontFamily, DEFAULT_FAMILY),
      NumberOr(style.fontSize, DEFAULT_SIZE),
      NumberOr(style.fontWeight, DEFAULT_WEIGHT),
      LineHeightOf(style),
      NumberOr(style.letterSpacing, 0.0),
      TextOr(style.textAlignHorizontal, DEFAULT_ALIGN),
      TextOr(style.textCase, DEFAULT_CASE))
  }

  /** `extract(node)`: a record exactly for TEXT nodes. */
  function Extract(n: DocNode): (t: Option<TypographyData>)
    ensures t.Some? <==> n.nodeType == "TEXT"
  {
    if n.nodeType != "TEXT" then None else Some(StyleData(n.style.GetOr(NO_STYLE)))
  }

  /**
   * Each value of a record is the style's own when that key is set and
   * truthy, and the documented default otherwise; so no string of the
   * record is empty and neither size nor weight is 0.
   */
  lemma ExtractSpec(n: DocNode)
    requires n.nodeType == "TEXT"
    ensures var t := Extract(n).value;
      var st := n.style.GetOr(NO_STYLE);
      && t.fontFamily == (if st.fontFamily.Some? && st.fontFamily.value != "" then st.fontFamily.value else "Unknown")
      && t.fontSize == (if st.fontSize.Some? && st.fontSize.value != 0.0 then st.fontSize.value else 16.0)
      && t.fontWeight == (if st.fontWeight.Some? && st.fontWeight.value != 0.0 then st.fontWeight.value else 400.0)
      && t.letterSpacing == (if st.letterSpacing.Some? then st.letterSpacing.value else 0.0)
      && t.textAlign == (if st.textAlignHorizontal.Some? && st.textAlignHorizontal.value != "" then st.textAlignHorizontal.value else "LEFT")
      && t.textCase == (if st.textCase.Some? && st.textCase.value != "" then st.textCase.value else "ORIGINAL")
      && t.fontFamily != "" && t.textAlign != "" && t.textCase != ""
      && t.fontSize != 0.0 && t.fontWeight != 0.0
  {
  }

  /** The pixel height wins over the percentage; "auto" only when neither is set to a non-zero value. */
  lemma LineHeightPrecedence(style: TypeStyle)
    ensures LineHeightOf(style).LinePx? <==> style.lineHeightPx.Some? && style.lineHeightPx.value != 0.0
    ensures LineHeightOf(style).LinePercent? <==>
      (style.lineHeightPx.None? || style.lineHeightPx.value == 0.0) && style.lineHeightPercent.Some? && style.lineHeightPercent.value != 0.0
    ensures LineHeightOf(style).LinePx? ==> LineHeightOf(style).px == style.lineHeightPx.value
    ensures LineHeightOf(style).LinePercent? ==> LineHeightOf(style).percent == style.lineHeightPercent.value
  {
  }

  /** A TEXT node without a style gets every default. */
  lemma UnstyledTextDefaults(n: DocNode)
    requires n.nodeType == "TEXT" && n.style.None?
    ensures Extract(n) == Some(TypographyData("Unknown", 16.0, 400.0, LineAuto, 0.0, "LEFT", "ORIGINAL"))
  {
  }

  /** What `traverse` pushes for one node: its record, if it has one. */
  function NodeTypography(n: DocNode): seq<TypographyData> {
    if Extract(n).Some? then [Extract(n).value] else []
  }

  predicate IsTextNode(n: DocNode) {
    n.nodeType == "TEXT"
  }

  /** The `traverse` closure of `extractAll`. */
  method TraverseTypography(n: DocNode, results: seq<TypographyData>) returns (out: seq<TypographyData>)
    ensures out == results + Collect(NodeTypography, n)
    decreases n
  {
    out := results;
    var typography := Extract(n);
    if typography.Some? {
      out := out + [typography.value];
    }
    ghost var afterOwn := out;
    var i := 0;
    while i < |n.children|
      invariant 0 <= i <= |n.children|
      invariant out == afterOwn + CollectAll(NodeTypography, n.children[..i])
    {
      assert n.children[..i + 1][..i] == n.children[..i];
      AppendAssoc(afterOwn, CollectAll(NodeTypography, n.children[..i]), Collect(NodeTypography, n.children[i]));
      out := TraverseTypography(n.children[i], out);
      i := i + 1;
    }
    assert n.children[..i] == n.children;
    AppendAssoc(results, NodeTypography(n), CollectAll(NodeTypography, n.children));
  }

  /** `extractAll(node)`: the records of the subtree's TEXT nodes, in depth-first pre-order. */
  method ExtractAll(n: DocNode) returns (results: seq<TypographyData>)
    ensures results == FlatMap(NodeTypography, PreOrder(n))
  {
    results := TraverseTypography(n, []);
    CollectIsPreOrder(NodeTypography, n);
  }

  /** `extractAll` returns one record per TEXT node of the subtree, and nothing for other nodes. */
  lemma {:induction false} ExtractAllCount(n: DocNode)
    ensures |FlatMap(NodeTypography, PreOrder(n))| == Count(IsTextNode, PreOrder(n))
  {
    FlatMapCount(NodeTypography, IsTextNode, PreOrder(n));
  }
}
