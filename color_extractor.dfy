/**
 * src/extractors/colorExtractor.ts: the solid colours a REST node paints
 * with, as fills, strokes and background, and the same for a whole subtree.
 */
module ColorExtractor {
  import opened Wrappers
  import opened FigmaTypes
  import opened DocTree
  import opened ServerHex
  import opened SeqLemmas

  datatype ColorUsage = FillUsage | StrokeUsage | BackgroundUsage

  /** One extracted colour; `rgb` is the paint's own colour record. */
  datatype ColorData = ColorData(hex: string, rgb: Rgb, usage: ColorUsage, opacity: real)

  function CountVisibleSolids(ps: seq<Paint>): nat {
    if ps == [] then 0 else CountVisibleSolids(ps[..|ps| - 1]) + (if IsVisibleSolid(ps[|ps| - 1]) then 1 else 0)
  }

  /** The entry pushed for a visible solid paint. */
  function PaintColor(p: Paint, usage: ColorUsage): ColorData
    requires p.Solid?
  {
    ColorData(ColorRgbToHex(p.color), p.color, usage, NumberOr(p.opacity, 1.0))
  }

  /** What the `forEach` over a fill or stroke list pushes, in list order. */
  function PaintColors(ps: seq<Paint>, usage: ColorUsage): (cs: seq<ColorData>)
    ensures |cs| == CountVisibleSolids(ps)
    ensures forall i :: 0 <= i < |cs| ==>
      cs[i].usage == usage && cs[i].hex == ColorRgbToHex(cs[i].rgb) && cs[i].opacity != 0.0
  {
    if ps == [] then []
    else
      PaintColors(ps[..|ps| - 1], usage)
      + (if IsVisibleSolid(ps[|ps| - 1]) then [PaintColor(ps[|ps| - 1], usage)] else [])
  }

  /**
   * The k-th entry is built from the paint at the k-th visible solid
   * position: its colour, and its opacity `|| 1`.
   */
  lemma {:induction false} PaintColorsFromPaints(ps: seq<Paint>, usage: ColorUsage)
    ensures |PaintColors(ps, usage)| == |Positions(IsVisibleSolid, ps)|
    ensures forall k :: 0 <= k < |PaintColors(ps, usage)| ==>
      PaintColors(ps, usage)[k] == PaintColor(ps[Positions(IsVisibleSolid, ps)[k]], usage)
  {
    if ps != [] {
      var n := |ps| - 1;
      var init := ps[..n];
      PaintColorsFromPaints(init, usage);
      var cs := PaintColors(ps, usage);
      var front := PaintColors(init, usage);
      var idx := Positions(IsVisibleSolid, ps);
      var fidx := Positions(IsVisibleSolid, init);
      forall k | 0 <= k < |cs|
        ensures cs[k] == PaintColor(ps[idx[k]], usage)
      {
        if k < |front| {
          assert cs[k] == front[k] && idx[k] == fidx[k];
          assert ps[fidx[k]] == init[fidx[k]];
        }
      }
    }
  }

  /** The background entry: always fully opaque. */
  function BackgroundColors(bg: Option<Rgb>): seq<ColorData> {
    if bg.Some? then [ColorData(ColorRgbToHex(bg.value), bg.value, BackgroundUsage, 1.0)] else []
  }

  /** `extract(node)`: the node's own colours, fills first, then strokes, then the background. */
  function NodeColors(n: DocNode): seq<ColorData> {
    FillColors(n) + StrokeColors(n) + BackgroundColors(n.backgroundColor)
  }

  function FillColors(n: DocNode): seq<ColorData> {
    if n.fills.Some? then PaintColors(n.fills.value, FillUsage) else []
  }

  function StrokeColors(n: DocNode): seq<ColorData> {
    if n.strokes.Some? then PaintColors(n.strokes.value, StrokeUsage) else []
  }

  /** The order of the three groups. */
  function Rank(u: ColorUsage): nat {
    match u
    case FillUsage => 0
    case StrokeUsage => 1
    case BackgroundUsage => 2
  }

  /** The number of visible solid paints of a list that may be missing. */
  function VisibleSolidsIn(ps: Option<seq<Paint>>): nat {
    if ps.Some? then CountVisibleSolids(ps.value) else 0
  }

  /** Three groups of entries, each of one usage, concatenated in rank order. */
  lemma {:induction false} GroupsInRankOrder(f: seq<ColorData>, s: seq<ColorData>, b: seq<ColorData>)
    requires forall i :: 0 <= i < |f| ==> f[i].usage == FillUsage
    requires forall i :: 0 <= i < |s| ==> s[i].usage == StrokeUsage
    requires forall i :: 0 <= i < |b| ==> b[i].usage == BackgroundUsage
    ensures var cs := f + s + b;
      forall i, j :: 0 <= i < j < |cs| ==> Rank(cs[i].usage) <= Rank(cs[j].usage)
  {
    var cs := f + s + b;
    forall i | 0 <= i < |cs|
      ensures Rank(cs[i].usage) == if i < |f| then 0 else if i < |f| + |s| then 1 else 2
    {
      if i < |f| { assert cs[i] == f[i]; }
      else if i < |f| + |s| { assert cs[i] == s[i - |f|]; }
      else { assert cs[i] == b[i - |f| - |s|]; }
    }
  }

  /**
   * What `extract` promises: one entry per visible solid fill, per visible
   * solid stroke and for a background colour, grouped in that order; every
   * hex is the colour's upper-case spelling; a background is fully opaque and
   * no entry has opacity 0.
   */
  lemma {:induction false} NodeColorsSpec(n: DocNode)
    ensures var cs := NodeColors(n);
      && |cs| == VisibleSolidsIn(n.fills) + VisibleSolidsIn(n.strokes) + (if n.backgroundColor.Some? then 1 else 0)
      && (forall i, j :: 0 <= i < j < |cs| ==> Rank(cs[i].usage) <= Rank(cs[j].usage))
      && (forall i :: 0 <= i < |cs| ==> cs[i].hex == ColorRgbToHex(cs[i].rgb) && cs[i].opacity != 0.0)
      && (forall i :: 0 <= i < |cs| && cs[i].usage == BackgroundUsage ==>
            n.backgroundColor == Some(cs[i].rgb) && cs[i].opacity == 1.0)
  {
    var f, s, b := FillColors(n), StrokeColors(n), BackgroundColors(n.backgroundColor);
    assert NodeColors(n) == f + s + b;
    GroupsInRankOrder(f, s, b);
    OwnEntries(f, s, b);
  }

  lemma {:induction false} OwnEntries(f: seq<ColorData>, s: seq<ColorData>, b: seq<ColorData>)
    requires forall i :: 0 <= i < |f| ==> f[i].usage == FillUsage && f[i].hex == ColorRgbToHex(f[i].rgb) && f[i].opacity != 0.0
    requires forall i :: 0 <= i < |s| ==> s[i].usage == StrokeUsage && s[i].hex == ColorRgbToHex(s[i].rgb) && s[i].opacity != 0.0
    requires forall i :: 0 <= i < |b| ==> b[i].usage == BackgroundUsage && b[i].hex == ColorRgbToHex(b[i].rgb) && b[i].opacity == 1.0
    ensures var cs := f + s + b;
      && (forall i :: 0 <= i < |cs| ==> cs[i].hex == ColorRgbToHex(cs[i].rgb) && cs[i].opacity != 0.0)
      && (forall i :: 0 <= i < |cs| && cs[i].usage == BackgroundUsage ==> cs[i] in b)
  {
    var cs := f + s + b;
    forall i | 0 <= i < |cs|
      ensures cs[i].hex == ColorRgbToHex(cs[i].rgb) && cs[i].opacity != 0.0
      ensures cs[i].usage == BackgroundUsage ==> cs[i] in b
    {
      if i < |f| { assert cs[i] == f[i]; }
      else if i < |f| + |s| { assert cs[i] == s[i - |f|]; }
      else { assert cs[i] == b[i - |f| - |s|]; }
    }
  }

  /** `extract` looks at the node's own keys only: replacing its children changes nothing. */
  lemma ExtractIgnoresChildren(n: DocNode, children: seq<DocNode>)
    ensures NodeColors(n.(children := children)) == NodeColors(n)
  {
  }

  /** The `forEach` loop over one paint list. */
  method PushPaints(ps: seq<Paint>, usage: ColorUsage, colors: seq<ColorData>) returns (out: seq<ColorData>)
    ensures out == colors + PaintColors(ps, usage)
  {
    out := colors;
    var i := 0;
    while i < |ps|
      invariant 0 <= i <= |ps|
      invariant out == colors + PaintColors(ps[..i], usage)
    {
      PaintColorsStep(ps, usage, i);
      ghost var prev := PaintColors(ps[..i], usage);
      if IsVisibleSolid(ps[i]) {
        var entry := PaintColor(ps[i], usage);
        AppendAssoc(colors, prev, [entry]);
        out := out + [entry];
      }
      i := i + 1;
    }
    assert ps[..i] == ps;
  }

  /** One more paint of the list appends at most its own entry. */
  lemma PaintColorsStep(ps: seq<Paint>, usage: ColorUsage, i: nat)
    requires i < |ps|
    ensures PaintColors(ps[..i + 1], usage)
      == PaintColors(ps[..i], usage) + (if IsVisibleSolid(ps[i]) then [PaintColor(ps[i], usage)] else [])
  {
    assert ps[..i + 1][..i] == ps[..i];
  }

  /** `extract(node)` */
  method Extract(n: DocNode) returns (colors: seq<ColorData>)
    ensures colors == NodeColors(n)
  {
    colors := [];
    if n.fills.Some? {
      colors := PushPaints(n.fills.value, FillUsage, colors);
    }
    assert colors == FillColors(n);
    if n.strokes.Some? {
      colors := PushPaints(n.strokes.value, StrokeUsage, colors);
    }
    assert colors == FillColors(n) + StrokeColors(n);
    if n.backgroundColor.Some? {
      colors := colors + [ColorData(ColorRgbToHex(n.backgroundColor.value), n.backgroundColor.value, BackgroundUsage, 1.0)];
    }
  }

  /** The `traverse` closure of `extractAll`. */
  method TraverseColors(n: DocNode, acc: seq<ColorData>) returns (out: seq<ColorData>)
    ensures out == acc + Collect(NodeColors, n)
    decreases n
  {
    var own := Extract(n);
    out := acc + own;
    ghost var afterOwn := out;
    var i := 0;
    while i < |n.children|
      invariant 0 <= i <= |n.children|
      invariant out == afterOwn + CollectAll(NodeColors, n.children[..i])
    {
      assert n.children[..i + 1][..i] == n.children[..i];
      AppendAssoc(afterOwn, CollectAll(NodeColors, n.children[..i]), Collect(NodeColors, n.children[i]));
      out := TraverseColors(n.children[i], out);
      i := i + 1;
    }
    assert n.children[..i] == n.children;
    AppendAssoc(acc, own, CollectAll(NodeColors, n.children));
  }

  /** `extractAll(node)`: every node's colours, the nodes taken in depth-first pre-order. */
  method ExtractAll(n: DocNode) returns (colors: seq<ColorData>)
    ensures colors == FlatMap(NodeColors, PreOrder(n))
  {
    colors := TraverseColors(n, []);
    CollectIsPreOrder(NodeColors, n);
  }
}
