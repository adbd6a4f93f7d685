/**
 * `extractAllColors` (packages/figma-plugin/src/code.ts): every SOLID fill
 * and stroke not marked `visible: false`, plus every SOLID fill of a TEXT
 * node a second time under `'text'` (with no visibility test), tallied by hex
 * during a pre-order walk, then sorted by count.
 */
module PluginColors {
  import opened Wrappers
  import opened FigmaTypes
  import opened HexColor
  import opened Scene
  import opened ColorTally
  import opened SeqLemmas

  /** Whether a paint is tallied: SOLID and, when `visibleOnly`, not marked hidden. */
  predicate Counted(p: Paint, visibleOnly: bool) {
    p.Solid? && (!visibleOnly || p.NotHidden())
  }

  /** `Counted` with the visibility switch fixed, as a filter. */
  function CountedIn(visibleOnly: bool): Paint -> bool {
    (p: Paint) => Counted(p, visibleOnly)
  }

  /** How many of `ps` are tallied. */
  function CountCounted(ps: seq<Paint>, visibleOnly: bool): nat {
    if ps == [] then 0 else CountCounted(ps[..|ps| - 1], visibleOnly) + (if Counted(ps[|ps| - 1], visibleOnly) then 1 else 0)
  }

  /** The occurrences the paint list `ps` contributes under tag `usage`, in order. */
  function PaintOccurrences(ps: seq<Paint>, usage: Usage, visibleOnly: bool): (os: seq<Occurrence>)
    ensures |os| == CountCounted(ps, visibleOnly)
    ensures forall i :: 0 <= i < |os| ==> os[i].usage == usage
  {
    if ps == [] then []
    else
      var p := ps[|ps| - 1];
      PaintOccurrences(ps[..|ps| - 1], usage, visibleOnly)
      + (if Counted(p, visibleOnly) then [Occurrence(RgbToHex(p.color.r, p.color.g, p.color.b), usage)] else [])
  }

  /**
   * One occurrence per tallied paint, in list order: the k-th occurrence is
   * the hex of the paint at the k-th tallied position.
   */
  lemma {:induction false} PaintOccurrencesInOrder(ps: seq<Paint>, usage: Usage, visibleOnly: bool)
    ensures |PaintOccurrences(ps, usage, visibleOnly)| == |Positions(CountedIn(visibleOnly), ps)|
    ensures forall k :: 0 <= k < |PaintOccurrences(ps, usage, visibleOnly)| ==>
      var p := ps[Positions(CountedIn(visibleOnly), ps)[k]];
      PaintOccurrences(ps, usage, visibleOnly)[k] == Occurrence(RgbToHex(p.color.r, p.color.g, p.color.b), usage)
  {
    if ps != [] {
      var n := |ps| - 1;
      var init := ps[..n];
      PaintOccurrencesInOrder(init, usage, visibleOnly);
      var os := PaintOccurrences(ps, usage, visibleOnly);
      var front := PaintOccurrences(init, usage, visibleOnly);
      var idx := Positions(CountedIn(visibleOnly), ps);
      var fidx := Positions(CountedIn(visibleOnly), init);
      forall k | 0 <= k < |os|
        ensures os[k] == Occurrence(RgbToHex(ps[idx[k]].color.r, ps[idx[k]].color.g, ps[idx[k]].color.b), usage)
      {
        if k < |front| {
          assert os[k] == front[k] && idx[k] == fidx[k];
          assert ps[fidx[k]] == init[fidx[k]];
        }
      }
    }
  }

  function FillOccurrences(n: SceneNode): seq<Occurrence> {
    if n.fills.Some? then PaintOccurrences(n.fills.value, FillUse, true) else []
  }

  function StrokeOccurrences(n: SceneNode): seq<Occurrence> {
    if n.strokes.Some? then PaintOccurrences(n.strokes.value, StrokeUse, true) else []
  }

  function TextOccurrences(n: SceneNode): seq<Occurrence> {
    if n.IsText() && n.fills.Some? then PaintOccurrences(n.fills.value, TextUse, false) else []
  }

  /** What `processNode` tallies for `n` itself: fills, strokes, then text fills. */
  function NodeOccurrences(n: SceneNode): seq<Occurrence> {
    FillOccurrences(n) + StrokeOccurrences(n) + TextOccurrences(n)
  }

  /**
   * A TEXT node's SOLID fills count twice, once under `'fill'` when visible
   * and once under `'text'` whether visible or not.
   */
  lemma NodeOccurrencesCount(n: SceneNode)
    ensures |NodeOccurrences(n)| ==
      (if n.fills.Some? then CountCounted(n.fills.value, true) else 0)
      + (if n.strokes.Some? then CountCounted(n.strokes.value, true) else 0)
      + (if n.IsText() && n.fills.Some? then CountCounted(n.fills.value, false) else 0)
  {
  }

  /** A hidden SOLID fill on a TEXT node is tallied only under `'text'`. */
  lemma HiddenTextFill(n: SceneNode, color: Rgb)
    requires n.IsText() && n.fills == Some([Solid(color, Some(false), None)]) && n.strokes.None?
    ensures NodeOccurrences(n) == [Occurrence(RgbToHex(color.r, color.g, color.b), TextUse)]
  {
    var ps := [Solid(color, Some(false), None)];
    assert ps[..0] == [];
  }

  /** One paint loop of `processNode`, tallying into the caller's map. */
  method TallyPaints(colorSet: seq<ColorRecord>, ps: seq<Paint>, usage: Usage, visibleOnly: bool)
    returns (out: seq<ColorRecord>)
    ensures out == TallyAll(colorSet, PaintOccurrences(ps, usage, visibleOnly))
  {
    out := colorSet;
    var i := 0;
    while i < |ps|
      invariant 0 <= i <= |ps|
      invariant out == TallyAll(colorSet, PaintOccurrences(ps[..i], usage, visibleOnly))
    {
      assert ps[..i + 1][..i] == ps[..i];
      var p := ps[i];
      ghost var before := PaintOccurrences(ps[..i], usage, visibleOnly);
      if Counted(p, visibleOnly) {
        var hex := RgbToHex(p.color.r, p.color.g, p.color.b);
        out := Tally(out, Occurrence(hex, usage));
        assert before + [Occurrence(hex, usage)] == PaintOccurrences(ps[..i + 1], usage, visibleOnly);
        TallyAllAppend(colorSet, before, [Occurrence(hex, usage)]);
        assert [Occurrence(hex, usage)][..0] == [];
      } else {
        assert before + [] == before;
      }
      i := i + 1;
    }
    assert ps[..i] == ps;
  }

  /** The three paint loops of `processNode`: fills, strokes, text fills. */
  method ProcessOwnPaints(node: SceneNode, colorSet: seq<ColorRecord>) returns (out: seq<ColorRecord>)
    ensures out == TallyAll(colorSet, NodeOccurrences(node))
  {
    out := colorSet;
    if node.fills.Some? {
      out := TallyPaints(out, node.fills.value, FillUse, true);
    }
    ghost var fillPart := FillOccurrences(node);
    if node.strokes.Some? {
      out := TallyPaints(out, node.strokes.value, StrokeUse, true);
    }
    ghost var strokePart := StrokeOccurrences(node);
    TallyAllAppend(colorSet, fillPart, strokePart);
    if node.IsText() && node.fills.Some? {
      out := TallyPaints(out, node.fills.value, TextUse, false);
    }
    ghost var textPart := TextOccurrences(node);
    TallyAllAppend(colorSet, fillPart + strokePart, textPart);
  }

  /** `processNode`: the node's own paints, then each child in order. */
  method ProcessNode(node: SceneNode, colorSet: seq<ColorRecord>) returns (out: seq<ColorRecord>)
    ensures out == TallyAll(colorSet, Collect(NodeOccurrences, node))
    decreases node
  {
    out := ProcessOwnPaints(node, colorSet);
    ghost var afterOwn := out;
    var children := node.children;
    var j := 0;
    while j < |children|
      invariant 0 <= j <= |children|
      invariant out == TallyAll(afterOwn, CollectAll(NodeOccurrences, children[..j]))
    {
      assert children[..j + 1][..j] == children[..j];
      TallyAllAppend(afterOwn, CollectAll(NodeOccurrences, children[..j]), Collect(NodeOccurrences, children[j]));
      out := ProcessNode(children[j], out);
      j := j + 1;
    }
    assert children[..j] == children;
    TallyAllAppend(colorSet, NodeOccurrences(node), CollectAll(NodeOccurrences, children));
  }

  /** The array `extractAllColors` returns for `nodes`. */
  function AllColors(nodes: seq<SceneNode>): seq<ColorRecord> {
    SortByCount(TallyAll([], CollectAll(NodeOccurrences, nodes)))
  }

  /** `extractAllColors(nodes)` */
  method ExtractAllColors(nodes: seq<SceneNode>) returns (colors: seq<ColorRecord>)
    ensures colors == AllColors(nodes)
  {
    var colorSet: seq<ColorRecord> := [];
    var i := 0;
    while i < |nodes|
      invariant 0 <= i <= |nodes|
      invariant colorSet == TallyAll([], CollectAll(NodeOccurrences, nodes[..i]))
    {
      assert nodes[..i + 1][..i] == nodes[..i];
      TallyAllAppend([], CollectAll(NodeOccurrences, nodes[..i]), Collect(NodeOccurrences, nodes[i]));
      colorSet := ProcessNode(nodes[i], colorSet);
      i := i + 1;
    }
    assert nodes[..i] == nodes;
    colors := SortByCount(colorSet);
  }

  /**
   * With `os` the occurrences of every node in pre-order, the result has one
   * record per distinct hex of `os`; each record's count is that hex's number
   * of occurrences and its usage lists, without repeats, exactly the tags it
   * occurred under; counts are non-increasing, records of equal count keep
   * first-seen order, and the counts add up to `|os|`.
   */
  lemma AllColorsSpec(nodes: seq<SceneNode>)
    ensures var os := FlatMap(NodeOccurrences, PreOrderAll(nodes));
      var colors := AllColors(nodes);
      var tally := TallyAll([], os);
      && DistinctHexes(colors)
      && (forall h :: (exists i :: 0 <= i < |colors| && colors[i].hex == h) <==> CountHex(os, h) > 0)
      && (forall i :: 0 <= i < |colors| ==> colors[i].count == CountHex(os, colors[i].hex))
      && (forall i :: 0 <= i < |colors| ==> DistinctUsage(colors[i].usage))
      && (forall i, u :: 0 <= i < |colors| ==> (u in colors[i].usage <==> Occurrence(colors[i].hex, u) in os))
      && SortedByCount(colors)
      && (forall c: nat :: WithCount(colors, c) == WithCount(tally, c))
      && (forall i, j :: 0 <= i < j < |colors| && colors[i].count == colors[j].count ==>
            SeenBefore(os, colors[i].hex, colors[j].hex))
      && TotalCount(colors) == |os|
  {
    CollectAllIsPreOrder(NodeOccurrences, nodes);
    SortedTallySpec(FlatMap(NodeOccurrences, PreOrderAll(nodes)));
  }

  /** `AllColorsSpec` for any occurrence sequence, tallied and then sorted. */
  lemma SortedTallySpec(os: seq<Occurrence>)
    ensures var tally := TallyAll([], os);
      var colors := SortByCount(tally);
      && DistinctHexes(colors)
      && (forall h :: (exists i :: 0 <= i < |colors| && colors[i].hex == h) <==> CountHex(os, h) > 0)
      && (forall i :: 0 <= i < |colors| ==> colors[i].count == CountHex(os, colors[i].hex))
      && (forall i :: 0 <= i < |colors| ==> DistinctUsage(colors[i].usage))
      && (forall i, u :: 0 <= i < |colors| ==> (u in colors[i].usage <==> Occurrence(colors[i].hex, u) in os))
      && SortedByCount(colors)
      && (forall c: nat :: WithCount(colors, c) == WithCount(tally, c))
      && (forall i, j :: 0 <= i < j < |colors| && colors[i].count == colors[j].count ==>
            SeenBefore(os, colors[i].hex, colors[j].hex))
      && TotalCount(colors) == |os|
  {
    var tally := TallyAll([], os);
    var colors := SortByCount(tally);
    TallyAllSummarises(os);
    SortByCountSpec(tally);
    SortByCountDistinct(tally);
    PermutedSummary(tally, colors, os);
    TallyAllFirstSeen(os);
    forall c: nat
      ensures FirstSeenOrder(WithCount(colors, c), os)
    {
      WithCountKeepsOrder(tally, os, c);
    }
    EqualCountsInOrder(colors, os);
  }

  /** A permutation of a summary's records still describes the same occurrences. */
  lemma PermutedSummary(tally: seq<ColorRecord>, colors: seq<ColorRecord>, os: seq<Occurrence>)
    requires Summarises(tally, os)
    requires multiset(colors) == multiset(tally)
    ensures forall h :: (exists i :: 0 <= i < |colors| && colors[i].hex == h) <==> CountHex(os, h) > 0
    ensures forall i :: 0 <= i < |colors| ==> colors[i].count == CountHex(os, colors[i].hex)
    ensures forall i :: 0 <= i < |colors| ==> DistinctUsage(colors[i].usage)
    ensures forall i, u :: 0 <= i < |colors| ==> (u in colors[i].usage <==> Occurrence(colors[i].hex, u) in os)
  {
    forall i | 0 <= i < |colors|
      ensures exists k :: 0 <= k < |tally| && tally[k] == colors[i]
    {
      assert colors[i] in multiset(tally);
    }
    forall h
      ensures (exists i :: 0 <= i < |colors| && colors[i].hex == h) <==> CountHex(os, h) > 0
    {
      if CountHex(os, h) > 0 {
        var k := Find(tally, h).value;
        assert tally[k] in multiset(colors);
        var i :| 0 <= i < |colors| && colors[i] == tally[k];
      }
    }
  }
}
