/**
 * The plugin's view of the Figma document: `SceneNode`s as the host API hands
 * them to packages/figma-plugin/src/code.ts, and the depth-first pre-order walk
 * every `extract*`/`analyzeNode` function performs over the selection.
 */
module Scene {
  import opened Wrappers
  import opened FigmaTypes
  import opened SeqLemmas

  /** A property the host reports either as a value or as `figma.mixed` (a symbol). */
  datatype Mixable<T> = Value(value: T) | Mixed

  datatype FontName = FontName(family: string, style: string)

  /** Figma's `LineHeight`. */
  datatype LineHeight = AutoLineHeight | Pixels(px: real) | Percent(percent: real)

  /** Figma's `LetterSpacing`. */
  datatype LetterSpacing = LetterSpacing(amount: real, unit: string)

  /** The properties only a TEXT node carries. */
  datatype TextProps = TextProps(
    fontName: Mixable<FontName>,
    fontSize: Mixable<real>,
    lineHeight: Mixable<LineHeight>,
    letterSpacing: Mixable<LetterSpacing>,
    textCase: Mixable<string>,
    textAlignHorizontal: string,
    characters: string)

  /** `paddingLeft`, `paddingRight`, `paddingTop`, `paddingBottom` of a frame-like node. */
  datatype Padding = Padding(left: real, right: real, top: real, bottom: real)

  /** The auto-layout settings present on nodes that have `layoutMode`. */
  datatype AutoLayout = AutoLayout(layoutMode: string, primaryAxisAlignItems: string, counterAxisAlignItems: string)

  /**
   * A scene node. Each `Option` field is `None` when the `'x' in node` probe
   * fails; `fills`/`strokes` are also `None` when not an array (`figma.mixed`).
   * A missing `children` list and an empty one are the same to every walk, so
   * `children` is a plain sequence.
   */
  datatype SceneNode = SceneNode(
    id: string,
    name: string,
    nodeType: string,
    fills: Option<seq<Paint>>,
    strokes: Option<seq<Paint>>,
    text: Option<TextProps>,
    padding: Option<Padding>,
    itemSpacing: Option<real>,
    autoLayout: Option<AutoLayout>,
    cornerRadius: Option<Mixable<real>>,
    width: Option<real>,
    height: Option<real>,
    x: Option<real>,
    y: Option<real>,
    description: Option<string>,
    children: seq<SceneNode>)
  {
    /** `node.type === 'TEXT'`, for which the host guarantees the text properties. */
    predicate IsText() {
      nodeType == "TEXT" && text.Some?
    }
  }

  /** The nodes of the tree rooted at `n`, in depth-first pre-order. */
  function PreOrder(n: SceneNode): (ns: seq<SceneNode>)
    ensures |ns| >= 1 && ns[0] == n
    decreases n
  {
    [n] + PreOrderAll(n.children)
  }

  /** The pre-order walks of `roots`, one after another. */
  function PreOrderAll(roots: seq<SceneNode>): (ns: seq<SceneNode>)
    ensures |ns| >= |roots|
    decreases roots
  {
    if roots == [] then [] else PreOrderAll(roots[..|roots| - 1]) + PreOrder(roots[|roots| - 1])
  }

  /** `f` applied to each of `ns` in turn, the results concatenated. */
  function FlatMap<T>(f: SceneNode -> seq<T>, ns: seq<SceneNode>): seq<T> {
    if ns == [] then [] else FlatMap(f, ns[..|ns| - 1]) + f(ns[|ns| - 1])
  }

  /**
   * What a `processNode` closure pushes for the tree under `n`: the node's own
   * entries, then each child's tree in order.
   */
  function Collect<T>(f: SceneNode -> seq<T>, n: SceneNode): seq<T>
    decreases n
  {
    f(n) + CollectAll(f, n.children)
  }

  /** `nodes.forEach(processNode)`: the trees of `roots`, one after another. */
  function CollectAll<T>(f: SceneNode -> seq<T>, roots: seq<SceneNode>): seq<T>
    decreases roots
  {
    if roots == [] then [] else CollectAll(f, roots[..|roots| - 1]) + Collect(f, roots[|roots| - 1])
  }

  lemma {:induction false} FlatMapAppend<T>(f: SceneNode -> seq<T>, ns: seq<SceneNode>, ms: seq<SceneNode>)
    ensures FlatMap(f, ns + ms) == FlatMap(f, ns) + FlatMap(f, ms)
  {
    if ms == [] {
      assert ns + ms == ns;
    } else {
      FlatMapAppend(f, ns, ms[..|ms| - 1]);
      assert (ns + ms)[..|ns + ms| - 1] == ns + ms[..|ms| - 1];
      assert (ns + ms)[|ns + ms| - 1] == ms[|ms| - 1];
    }
  }

  /** The recursive walk visits exactly the pre-order nodes, each once, in pre-order. */
  lemma {:induction false} CollectIsPreOrder<T>(f: SceneNode -> seq<T>, n: SceneNode)
    ensures Collect(f, n) == FlatMap(f, PreOrder(n))
    decreases n, 1
  {
    CollectAllIsPreOrder(f, n.children);
    FlatMapAppend(f, [n], PreOrderAll(n.children));
    assert FlatMap(f, [n]) == f(n) by {
      assert [n][..0] == [];
    }
  }

  lemma {:induction false} CollectAllIsPreOrder<T>(f: SceneNode -> seq<T>, roots: seq<SceneNode>)
    ensures CollectAll(f, roots) == FlatMap(f, PreOrderAll(roots))
    decreases roots, 0
  {
    if roots != [] {
      var last := roots[|roots| - 1];
      CollectAllIsPreOrder(f, roots[..|roots| - 1]);
      CollectIsPreOrder(f, last);
      FlatMapAppend(f, PreOrderAll(roots[..|roots| - 1]), PreOrder(last));
    }
  }

  /** The walk only appends: the entries of earlier roots are a prefix of the result. */
  lemma {:induction false} CollectAllPrefix<T>(f: SceneNode -> seq<T>, roots: seq<SceneNode>, k: nat)
    requires k <= |roots|
    ensures CollectAll(f, roots[..k]) <= CollectAll(f, roots)
  {
    if k < |roots| {
      var m := |roots| - 1;
      CollectAllPrefix(f, roots[..m], k);
      assert roots[..m][..k] == roots[..k];
    } else {
      assert roots[..k] == roots;
    }
  }

  /**
   * A node's own entries come before those of any of its descendants: the
   * node's tree starts with its own entries, then the trees of the children
   * before child `i`, then child `i`'s tree.
   */
  lemma NodeBeforeDescendants<T>(f: SceneNode -> seq<T>, n: SceneNode, i: nat)
    requires i < |n.children|
    ensures var front := f(n) + CollectAll(f, n.children[..i]) + Collect(f, n.children[i]);
      front <= Collect(f, n)
  {
    var cs := n.children;
    CollectAllPrefix(f, cs, i + 1);
    assert cs[..i + 1][..i] == cs[..i];
    var whole := CollectAll(f, cs);
    var head := CollectAll(f, cs[..i + 1]);
    var pre := CollectAll(f, cs[..i]);
    var post := whole[|head|..];
    assert head == pre + Collect(f, cs[i]);
    assert whole == head + post;
    assert Collect(f, n) == f(n) + pre + Collect(f, cs[i]) + post;
  }

  /**
   * The shared shape of every `processNode` closure: push this node's entries
   * onto the caller's array, then recurse into the children in order.
   */
  method Visit<T>(f: SceneNode -> seq<T>, node: SceneNode, acc: seq<T>) returns (out: seq<T>)
    ensures out == acc + Collect(f, node)
    decreases node
  {
    out := acc + f(node);
    var i := 0;
    while i < |node.children|
      invariant 0 <= i <= |node.children|
      invariant out == acc + f(node) + CollectAll(f, node.children[..i])
    {
      assert node.children[..i + 1][..i] == node.children[..i];
      out := Visit(f, node.children[i], out);
      i := i + 1;
    }
    assert node.children[..i] == node.children;
  }

  /** `nodes.forEach(processNode)` over a fresh array. */
  method VisitAll<T>(f: SceneNode -> seq<T>, nodes: seq<SceneNode>) returns (out: seq<T>)
    ensures out == CollectAll(f, nodes)
  {
    out := [];
    var i := 0;
    while i < |nodes|
      invariant 0 <= i <= |nodes|
      invariant out == CollectAll(f, nodes[..i])
    {
      assert nodes[..i + 1][..i] == nodes[..i];
      out := Visit(f, nodes[i], out);
      i := i + 1;
    }
    assert nodes[..i] == nodes;
  }

  /** How many of `ns` satisfy `p`. */
  function Count(p: SceneNode -> bool, ns: seq<SceneNode>): nat {
    if ns == [] then 0 else Count(p, ns[..|ns| - 1]) + (if p(ns[|ns| - 1]) then 1 else 0)
  }

  /**
   * The nodes of `ns` satisfying `p`, in order: the k-th result is the node
   * at the k-th matching position.
   */
  function Filter(p: SceneNode -> bool, ns: seq<SceneNode>): (r: seq<SceneNode>)
    ensures |r| == Count(p, ns) == |Positions(p, ns)|
    ensures forall i :: 0 <= i < |r| ==> p(r[i]) && r[i] in ns
    ensures forall k :: 0 <= k < |r| ==> r[k] == ns[Positions(p, ns)[k]]
  {
    if ns == [] then []
    else
      var n := |ns| - 1;
      assert forall i :: 0 <= i < n ==> ns[..n][i] == ns[i];
      Filter(p, ns[..n]) + (if p(ns[n]) then [ns[n]] else [])
  }

  /** `g` applied to each of `ns`. */
  function Map<T>(g: SceneNode -> T, ns: seq<SceneNode>): (r: seq<T>)
    ensures |r| == |ns|
    ensures forall i :: 0 <= i < |ns| ==> r[i] == g(ns[i])
  {
    if ns == [] then [] else Map(g, ns[..|ns| - 1]) + [g(ns[|ns| - 1])]
  }

  /**
   * A walk that pushes one record `g(n)` for each node satisfying `p` and
   * nothing for the others yields exactly the records of the matching nodes,
   * in order.
   */
  lemma {:induction false} FlatMapOfOptional<T>(f: SceneNode -> seq<T>, p: SceneNode -> bool, g: SceneNode -> T, ns: seq<SceneNode>)
    requires forall n :: f(n) == if p(n) then [g(n)] else []
    ensures FlatMap(f, ns) == Map(g, Filter(p, ns))
  {
    if ns != [] {
      FlatMapOfOptional(f, p, g, ns[..|ns| - 1]);
      var last := ns[|ns| - 1];
      var pre := Filter(p, ns[..|ns| - 1]);
      if p(last) {
        assert (pre + [last])[..|pre + [last]| - 1] == pre;
      } else {
        assert pre + [] == pre;
      }
    }
  }
}
