/**
 * The server's view of a Figma file: nodes of the REST document as the
 * extractors under src/extractors receive them, and the depth-first
 * pre-order `traverse` closure shared by their `extractAll` methods.
 */
module DocTree {
  import opened Wrappers
  import opened FigmaTypes

  /** `node.style` of a TEXT node; every key may be missing. */
  datatype TypeStyle = TypeStyle(
    fontFamily: Option<string>,
    fontSize: Option<real>,
    fontWeight: Option<real>,
    lineHeightPx: Option<real>,
    lineHeightPercent: Option<real>,
    letterSpacing: Option<real>,
    textAlignHorizontal: Option<string>,
    textCase: Option<string>)

  /**
   * A REST document node. `None` is a missing key; an array or object key is
   * truthy whenever present. A missing `children` key and an empty array are
   * the same to every traversal, so `children` is a plain sequence.
   */
  datatype DocNode = DocNode(
    id: string,
    name: string,
    nodeType: string,
    fills: Option<seq<Paint>>,
    strokes: Option<seq<Paint>>,
    backgroundColor: Option<Rgb>,
    style: Option<TypeStyle>,
    absoluteBoundingBox: Option<Rect>,
    constraints: Option<Constraints>,
    effects: Option<seq<Effect>>,
    layoutMode: Option<string>,
    paddingTop: Option<real>,
    paddingRight: Option<real>,
    paddingBottom: Option<real>,
    paddingLeft: Option<real>,
    itemSpacing: Option<real>,
    children: seq<DocNode>)

  /** `x || d` for a number key: a missing key or 0 gives the default. */
  function NumberOr(x: Option<real>, d: real): (v: real)
    ensures x.Some? && x.value != 0.0 ==> v == x.value
    ensures x.None? || x.value == 0.0 ==> v == d
  {
    if x.Some? && x.value != 0.0 then x.value else d
  }

  /** `x || d` for a string key: a missing key or "" gives the default. */
  function TextOr(x: Option<string>, d: string): (v: string)
    ensures x.Some? && x.value != "" ==> v == x.value
    ensures x.None? || x.value == "" ==> v == d
  {
    if x.Some? && x.value != "" then x.value else d
  }

  /** The nodes under `n`, in depth-first pre-order. */
  function PreOrder(n: DocNode): (ns: seq<DocNode>)
    ensures |ns| >= 1 && ns[0] == n
    decreases n
  {
    [n] + PreOrderAll(n.children)
  }

  function PreOrderAll(roots: seq<DocNode>): seq<DocNode>
    decreases roots
  {
    if roots == [] then [] else PreOrderAll(roots[..|roots| - 1]) + PreOrder(roots[|roots| - 1])
  }

  function FlatMap<T>(f: DocNode -> seq<T>, ns: seq<DocNode>): seq<T> {
    if ns == [] then [] else FlatMap(f, ns[..|ns| - 1]) + f(ns[|ns| - 1])
  }

  /** What `traverse(n)` pushes: `n`'s own entries, then each child's. */
  function Collect<T>(f: DocNode -> seq<T>, n: DocNode): seq<T>
    decreases n
  {
    f(n) + CollectAll(f, n.children)
  }

  function CollectAll<T>(f: DocNode -> seq<T>, roots: seq<DocNode>): seq<T>
    decreases roots
  {
    if roots == [] then [] else CollectAll(f, roots[..|roots| - 1]) + Collect(f, roots[|roots| - 1])
  }

  lemma {:induction false} FlatMapAppend<T>(f: DocNode -> seq<T>, ns: seq<DocNode>, ms: seq<DocNode>)
    ensures FlatMap(f, ns + ms) == FlatMap(f, ns) + FlatMap(f, ms)
  {
    if ms == [] {
      assert ns + ms == ns;
    } else {
      FlatMapAppend(f, ns, ms[..|ms| - 1]);
      assert (ns + ms)[..|ns + ms| - 1] == ns + ms[..|ms| - 1];
      assert (ns + ms)[|ns + ms| - 1] == ms[|ms| - 1];
    }
  }

  /** The recursive traversal visits the tree's nodes in pre-order, each once. */
  lemma {:induction false} CollectIsPreOrder<T>(f: DocNode -> seq<T>, n: DocNode)
    ensures Collect(f, n) == FlatMap(f, PreOrder(n))
    decreases n, 1
  {
    CollectAllIsPreOrder(f, n.children);
    FlatMapAppend(f, [n], PreOrderAll(n.children));
    assert [n][..0] == [];
  }

  lemma {:induction false} CollectAllIsPreOrder<T>(f: DocNode -> seq<T>, roots: seq<DocNode>)
    ensures CollectAll(f, roots) == FlatMap(f, PreOrderAll(roots))
    decreases roots, 0
  {
    if roots != [] {
      var last := roots[|roots| - 1];
      CollectAllIsPreOrder(f, roots[..|roots| - 1]);
      CollectIsPreOrder(f, last);
      FlatMapAppend(f, PreOrderAll(roots[..|roots| - 1]), PreOrder(last));
    }
  }

  /** The `traverse` closure: push `f(n)` onto the shared array, then recurse into the children. */
  method Traverse<T>(f: DocNode -> seq<T>, n: DocNode, acc: seq<T>) returns (out: seq<T>)
    ensures out == acc + Collect(f, n)
    decreases n
  {
    out := acc + f(n);
    var i := 0;
    while i < |n.children|
      invariant 0 <= i <= |n.children|
      invariant out == acc + f(n) + CollectAll(f, n.children[..i])
    {
      assert n.children[..i + 1][..i] == n.children[..i];
      out := Traverse(f, n.children[i], out);
      i := i + 1;
    }
    assert n.children[..i] == n.children;
  }

  /** How many of `ns` satisfy `p`. */
  function Count(p: DocNode -> bool, ns: seq<DocNode>): nat {
    if ns == [] then 0 else Count(p, ns[..|ns| - 1]) + (if p(ns[|ns| - 1]) then 1 else 0)
  }

  /** A traversal that pushes one entry per node satisfying `p`, and none for others, pushes `Count(p, ...)` entries. */
  lemma {:induction false} FlatMapCount<T>(f: DocNode -> seq<T>, p: DocNode -> bool, ns: seq<DocNode>)
    requires forall n :: |f(n)| == if p(n) then 1 else 0
    ensures |FlatMap(f, ns)| == Count(p, ns)
  {
    if ns != [] {
      FlatMapCount(f, p, ns[..|ns| - 1]);
    }
  }
}
