/**
 * The shape-only parts of the plugin's design extraction
 * (packages/figma-plugin/src/code.ts): the layout of each selected node, and
 * the node tree with depths and child counts.
 */
module PluginStructure {
  import opened Wrappers
  import opened Scene

  /** The auto-layout keys `extractLayoutInfo` adds when the node has `layoutMode`. */
  datatype LayoutDetails = LayoutDetails(
    layoutMode: string,
    primaryAxisAlignItems: string,
    counterAxisAlignItems: string,
    paddingLeft: Option<real>,
    paddingRight: Option<real>,
    paddingTop: Option<real>,
    paddingBottom: Option<real>,
    itemSpacing: Option<real>)

  /** The record `extractLayoutInfo` builds per selected node; `None` stands for `null`/absent. */
  datatype LayoutInfo = LayoutInfo(
    name: string,
    nodeType: string,
    width: Option<real>,
    height: Option<real>,
    x: Option<real>,
    y: Option<real>,
    autoLayout: Option<LayoutDetails>)

  function LayoutOf(n: SceneNode): (l: LayoutInfo)
    ensures l.name == n.name && l.nodeType == n.nodeType
    ensures l.width == n.width && l.height == n.height && l.x == n.x && l.y == n.y
    ensures l.autoLayout.Some? <==> n.autoLayout.Some?
    ensures l.autoLayout.Some? ==>
      && l.autoLayout.value.layoutMode == n.autoLayout.value.layoutMode
      && (l.autoLayout.value.paddingLeft.Some? <==> n.padding.Some?)
      && (n.padding.Some? ==>
            l.autoLayout.value.paddingLeft == Some(n.padding.value.left)
            && l.autoLayout.value.paddingBottom == Some(n.padding.value.bottom))
      && l.autoLayout.value.itemSpacing == n.itemSpacing
  {
    LayoutInfo(
      n.name, n.nodeType, n.width, n.height, n.x, n.y,
      match n.autoLayout
      case None => None
      case Some(a) =>
        Some(LayoutDetails(
          a.layoutMode, a.primaryAxisAlignItems, a.counterAxisAlignItems,
          if n.padding.Some? then Some(n.padding.value.left) else None,
          if n.padding.Some? then Some(n.padding.value.right) else None,
          if n.padding.Some? then Some(n.padding.value.top) else None,
          if n.padding.Some? then Some(n.padding.value.bottom) else None,
          n.itemSpacing)))
  }

  /** `extractLayoutInfo(nodes)`: `nodes.map(...)` over the selected nodes only. */
  function ExtractLayoutInfo(nodes: seq<SceneNode>): (layouts: seq<LayoutInfo>)
    ensures |layouts| == |nodes|
    ensures forall i :: 0 <= i < |nodes| ==> layouts[i] == LayoutOf(nodes[i])
  {
    if nodes == [] then [] else ExtractLayoutInfo(nodes[..|nodes| - 1]) + [LayoutOf(nodes[|nodes| - 1])]
  }

  /** Unlike the other walks, the layout inventory never looks below the selected nodes. */
  lemma LayoutIgnoresChildren(nodes: seq<SceneNode>, others: seq<SceneNode>)
    requires |nodes| == |others|
    requires forall i :: 0 <= i < |nodes| ==> others[i] == nodes[i].(children := others[i].children)
    ensures ExtractLayoutInfo(others) == ExtractLayoutInfo(nodes)
  {
    forall i | 0 <= i < |nodes|
      ensures LayoutOf(others[i]) == LayoutOf(nodes[i])
    {
      assert others[i].autoLayout == nodes[i].autoLayout && others[i].padding == nodes[i].padding;
    }
  }

  /**
   * A node of `extractStructure`'s tree. The `children` and `childCount` keys
   * are written together; when they are absent, `children` is empty and
   * `childCount` is `None`.
   */
  datatype TreeEntry = TreeEntry(
    name: string,
    nodeType: string,
    id: string,
    depth: nat,
    children: seq<TreeEntry>,
    childCount: Option<nat>)

  /** `buildTree(node, depth)` */
  function BuildTree(node: SceneNode, depth: nat): (t: TreeEntry)
    ensures t.name == node.name && t.nodeType == node.nodeType && t.id == node.id && t.depth == depth
    ensures t.childCount.Some? <==> |node.children| > 0
    ensures t.childCount.Some? ==> t.childCount.value == |t.children|
    ensures |t.children| == |node.children|
    ensures forall i :: 0 <= i < |node.children| ==>
      t.children[i].depth == depth + 1 && t.children[i].id == node.children[i].id
    decreases node
  {
    if |node.children| > 0 then
      TreeEntry(node.name, node.nodeType, node.id, depth, BuildForest(node.children, depth + 1), Some(|node.children|))
    else
      TreeEntry(node.name, node.nodeType, node.id, depth, [], None)
  }

  /** `children.map(child => buildTree(child, depth))` */
  function BuildForest(nodes: seq<SceneNode>, depth: nat): (ts: seq<TreeEntry>)
    ensures |ts| == |nodes|
    ensures forall i :: 0 <= i < |nodes| ==> ts[i] == BuildTree(nodes[i], depth)
    decreases nodes
  {
    if nodes == [] then [] else BuildForest(nodes[..|nodes| - 1], depth) + [BuildTree(nodes[|nodes| - 1], depth)]
  }

  /** `extractStructure(nodes)`: the selected nodes are the roots, at depth 0. */
  function ExtractStructure(nodes: seq<SceneNode>): (ts: seq<TreeEntry>)
    ensures |ts| == |nodes|
    ensures forall i :: 0 <= i < |nodes| ==> ts[i].depth == 0 && ts[i].id == nodes[i].id
  {
    BuildForest(nodes, 0)
  }

  /** How many entries a structure tree holds. */
  function Size(t: TreeEntry): nat
    decreases t
  {
    1 + SizeAll(t.children)
  }

  function SizeAll(ts: seq<TreeEntry>): nat
    decreases ts
  {
    if ts == [] then 0 else SizeAll(ts[..|ts| - 1]) + Size(ts[|ts| - 1])
  }

  /** The structure tree has one entry per node of the scene tree, none lost, none added. */
  lemma {:induction false} StructureCoversTree(node: SceneNode, depth: nat)
    ensures Size(BuildTree(node, depth)) == |PreOrder(node)|
    decreases node, 1
  {
    StructureCoversForest(node.children, depth + 1);
  }

  lemma {:induction false} StructureCoversForest(nodes: seq<SceneNode>, depth: nat)
    ensures SizeAll(BuildForest(nodes, depth)) == |PreOrderAll(nodes)|
    decreases nodes, 0
  {
    if nodes != [] {
      var pre := nodes[..|nodes| - 1];
      StructureCoversForest(pre, depth);
      StructureCoversTree(nodes[|nodes| - 1], depth);
      var ts := BuildForest(nodes, depth);
      assert ts[..|ts| - 1] == BuildForest(pre, depth);
    }
  }
}
