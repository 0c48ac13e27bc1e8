/** Outline navigation: which nodes the tree view shows under a node, which
    node it is told is a node's parent, and the entry it renders for a node.
    A node is identified by its path from the root of the current tree. */
module Outline {
  import opened Wrappers
  import opened JsonTree
  import opened Semantics
  import opened TextDocument
  import opened Text
  import opened Presentation

  /** `_getChildren`: the child nodes of the `children` value.  Without a
      `children` value there are none; when that value is a scalar it has
      no child list and the tree view is handed nothing at all (None). */
  function OutlineChildren(n: Node): (r: Option<seq<Node>>)
    ensures GetProp(n, "children").None? ==> r == Some([])
    ensures r.None? <==> GetProp(n, "children").Some? && Children(GetProp(n, "children").value).None?
    ensures GetProp(n, "children").Some? && GetProp(n, "children").value.Arr?
            ==> r == Some(GetProp(n, "children").value.items)
    ensures GetProp(n, "children").Some? && GetProp(n, "children").value.Obj?
            ==> r.Some? && |r.value| == |GetProp(n, "children").value.props|
                && forall i | 0 <= i < |r.value| :: r.value[i] == PropNode(GetProp(n, "children").value.props[i])
  {
    match GetProp(n, "children")
    case Some(c) => Children(c)
    case None => Some([])
  }

  /** `getChildren`: with no element, the tree's root (if there is a tree);
      with an element, its outline children. */
  function GetChildren(tree: Option<Node>, element: Option<Node>): (r: Option<seq<Node>>)
    ensures element.None? ==> r.Some? && |r.value| <= 1 && (r.value == [] <==> tree.None?)
    ensures element.None? && tree.Some? ==> r.value[0] == tree.value
    ensures element.Some? ==> r == OutlineChildren(element.value)
  {
    match element
    case None => Some(if tree.Some? then [tree.value] else [])
    case Some(e) => OutlineChildren(e)
  }

  /** The collapsible state the tree item gets: expanded exactly when the
      node has a `children` value, whatever that value holds.  Only objects
      qualify, through the first property named `children`. */
  function Expandable(n: Node): (r: bool)
    ensures r <==> n.Obj? && FindProp(n.props, "children").Some?
                   && n.props[FindProp(n.props, "children").value].value.Some?
  {
    GetProp(n, "children").Some?
  }

  /** A node that is not expandable shows no children. */
  lemma NotExpandableHasNoChildren(n: Node)
    requires !Expandable(n)
    ensures OutlineChildren(n) == Some([])
  {
  }

  /** An expandable node need not have any children to show: an empty
      `children` array still marks it expanded. */
  lemma ExpandableWithoutChildren()
    ensures var n := Obj([Property("children", 1, Some(Arr([], 13)))], 0);
            Expandable(n) && OutlineChildren(n) == Some([])
  {
    var n := Obj([Property("children", 1, Some(Arr([], 13)))], 0);
    assert FindProp(n.props, "children") == Some(0);
  }

  datatype Collapsible = Collapsed | Expanded | NotCollapsible

  /** `getTreeItem` without the host widget: the label, the collapsible
      state and the icon key.  The caption is `Label`'s text and the icon
      key is `IconKey`'s, whose own contracts say what they hold. */
  datatype TreeItem = TreeItem(caption: string, state: Collapsible, iconKey: string)

  function GetTreeItem(n: Node, doc: Document): (r: TreeItem)
    ensures r.state != Collapsed
    ensures r.state == Expanded <==> Expandable(n)
    ensures StartsWith(r.caption, BoldValue(ShownType(n)))
    ensures GetType(n) == JStr("stack") ==> r.iconKey in {"stack_v", "stack_h"}
    ensures r.caption == Label(n, doc)
    ensures r.iconKey == IconKey(n)
  {
    TreeItem(Label(n, doc), if Expandable(n) then Expanded else NotCollapsible, IconKey(n))
  }

  /** The path of an outline child: the `j`-th element of the value of the
      `i`-th property, the first one named `children`, of the object at
      `p`.  The `1` is the value's place after the key in the pair. */
  predicate OutlineChildPath(root: Node, p: Path, child: Path) {
    && NodeAt(root, p).Some?
    && var n := NodeAt(root, p).value;
       && n.Obj?
       && FindProp(n.props, "children").Some?
       && |child| == |p| + 3
       && child[..|p|] == p
       && child[|p|] == FindProp(n.props, "children").value
       && child[|p| + 1] == 1
       && OutlineChildren(n).Some?
       && child[|p| + 2] < |OutlineChildren(n).value|
  }

  /** The outline children of the node at `p` are exactly the nodes at the
      outline child paths below `p`, in order. */
  lemma {:induction false} OutlineChildAt(root: Node, p: Path, j: nat)
    requires NodeAt(root, p).Some? && NodeAt(root, p).value.Obj?
    requires OutlineChildren(NodeAt(root, p).value).Some?
    requires j < |OutlineChildren(NodeAt(root, p).value).value|
    ensures FindProp(NodeAt(root, p).value.props, "children").Some?
    ensures var i := FindProp(NodeAt(root, p).value.props, "children").value;
            OutlineChildPath(root, p, p + [i, 1, j])
            && NodeAt(root, p + [i, 1, j]) == Some(OutlineChildren(NodeAt(root, p).value).value[j])
  {
    var n := NodeAt(root, p).value;
    var i := FindProp(n.props, "children").value;
    var pair := PropNode(n.props[i]);
    var v := n.props[i].value.value;
    NodeAtAppend(root, p, i);
    assert NodeAt(root, p + [i]) == Some(pair);
    NodeAtAppend(root, p + [i], 1);
    assert p + [i] + [1] == p + [i, 1];
    assert NodeAt(root, p + [i, 1]) == Some(v);
    NodeAtAppend(root, p + [i, 1], j);
    assert p + [i, 1] + [j] == p + [i, 1, j];
    assert (p + [i, 1, j])[..|p|] == p;
  }

  /** `getParent`: two `parent` hops.  The root and its direct children
      (property pairs) have no answer. */
  function GetParent(path: Path): (r: Option<Path>)
    ensures r.Some? <==> |path| >= 2
    ensures r.Some? ==> |r.value| + 2 == |path| && r.value == path[..|r.value|]
  {
    if |path| >= 2 then Some(path[..|path| - 2]) else None
  }

  /** Two hops up from a top-level property's value is the root object. */
  lemma TopLevelValueParent(i: nat)
    ensures GetParent([i, 1]) == Some([])
  {
  }

  /** Two hops up from an outline child is the `children` property pair,
      a node the outline never shows, and not the object that listed it. */
  lemma {:induction false} ParentOfOutlineChildIsPair(root: Node, p: Path, child: Path)
    requires OutlineChildPath(root, p, child)
    ensures GetParent(child).Some? && GetParent(child).value != p
    ensures NodeAt(root, GetParent(child).value).Some?
    ensures NodeAt(root, GetParent(child).value).value.PropNode?
    ensures NodeAt(root, GetParent(child).value).value.prop.key == "children"
  {
    var n := NodeAt(root, p).value;
    var i := FindProp(n.props, "children").value;
    assert child == p + [i, 1, child[|p| + 2]];
    assert GetParent(child).value == p + [i];
    NodeAtAppend(root, p, i);
  }

  /** The smallest instance: in `{"children":[{}]}` the inner object sits at
      path [0, 1, 0]; its reported parent is path [0], the pair. */
  lemma ParentCounterexample()
    ensures var root := Obj([Property("children", 1, Some(Arr([Obj([], 14)], 13)))], 0);
            && OutlineChildren(root) == Some([Obj([], 14)])
            && NodeAt(root, [0, 1, 0]) == Some(Obj([], 14))
            && GetParent([0, 1, 0]) == Some([0])
            && NodeAt(root, [0]).value.PropNode?
  {
    var root := Obj([Property("children", 1, Some(Arr([Obj([], 14)], 13)))], 0);
    assert FindProp(root.props, "children") == Some(0);
    assert Kids(root)[0] == PropNode(root.props[0]);
    var pair := PropNode(root.props[0]);
    assert Kids(pair)[1] == Arr([Obj([], 14)], 13);
    assert [0, 1, 0][1..] == [1, 0];
    assert [1, 0][1..] == [0];
    assert [0, 1, 0][..1] == [0];
  }

  /** The parent the outline needs: three hops up, over the element's
      array, the `children` pair, to the object whose children it is. */
  function OutlineParent(path: Path): (r: Option<Path>)
    ensures r.Some? <==> |path| >= 3
    ensures r.Some? ==> |r.value| + 3 == |path| && r.value == path[..|r.value|]
  {
    if |path| >= 3 then Some(path[..|path| - 3]) else None
  }

  /** The corrected parent inverts `getChildren`: the parent of every
      outline child of the node at `p` is `p`. */
  lemma {:induction false} OutlineParentInverts(root: Node, p: Path, child: Path)
    requires OutlineChildPath(root, p, child)
    ensures OutlineParent(child) == Some(p)
  {
    assert child[..|child| - 3] == child[..|p|];
  }

  /** Every node reached from the root by `getChildren` has the corrected
      parent of the node it was listed under. */
  lemma {:induction false} OutlineParentOfListed(root: Node, p: Path, j: nat)
    requires NodeAt(root, p).Some? && NodeAt(root, p).value.Obj?
    requires OutlineChildren(NodeAt(root, p).value).Some?
    requires j < |OutlineChildren(NodeAt(root, p).value).value|
    ensures var i := FindProp(NodeAt(root, p).value.props, "children").value;
            OutlineParent(p + [i, 1, j]) == Some(p)
            && GetParent(p + [i, 1, j]) != Some(p)
  {
    OutlineChildAt(root, p, j);
    var i := FindProp(NodeAt(root, p).value.props, "children").value;
    OutlineParentInverts(root, p, p + [i, 1, j]);
    assert (p + [i, 1, j])[..|p| + 1] == p + [i];
  }
}
