/**
 * The nodes of the abstract syntax tree (hadloc/grammar/abstract_syntax_tree.py).
 * A node has a type, which may be None, a value and a list of children.
 * Adding a child whose type is None adds that child's children instead, so
 * None-typed nodes never end up in a tree built by `add_child`.
 *
 * Nodes are values here: `add_child` gives the node with its children
 * extended. The grammars only ever add children to the fresh node they are
 * building, and never change a node once it has been added, so no other
 * reference can see the difference.
 */
module SyntaxTree {
  import opened Wrappers

  /** The value a node holds: None, the bool that the grammars pass as the
      second argument of the constructor, or a token. */
  datatype NodeValue<T> = NoValue | Flag(b: bool) | Item(token: T)

  datatype Node<T> = Node(nodeType: Option<string>, value: NodeValue<T>, children: seq<Node<T>>)

  /** `ASTNode(node_type, value)`: a node without children. */
  function NewNode<T>(nodeType: Option<string>, value: NodeValue<T>): (n: Node<T>)
    ensures n.children == [] && n.nodeType == nodeType && n.value == value
  {
    Node(nodeType, value, [])
  }

  /** `add_child(child)`: append a typed child; for a None-typed child, add
      each of its children in turn. */
  function AddChild<T>(node: Node<T>, child: Node<T>): Node<T>
    decreases child, |child.children| + 1
  {
    if child.nodeType.Some? then node.(children := node.children + [child])
    else AddEach(node, child, 0)
  }

  /** The loop `for c in child.children: self.add_child(c)` from the k-th child on. */
  function AddEach<T>(node: Node<T>, parent: Node<T>, k: nat): Node<T>
    requires k <= |parent.children|
    decreases parent, |parent.children| - k
  {
    if k == |parent.children| then node
    else AddEach(AddChild(node, parent.children[k]), parent, k + 1)
  }

  /** The nodes a child stands for: itself if it has a type, otherwise the
      nodes its children stand for, in order. */
  function Spliced<T>(child: Node<T>): seq<Node<T>>
    decreases child, |child.children| + 1
  {
    if child.nodeType.Some? then [child] else SplicedFrom(child, 0)
  }

  function SplicedFrom<T>(parent: Node<T>, k: nat): seq<Node<T>>
    requires k <= |parent.children|
    decreases parent, |parent.children| - k
  {
    if k == |parent.children| then [] else Spliced(parent.children[k]) + SplicedFrom(parent, k + 1)
  }

  /** Every node a child stands for has a type. */
  predicate AllTyped<T>(ns: seq<Node<T>>) {
    forall i :: 0 <= i < |ns| ==> ns[i].nodeType.Some?
  }

  /** `add_child` keeps the node's type and value and appends exactly the
      nodes the child stands for: the child itself when it has a type, and
      otherwise its nearest typed descendants, in order. */
  lemma {:induction false} AddChildSplices<T>(node: Node<T>, child: Node<T>)
    ensures AddChild(node, child) == node.(children := node.children + Spliced(child))
    ensures AllTyped(Spliced(child))
    decreases child, |child.children| + 1
  {
    if child.nodeType.None? {
      AddEachSplices(node, child, 0);
    }
  }

  lemma {:induction false} AddEachSplices<T>(node: Node<T>, parent: Node<T>, k: nat)
    requires k <= |parent.children|
    ensures AddEach(node, parent, k) == node.(children := node.children + SplicedFrom(parent, k))
    ensures AllTyped(SplicedFrom(parent, k))
    decreases parent, |parent.children| - k
  {
    if k < |parent.children| {
      var c := parent.children[k];
      AddChildSplices(node, c);
      var next := AddChild(node, c);
      AddEachSplices(next, parent, k + 1);
      assert node.children + Spliced(c) + SplicedFrom(parent, k + 1)
          == node.children + (Spliced(c) + SplicedFrom(parent, k + 1));
    }
  }

  /** A node whose children were all added with `add_child` has only typed
      children. */
  lemma {:induction false} AddChildKeepsTyped<T>(node: Node<T>, child: Node<T>)
    requires AllTyped(node.children)
    ensures AllTyped(AddChild(node, child).children)
    ensures AddChild(node, child).nodeType == node.nodeType && AddChild(node, child).value == node.value
  {
    AddChildSplices(node, child);
    var s := Spliced(child);
    var cs := node.children + s;
    forall i | 0 <= i < |cs|
      ensures cs[i].nodeType.Some?
    {
      if i >= |node.children| {
        assert cs[i] == s[i - |node.children|];
      }
    }
  }

  /** The dict `to_dict` builds: 'type' always, 'children' and 'value' only
      when present; the value as `str(value)`. */
  datatype Dict = Dict(nodeType: Option<string>, children: Option<seq<Dict>>, value: Option<string>)

  /** `str` of a node value: Python's spelling of a bool, the given spelling
      of a token. */
  function Str<T>(v: NodeValue<T>, show: T -> string): string
    requires !v.NoValue?
  {
    if v.Flag? then (if v.b then "True" else "False") else show(v.token)
  }

  /** `to_dict()`. */
  function ToDict<T>(n: Node<T>, show: T -> string): (d: Dict)
    ensures d.nodeType == n.nodeType
    ensures d.children.Some? <==> |n.children| > 0
    ensures d.children.Some? ==> |d.children.value| == |n.children|
    ensures d.value.Some? <==> !n.value.NoValue?
    ensures d.value.Some? ==> d.value.value == Str(n.value, show)
    decreases n, 1
  {
    var d := Dict(n.nodeType, None, None);
    var d := if |n.children| > 0 then d.(children := Some(ToDicts(n, 0, show))) else d;
    if !n.value.NoValue? then d.(value := Some(Str(n.value, show))) else d
  }

  /** `[x.to_dict() for x in self.children]` from the k-th child on. */
  function ToDicts<T>(n: Node<T>, k: nat, show: T -> string): (ds: seq<Dict>)
    requires k <= |n.children|
    ensures |ds| == |n.children| - k
    decreases n, 0, |n.children| - k
  {
    if k == |n.children| then [] else [ToDict(n.children[k], show)] + ToDicts(n, k + 1, show)
  }

  /** `to_dict` keeps the order and the shape of the tree: the j-th entry
      of 'children' is the dict of the j-th child. */
  lemma {:induction false} ToDictChildren<T>(n: Node<T>, j: nat, show: T -> string)
    requires j < |n.children|
    ensures ToDict(n, show).children.Some? && ToDict(n, show).children.value[j] == ToDict(n.children[j], show)
  {
    assert ToDict(n, show).children.value == ToDicts(n, 0, show);
    ToDictsAt(n, 0, j, show);
  }

  /** The j-th dict of the list is the dict of the j-th child. */
  lemma {:induction false} ToDictsAt<T>(n: Node<T>, k: nat, j: nat, show: T -> string)
    requires k <= j < |n.children|
    ensures ToDicts(n, k, show)[j - k] == ToDict(n.children[j], show)
    decreases j - k
  {
    if k < j {
      ToDictsAt(n, k + 1, j, show);
    }
  }
}
