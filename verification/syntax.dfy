/**
 * The syntax tree the parser hands over: nodes with a type tag, a byte range
 * into the document, an optional field name under their parent (`left`,
 * `right`) and ordered children. A node's place in the tree is a path of child
 * indices from the root, so its parent is found by dropping the last step
 * instead of through a back-reference.
 */
module Syntax {
  import opened Wrappers

  type Path = seq<nat>

  datatype Node = Node(kind: string, field: Option<string>, start: nat, end: nat, children: seq<Node>)

  datatype Range = Range(start: int, end: int)

  /** `Node#range`: the range that cuts the node's text out of any document holding it. */
  function RangeOf(n: Node): (r: Range)
    ensures r.start == n.start && r.end - r.start == n.end - n.start
    ensures forall doc: string {:trigger Text(doc, n)} :: n.start <= n.end <= |doc| ==>
      && 0 <= r.start <= r.end <= |doc|
      && doc[..r.start] + Text(doc, n) + doc[r.end..] == doc
  {
    Range(n.start, n.end)
  }

  /** Number of nodes in the subtree rooted at `n`. */
  function Size(n: Node): (s: nat)
    ensures s >= 1
    decreases n
  {
    1 + SizeAll(n.children)
  }

  function SizeAll(cs: seq<Node>): nat
    decreases cs
  {
    if cs == [] then 0 else SizeAll(cs[..|cs| - 1]) + Size(cs[|cs| - 1])
  }

  /** The nodes of the subtree in pre-order: a node, then each child's subtree in order. */
  function PreOrder(n: Node): (r: seq<Node>)
    ensures |r| == Size(n) && r[0] == n
    decreases n
  {
    [n] + PreOrderAll(n.children)
  }

  function PreOrderAll(cs: seq<Node>): (r: seq<Node>)
    ensures |r| == SizeAll(cs)
    decreases cs
  {
    if cs == [] then [] else PreOrderAll(cs[..|cs| - 1]) + PreOrder(cs[|cs| - 1])
  }

  /** The type tags of a sequence of nodes. */
  function Kinds(ns: seq<Node>): (r: seq<string>)
    ensures |r| == |ns| && forall i :: 0 <= i < |ns| ==> r[i] == ns[i].kind
  {
    seq(|ns|, i requires 0 <= i < |ns| => ns[i].kind)
  }

  /** The node reached from `root` by following the child indices of `at`. */
  function NodeAt(root: Node, at: Path): Option<Node>
    decreases |at|
  {
    if at == [] then Some(root)
    else if at[0] < |root.children| then NodeAt(root.children[at[0]], at[1..])
    else None
  }

  /**
   * `Node#parent`: the node one step up from position `at`. The root has
   * none; any other node's parent holds it as the child the last step of its
   * path names.
   */
  function Parent(root: Node, at: Path): (r: Option<Node>)
    ensures at == [] ==> r == None
    ensures at != [] ==> r == NodeAt(root, at[..|at| - 1])
    ensures at != [] && NodeAt(root, at).Some? ==>
      && r.Some?
      && at[|at| - 1] < |r.value.children|
      && r.value.children[at[|at| - 1]] == NodeAt(root, at).value
  {
    if at == [] then None
    else
      var up, i := at[..|at| - 1], at[|at| - 1];
      assert at == up + [i];
      NodeAtExtend(root, up, i);
      NodeAt(root, up)
  }

  /** Index of the first child of `n` that sits under field `name`. */
  function FieldIndex(n: Node, name: string): (r: Option<nat>)
    ensures r.Some? ==> r.value < |n.children| && n.children[r.value].field == Some(name)
    ensures r.Some? ==> forall j :: 0 <= j < r.value ==> n.children[j].field != Some(name)
    ensures r.None? ==> forall j :: 0 <= j < |n.children| ==> n.children[j].field != Some(name)
  {
    FieldIndexFrom(n, name, 0)
  }

  function FieldIndexFrom(n: Node, name: string, k: nat): (r: Option<nat>)
    requires k <= |n.children|
    requires forall j :: 0 <= j < k ==> n.children[j].field != Some(name)
    ensures r.Some? ==> k <= r.value < |n.children| && n.children[r.value].field == Some(name)
    ensures r.Some? ==> forall j :: 0 <= j < r.value ==> n.children[j].field != Some(name)
    ensures r.None? ==> forall j :: 0 <= j < |n.children| ==> n.children[j].field != Some(name)
    decreases |n.children| - k
  {
    if k == |n.children| then None
    else if n.children[k].field == Some(name) then Some(k)
    else FieldIndexFrom(n, name, k + 1)
  }

  /** Named field accessors such as `Node#left` and `Node#right`. */
  function Field(n: Node, name: string): (r: Option<Node>)
    ensures r.Some? <==> exists j :: 0 <= j < |n.children| && n.children[j].field == Some(name)
    ensures r.Some? ==> r.value in n.children && r.value.field == Some(name)
    ensures r.Some? ==>
      exists i :: 0 <= i < |n.children| && n.children[i] == r.value
        && (forall j :: 0 <= j < i ==> n.children[j].field != Some(name))
  {
    match FieldIndex(n, name)
    case None => None
    case Some(i) => Some(n.children[i])
  }

  /** `Node#text`: the slice of the document at the node's byte range. */
  function Text(doc: string, n: Node): (t: string)
    requires n.start <= n.end <= |doc|
    ensures |t| == n.end - n.start
    ensures forall i :: 0 <= i < |t| ==> t[i] == doc[n.start + i]
  {
    doc[n.start..n.end]
  }

  /**
   * The range invariant of a parse tree: every node lies within
   * `[lo, hi)`, children lie within their parent and siblings are ordered
   * by start offset without overlapping.
   */
  ghost predicate WithinRange(n: Node, lo: nat, hi: nat)
    decreases n
  {
    && lo <= n.start <= n.end <= hi
    && (forall i :: 0 <= i < |n.children| ==> WithinRange(n.children[i], n.start, n.end))
    && (forall i :: 0 < i < |n.children| ==> n.children[i - 1].end <= n.children[i].start)
  }

  /** Descending one more step appends to the path. */
  lemma {:induction false} NodeAtExtend(root: Node, at: Path, i: nat)
    ensures NodeAt(root, at + [i]) ==
      match NodeAt(root, at)
      case None => None
      case Some(n) => if i < |n.children| then Some(n.children[i]) else None
    decreases |at|
  {
    if at == [] {
      assert at + [i] == [i];
      assert [i][1..] == [];
    } else {
      assert (at + [i])[1..] == at[1..] + [i];
      if at[0] < |root.children| {
        NodeAtExtend(root.children[at[0]], at[1..], i);
      }
    }
  }

  /** Every node reachable from a tree within `[lo, hi)` has a byte range inside it. */
  lemma {:induction false} NodeAtWithinRange(root: Node, at: Path, lo: nat, hi: nat)
    requires WithinRange(root, lo, hi)
    requires NodeAt(root, at).Some?
    ensures lo <= NodeAt(root, at).value.start <= NodeAt(root, at).value.end <= hi
    decreases |at|
  {
    if at != [] {
      var c := root.children[at[0]];
      assert WithinRange(c, root.start, root.end);
      NodeAtWithinRange(c, at[1..], root.start, root.end);
    }
  }
}
