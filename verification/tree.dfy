/**
 * `TreeStand::Tree`: a document and the tree the parser derives from it.
 * `edit!` replaces the bytes of a range with new text and `delete!` replaces
 * them with nothing; either way the parser then derives a fresh tree from the
 * new document, whatever its syntax. The document is a sequence of
 * characters, one per byte.
 */
module Trees {
  import opened Wrappers
  import opened Syntax
  import Querying

  datatype EditError = OutOfBounds(range: Range, length: nat)

  predicate InBounds(range: Range, length: nat)
  {
    0 <= range.start <= range.end <= length
  }

  /** The document with the bytes in `[start, end)` replaced by `text`. */
  function Splice(doc: string, start: nat, end: nat, text: string): (r: string)
    requires start <= end <= |doc|
    ensures |r| == |doc| - (end - start) + |text|
    ensures r[..start] == doc[..start]
    ensures r[start..start + |text|] == text
    ensures r[start + |text|..] == doc[end..]
  {
    doc[..start] + text + doc[end..]
  }

  /** Putting the replaced bytes back over the inserted text restores the document. */
  lemma SpliceUndo(doc: string, start: nat, end: nat, text: string)
    requires start <= end <= |doc|
    ensures Splice(Splice(doc, start, end, text), start, start + |text|, doc[start..end]) == doc
  {
    var edited := Splice(doc, start, end, text);
    assert edited[..start] == doc[..start];
    assert edited[start + |text|..] == doc[end..];
    assert doc == doc[..start] + doc[start..end] + doc[end..];
  }

  /** An edit is a deletion of the range followed by an insertion at its start. */
  lemma SpliceIsDeleteThenInsert(doc: string, start: nat, end: nat, text: string)
    requires start <= end <= |doc|
    ensures Splice(doc, start, end, text) == Splice(Splice(doc, start, end, ""), start, start, text)
  {
    var deleted := Splice(doc, start, end, "");
    assert deleted[..start] == doc[..start];
    assert deleted[start..] == doc[end..];
  }

  /** Replacing a range by its own text changes nothing. */
  lemma SpliceSameText(doc: string, start: nat, end: nat)
    requires start <= end <= |doc|
    ensures Splice(doc, start, end, doc[start..end]) == doc
  {
    assert doc == doc[..start] + doc[start..end] + doc[end..];
  }

  /** The parser never fails: whatever the text, it returns a tree whose ranges lie within it. */
  ghost predicate ParsesAnything(parse: string -> Node)
  {
    forall source :: WithinRange(parse(source), 0, |source|)
  }

  class Tree {
    /** The parser bound to the tree's language. */
    const parse: string -> Node
    var document: string
    var root: Node

    ghost predicate Valid()
      reads this
    {
      ParsesAnything(parse) && WithinRange(root, 0, |document|)
    }

    /** `Parser#parse_string`: the tree of `source`. */
    constructor (parse: string -> Node, source: string)
      requires ParsesAnything(parse)
      ensures Valid()
      ensures this.parse == parse && document == source && root == parse(source)
    {
      this.parse := parse;
      document := source;
      root := parse(source);
    }

    /**
     * `Tree#edit!`: replaces the bytes of `range` with `text` and reparses.
     * A range outside the document fails and leaves the tree as it was.
     */
    method Edit(range: Range, text: string) returns (r: Outcome<EditError>)
      requires Valid()
      modifies this
      ensures Valid()
      ensures r == if InBounds(range, |old(document)|) then Pass else Fail(OutOfBounds(range, |old(document)|))
      ensures r.Pass? ==> document == Splice(old(document), range.start, range.end, text) && root == parse(document)
      ensures r.Fail? ==> document == old(document) && root == old(root)
    {
      if !InBounds(range, |document|) {
        return Fail(OutOfBounds(range, |document|));
      }
      document := Splice(document, range.start, range.end, text);
      root := parse(document);
      r := Pass;
    }

    /** `Tree#delete!`: an edit with empty replacement text. */
    method Delete(range: Range) returns (r: Outcome<EditError>)
      requires Valid()
      modifies this
      ensures Valid()
      ensures r == if InBounds(range, |old(document)|) then Pass else Fail(OutOfBounds(range, |old(document)|))
      ensures r.Pass? ==> document == Splice(old(document), range.start, range.end, "") && root == parse(document)
      ensures r.Fail? ==> document == old(document) && root == old(root)
    {
      r := Edit(range, "");
    }

    /**
     * `Tree#query` on the current tree: when the pattern is accepted, the
     * matches sit at nodes of the current tree, in pre-order.
     */
    function Query(p: Querying.Pattern): (r: Result<seq<Querying.Match>, Querying.QueryError>)
      reads this
      ensures r.Ok? ==> Querying.InPreOrder(r.value)
      ensures r.Ok? ==> forall m :: m in r.value ==> NodeAt(root, m.at).Some?
    {
      var found := Querying.Query(root, p);
      if found.Ok? then
        Querying.QueryInPreOrder(root, p);
        Querying.QueryLocated(root, p);
        found
      else found
    }

    /**
     * `Node#text` for a node of the current document: the bytes its range
     * covers, so that `edit!` of its range with its text changes nothing.
     */
    function NodeText(n: Node): (t: string)
      reads this
      requires n.start <= n.end <= |document|
      ensures |t| == n.end - n.start
      ensures Splice(document, n.start, n.end, t) == document
    {
      SpliceSameText(document, n.start, n.end);
      Text(document, n)
    }

    /**
     * `Node#text` for the node at `at` in the current tree: the tree's
     * ranges lie inside the document, so any of its nodes has a text there.
     */
    function TextAt(at: Path): (t: string)
      reads this
      requires Valid() && NodeAt(root, at).Some?
      ensures NodeAt(root, at).value.start <= NodeAt(root, at).value.end <= |document|
      ensures |t| == NodeAt(root, at).value.end - NodeAt(root, at).value.start
      ensures Splice(document, NodeAt(root, at).value.start, NodeAt(root, at).value.end, t) == document
    {
      NodeAtWithinRange(root, at, 0, |document|);
      NodeText(NodeAt(root, at).value)
    }
  }
}
