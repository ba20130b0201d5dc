/**
 * The trees the `math` grammar produces for the two sources the tests parse.
 * The grammar itself is not part of this model; these values stand in for
 * its output.
 *
 *   "1 + x * 3\n"      (expression (sum left:(number) "+" right:(product (variable) "*" (number))))
 *   "1 + x * 3 + 2\n"  (expression (sum left:(sum ...as above...) "+" right:(number)))
 */
module MathTrees {
  import opened Wrappers
  import opened Syntax
  import Trees

  const ShortSource: string := "1 + x * 3\n"
  const LongSource: string := "1 + x * 3 + 2\n"

  function Leaf(kind: string, field: Option<string>, start: nat, end: nat): Node
  {
    Node(kind, field, start, end, [])
  }

  /** `1 + x * 3`, the inner sum, whose bytes start at offset 0 in both sources. */
  function InnerSum(field: Option<string>): Node
  {
    Node("sum", field, 0, 9, [
      Leaf("number", Some("left"), 0, 1),
      Leaf("+", None, 2, 3),
      Product()
    ])
  }

  /** `x * 3`, the right operand of the inner sum. */
  function Product(): Node
  {
    Node("product", Some("right"), 4, 9, [
      Leaf("variable", None, 4, 5),
      Leaf("*", None, 6, 7),
      Leaf("number", None, 8, 9)
    ])
  }

  /** The tree of `ShortSource`. */
  function ShortExpression(): Node
  {
    Node("expression", None, 0, 9, [InnerSum(None)])
  }

  /** The tree of `LongSource`. */
  function LongExpression(): Node
  {
    Node("expression", None, 0, 13, [OuterSum()])
  }

  /** `1 + x * 3 + 2`, the outer sum. */
  function OuterSum(): Node
  {
    Node("sum", None, 0, 13, [
      InnerSum(Some("left")),
      Leaf("+", None, 10, 11),
      Leaf("number", Some("right"), 12, 13)
    ])
  }

  /**
   * Stand-in for the parser: the two known sources parse to their trees and
   * any other text to a single error node spanning it, so that a parse never
   * fails whatever the text.
   */
  function Parse(source: string): Node
  {
    if source == LongSource then LongExpression()
    else if source == ShortSource then ShortExpression()
    else Node("ERROR", None, 0, |source|, [])
  }

  /** The stand-in parser always returns a tree whose ranges lie within the text. */
  lemma ParseWithinRange(source: string)
    ensures WithinRange(Parse(source), 0, |source|)
  {
    if source == LongSource {
      LongExpressionWithinRange();
    } else if source == ShortSource {
      ShortExpressionWithinRange();
    }
  }

  lemma ShortExpressionWithinRange()
    ensures WithinRange(ShortExpression(), 0, |ShortSource|)
  {
    var e := ShortExpression();
    InnerSumWithinRange(None, 0, 9);
    assert forall i :: 0 <= i < |e.children| ==> WithinRange(e.children[i], 0, 9);
  }

  lemma InnerSumWithinRange(field: Option<string>, lo: nat, hi: nat)
    requires lo == 0 && 9 <= hi
    ensures WithinRange(InnerSum(field), lo, hi)
  {
    var s := InnerSum(field);
    var p := Product();
    assert forall i :: 0 <= i < |p.children| ==> WithinRange(p.children[i], 4, 9);
    assert WithinRange(p, 0, 9);
    assert forall i :: 0 <= i < |s.children| ==> WithinRange(s.children[i], 0, 9);
  }

  lemma LongExpressionWithinRange()
    ensures WithinRange(LongExpression(), 0, |LongSource|)
  {
    var e := LongExpression();
    var s := e.children[0];
    InnerSumWithinRange(Some("left"), 0, 13);
    assert forall i :: 0 <= i < |s.children| ==> WithinRange(s.children[i], 0, 13);
    assert WithinRange(s, 0, 13);
    assert forall i :: 0 <= i < |e.children| ==> WithinRange(e.children[i], 0, 13);
  }

  lemma ParserNeverFails()
    ensures Trees.ParsesAnything(Parse)
  {
    forall source: string ensures WithinRange(Parse(source), 0, |source|) {
      ParseWithinRange(source);
    }
  }

  /** The texts of the nodes the tests read back from `LongSource`. */
  lemma LongSourceTexts()
    ensures Text(LongSource, OuterSum()) == "1 + x * 3 + 2"
    ensures Text(LongSource, InnerSum(Some("left"))) == "1 + x * 3"
    ensures Text(LongSource, Product()) == "x * 3"
    ensures Text(LongSource, Leaf("number", Some("left"), 0, 1)) == "1"
  {
  }

  /** `parser.parse_string(nil, "1 + x * 3 + 2\n")`, as each scenario's setup does. */
  method ParseLongSource() returns (tree: Trees.Tree)
    ensures fresh(tree) && tree.Valid()
    ensures tree.document == LongSource && tree.root == LongExpression()
  {
    ParserNeverFails();
    tree := new Trees.Tree(Parse, LongSource);
  }
}
