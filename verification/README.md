# tree_stand: visitor, query and edit, modelled in Dafny

tree_stand is a Ruby layer over an incremental parser. The parser turns a
document into a tree of typed nodes, each covering a byte range of the
document. This model covers the three parts of tree_stand that its unit tests
exercise:

- **`TreeStand::Visitor`** (`visitor.dfy`, module `Visiting`) walks a tree in
  pre-order and runs the hooks the caller defined on it.
  - Each node first gets its visit hook: `on_<type>`, else `on`, else nothing.
  - Then its wrap hook runs: `around_<type>`, else `around`. The wrap hook
    receives a continuation that walks the node's children.
  - A node with no wrap hook walks its children once.
  - The class `Visitor` keeps the list the hooks append to (`acc`). Its
    methods are proved against the trace function `Trace`. The lemmas beside
    it state, for every tree, the behaviours the tests show on one tree: a
    pre-order record, type-specific hooks, a skipped subtree, transparent
    and bracketing `around` hooks.
- **`Tree#query`, `Match` and `dig`** (`query.dfy`, module `Querying`).
  - A pattern names a node type. It may constrain the children under named
    fields and may bind its node to a capture name.
  - `Query` returns one match per matching node, in pre-order.
  - The lemmas prove that the matches are exactly the matching nodes, that
    they come in pre-order, and that each match binds one capture per
    `@name`, at the node that `@name` annotates. That holds at any depth: a
    `@name` on a sub-pattern reached through fields `f1` … `fk` binds the node
    reached from the matched node by taking, at each step, the first child
    under the next field.
- **`Tree#edit!` and `Tree#delete!`** (`tree.dfy`, module `Trees`).
  - An edit splices the document: the bytes of the range are replaced by the
    new text. The tree is then reparsed, whatever its syntax.
  - The class `Tree` holds the parser, the document and the current root.
    `Edit` and `Delete` state the new document and root in terms of `Splice`.
  - The lemmas prove that a splice can be undone, that it equals a deletion
    followed by an insertion, and that replacing a range by its own text is a
    no-op.

Supporting modules:

- `syntax.dfy` (`Syntax`): nodes, positions and text. A node is a datatype
  with its type, its field name, its byte range and its children. Positions
  are child-index paths from the root, so `parent` is the path without its
  last step.
- `math_trees.dfy` (`MathTrees`): the trees of the two test inputs,
  `1 + x * 3` and `1 + x * 3 + 2`, as the math grammar parses them. It also
  holds a stand-in parser that returns them.
- `wrappers.dfy`: `Option`, `Result` and `Outcome`.

Each test of the three unit-test files is a scenario in `visitor_tests.dfy`,
`match_tests.dfy` or `tree_tests.dfy`. The scenario's `ensures` is the test's
assertion.

- `DefaultOnHook` and `CustomVisitorHooks` are proved from the general lemmas
  `GenericVisitRecordsPreOrder` and `SpecificVisitRecordsOwnTypes`, applied
  to the pre-order of the test tree.
- The other scenarios are proved by computing on the test trees: node by node
  for the visitor, subtree by subtree for the queries.
- The general lemmas state the same properties for every tree.

The model follows `test/unit/visitor_test.rb:153-161` on when a visit hook
fires. There, `product` is still recorded by `on` although `around_product`
is defined. So a node's visit hook always fires, even when it has a wrap
hook. No test shows the order of the visit hook's appends relative to the
wrap hook's; the model chooses to run the visit hook first.

## Model

| member | source | states |
|---|---|---|
| Visiting.Visitor.Visit | test/unit/visitor_test.rb:26-28 | `visit` appends the trace of the whole tree to the hooks' list |
| Visiting.Visitor.VisitNode | test/unit/visitor_test.rb:153-161 | a node's visit hook (type-specific, else generic, else none) fires first; then its wrap hook or the default walk runs |
| Visiting.Visitor.WrapNode | test/unit/visitor_test.rb:81-85 | a wrap hook's appends before, one walk of the children per continuation call, and its appends after, in that order |
| Visiting.Visitor.VisitChildren | test/unit/visitor_test.rb:83 | the continuation walks the children in order, each child's subtree completely before the next |
| Visiting.Visitor.Append | test/unit/visitor_test.rb:27 | a hook's appends land at the end of the list, in order, and nothing earlier changes |
| Visiting.Visitor.constructor | test/unit/visitor_test.rb:26 | `Visitor.new(root)` holds the root and the hooks, with nothing appended yet |
| Visiting.Trace | test/unit/visitor_test.rb:153-161 | the events a walk of a subtree appends, against which every `Visitor` method is proved; the node's visit-hook events come first, whether or not it has a wrap hook |
| Visiting.TraceWithoutWraps | test/unit/visitor_test.rb:19-72 | without wrap hooks, the walk runs the visit hooks of all nodes in pre-order |
| Visiting.GenericVisitRecordsPreOrder | test/unit/visitor_test.rb:19-34 | a generic `on` recording the type records the types of every node, in pre-order |
| Visiting.SpecificVisitRecordsOwnTypes | test/unit/visitor_test.rb:36-54 | `on_<type>` hooks alone record exactly the pre-order nodes of those types; the other nodes are still walked |
| Visiting.SkipIgnoresSubtree | test/unit/visitor_test.rb:146-162 | a wrap hook that never calls its continuation leaves only its own appends and the node's visit hook; the subtree makes no difference |
| Visiting.TransparentWrap | test/unit/visitor_test.rb:74-111 | a generic `around` that only calls its continuation once gives the same trace as no `around` |
| Visiting.BracketsEnclose | test/unit/visitor_test.rb:74-111 | with a bracketing `around`, a subtree's trace has two events per node, opens with `before:<type>` and closes with `after:<type>` |
| VisitorTests.Walk | test/unit/visitor_test.rb:26-28 | building a visitor on `1 + x * 3` and visiting it yields the trace of that tree |
| VisitorTests.DefaultOnHook | test/unit/visitor_test.rb:19-34 | the recorded list is `expression sum number + product variable * number` |
| VisitorTests.CustomVisitorHooks | test/unit/visitor_test.rb:36-54 | the recorded list is `expression sum number number` |
| VisitorTests.SpecificOnHookWins | test/unit/visitor_test.rb:56-72 | `on_sum` replaces `on` for the sum only: `expression custom_sum number + product variable * number` |
| VisitorTests.DefaultAroundHook | test/unit/visitor_test.rb:74-111 | the sixteen bracketed events, in the order the test lists them |
| VisitorTests.CustomAroundHooks | test/unit/visitor_test.rb:113-144 | only sum, number and expression are bracketed; the others are walked silently |
| VisitorTests.AroundWithoutYield | test/unit/visitor_test.rb:146-162 | `around_product` not yielding stops the walk below the product: `expression sum number + product` |
| VisitorTests.SpecificAroundHookWins | test/unit/visitor_test.rb:164-189 | `around_sum` replaces `around` for the sum and cuts its subtree: `before:expression around:sum after:expression` |
| Syntax.Field | test/unit/tree_test.rb:20 | `parent.left` is the first child under field `left`, and there is one exactly when such a child exists |
| Syntax.Text | test/unit/match_test.rb:43 | `node.text` is the document's bytes over the node's range |
| Syntax.Parent | test/unit/tree_test.rb:18 | the root has no `parent`; any other node's `parent` is the tree's node one step up its path, and holds the node as the child its path's last step names |
| Syntax.RangeOf | test/unit/tree_test.rb:38 | `node.range` starts where the node starts, has the node's length, and lies within any document holding the node; the document is the bytes before it, the node's text, then the bytes after it |
| Syntax.NodeAtWithinRange | test/unit/tree_test.rb:17-20 | every node of a parsed tree has a range inside the document, so its `range` can be edited and its `text` read |
| MathTrees.ParserNeverFails | test/unit/tree_test.rb:45-61 | the stand-in parser accepts any text and returns a tree within its bounds |
| MathTrees.LongSourceTexts | test/unit/match_test.rb:6-8 | the texts of the outer sum, inner sum, product and left number of `1 + x * 3 + 2` |
| MathTrees.ParseLongSource | test/unit/match_test.rb:4-9 | parsing `1 + x * 3 + 2` gives a valid tree holding that document and its tree |
| Querying.QuerySound | test/unit/match_test.rb:11-20 | every returned match sits at a node of the tree that matches the pattern, with the captures that node binds |
| Querying.QueryComplete | test/unit/match_test.rb:22-32 | every node of the tree matching the pattern is among the returned matches |
| Querying.QueryInPreOrder | test/unit/match_test.rb:57-58 | matches come in pre-order of their nodes, so the outer sum precedes the inner one |
| Querying.Query | test/unit/match_test.rb:62-66 | `query` fails exactly when two `@name`s of the pattern coincide, and the error names a name that occurs at two positions of the pattern |
| Querying.QueryCaptures | test/unit/match_test.rb:68 | each match has one capture per `@name`, in written order, each at the node its position names |
| Querying.QueryFieldCapture | test/unit/match_test.rb:64-65 | a `@name` on the sub-pattern of field `f` is bound to the matched node's first child under `f`, at that child's position |
| Querying.QueryNestedCapture | test/unit/match_test.rb:61-71 | a `@name` on a sub-pattern at any depth, reached through fields `f1` … `fk`, is bound to the node reached from the matched node by following the first child under each of those fields, at that node's position in the tree |
| Querying.QueryWithoutCaptures | test/unit/match_test.rb:19 | a pattern without `@name` yields matches with no captures |
| Querying.QueryOwnCapture | test/unit/match_test.rb:43 | the `@name` on the pattern itself is bound to the matched node |
| Querying.Lookup | test/unit/match_test.rb:69-71 | `match[name]` is a capture of that name in the match, and is missing exactly when the match binds no such name |
| Querying.Dig | test/unit/match_test.rb:57-58 | `dig(i, name)` is capture `name` of the `i`-th match, present exactly when that match exists and binds the name |
| Querying.Duplicate | test/unit/match_test.rb:63-65 | no name is reported exactly when all names differ; a reported name occurs twice |
| MatchTests.SumOfNumberAndProductMatches | test/unit/match_test.rb:11-20 | among the nodes of `1 + x * 3 + 2`, only the inner sum has a number on its left and a product on its right |
| MatchTests.AnySumMatches | test/unit/match_test.rb:22-32 | `(sum)` matches the outer sum, then the inner sum |
| MatchTests.AnySumQuery | test/unit/match_test.rb:46-59 | `(sum) @name` is accepted; match 0 binds the name to the outer sum, match 1 to the inner sum |
| MatchTests.SumOfNumberAndProductQuery | test/unit/match_test.rb:34-44 | with distinct capture names, the query yields the one match of the inner sum, binding each given name to its node |
| MatchTests.ThreeCapturesQuery | test/unit/match_test.rb:61-72 | the three-capture query has one match binding `number`, `product` and `1_plus_x_times` to their nodes |
| MatchTests.SingleMatch | test/unit/match_test.rb:11-20 | one match, with no captures |
| MatchTests.MultipleMatches | test/unit/match_test.rb:22-32 | two matches, neither with captures |
| MatchTests.SingleMatchWithCapture | test/unit/match_test.rb:34-44 | one match with one capture, whose text is `1 + x * 3` |
| MatchTests.MultipleMatchesWithCaptures | test/unit/match_test.rb:46-59 | two matches with one capture each; texts `1 + x * 3 + 2`, then `1 + x * 3` |
| MatchTests.MatchWithMultipleCaptures | test/unit/match_test.rb:61-72 | three captures with texts `1`, `x * 3` and `1 + x * 3` |
| Trees.Splice | test/unit/tree_test.rb:20 | the new document keeps the bytes before the range, then the new text, then the bytes after the range |
| Trees.SpliceUndo | test/unit/tree_test.rb:20 | splicing the replaced bytes back over the new text restores the document |
| Trees.SpliceIsDeleteThenInsert | test/unit/tree_test.rb:38 | an edit equals `delete!` of the range followed by an insertion at its start |
| Trees.SpliceSameText | test/unit/tree_test.rb:20 | replacing a range by its own text leaves the document unchanged |
| Trees.Tree.constructor | test/unit/tree_test.rb:9-11 | a parsed tree holds the source and the parser's tree of it |
| Trees.Tree.Edit | test/unit/tree_test.rb:20-24 | `edit!` splices the document and reparses it; a range outside the document fails and leaves the tree unchanged; the range invariant is kept |
| Trees.Tree.Query | test/unit/tree_test.rb:13-15 | `tree.query` on the current tree: accepted patterns give matches at nodes of that tree, in pre-order |
| Trees.Tree.NodeText | test/unit/tree_test.rb:20 | `node.text` on the current document has the node's length, and editing the node's range with it changes nothing |
| Trees.Tree.TextAt | test/unit/tree_test.rb:20 | `node.text` for any node of the current tree: the tree's range invariant puts the node inside the document, its text has the node's length, and editing the node's range with it changes nothing |
| Trees.Tree.Delete | test/unit/tree_test.rb:38-42 | `delete!` is `edit!` with empty text |
| TreeTests.ProductQuery | test/unit/tree_test.rb:13-17 | `(product) @product` finds the product `x * 3` first |
| TreeTests.ProductParent | test/unit/tree_test.rb:17-20 | the product's parent is the inner sum, whose `left` is the number `1` |
| TreeTests.FindProduct | test/unit/tree_test.rb:13-17 | on the tree of `1 + x * 3 + 2`, the first match of `(product) @product` binds `product` to `x * 3` at its position |
| TreeTests.ParentAndLeftText | test/unit/tree_test.rb:17-20 | the product's `parent` is the inner sum, and the text of its `left` is `1` |
| TreeTests.CanReplaceText | test/unit/tree_test.rb:8-25 | replacing the inner sum by the text of its left operand gives `1 + 2` |
| TreeTests.CanDeleteANode | test/unit/tree_test.rb:27-43 | deleting the product gives `1 +  + 2` |
| TreeTests.CanHandleInvalidEdits | test/unit/tree_test.rb:45-61 | replacing the product by `y **`, which does not parse, still gives `1 + y ** + 2` |

## Left out

- The parser itself is an external engine and is not part of this model.
  `MathTrees.Parse` is a stand-in: it returns the trees of the two test
  inputs, and a single `ERROR` node spanning any other text. The tests' edits
  produce other text, so the model does not say what tree a reparse produces.
  It only says that the tree is the parser's tree of the new document and
  that its ranges lie within it.
- The field names of the product's children are not visible in the tests, so
  the model gives them none.
- Query strings are not parsed. A pattern is the `Pattern` datatype: node
  type, field constraints, optional capture name. Alternatives, quantifiers,
  anonymous-node and predicate syntax are not modelled.
- A field constraint applies to the first child under that field name.
  Field constraints are matched by name, whatever the order of the children:
  `(sum right: (product) left: (number))` matches the inner sum as well.
- Compile errors for unknown node types are not modelled. The one compile
  error modelled is a repeated capture name.
- Every appended event is a string. In Ruby, `on` hooks append Symbols
  (`node.type`, `:custom_sum`) and `around` hooks append Strings, so `:sum`
  and `"sum"` differ there but are equal here. No test mixes the two.
- Hooks defined by Ruby reflection (`define_singleton_method`) become an
  explicit registry keyed by node type. A hook is modelled by what it appends
  and by how many times it calls its continuation. Hooks with other side
  effects are not modelled.
- Row and column positions are left out. Bytes are modelled as characters,
  one per byte; the test documents are ASCII.
- For error cases that no test covers, the model makes its own choices:
  - an edit or deletion outside the document returns `OutOfBounds` and
    changes nothing;
  - a repeated capture name makes the query fail;
  - looking up a name a match does not bind gives `None`, not a raised error.
- The Minitest framework, the parser's language loading and the weak
  back-reference from a node to its parent are left out. A position path
  stands in for the parent reference.
