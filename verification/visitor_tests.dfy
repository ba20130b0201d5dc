/**
 * The visitor scenarios on the tree of `1 + x * 3`, each a walk with one set
 * of hooks and the exact list of events it records.
 */
module VisitorTests {
  import opened Wrappers
  import opened Syntax
  import opened MathTrees
  import opened Visiting

  /** The events of `n` when walking its children yields `inner`. */
  function Step(r: Registry, n: Node, inner: seq<string>): seq<string>
  {
    OnEvents(r, n) +
      match WrapHook(r, n.kind)
      case None => inner
      case Some(w) => Fire(w.before, n.kind) + Repeat(inner, w.calls) + Fire(w.after, n.kind)
  }

  lemma {:induction false} RepeatNothing(k: nat)
    ensures Repeat([], k) == []
  {
    if k > 0 {
      RepeatNothing(k - 1);
    }
  }

  lemma TraceAllOfThree(r: Registry, a: Node, b: Node, c: Node)
    ensures TraceAll(r, [a, b, c]) == Trace(r, a) + Trace(r, b) + Trace(r, c)
  {
    assert [a, b, c][..2] == [a, b];
    assert [a, b][..1] == [a];
    assert [a][..0] == [];
    var x, y, z := Trace(r, a), Trace(r, b), Trace(r, c);
    assert TraceAll(r, [a]) == x;
    assert TraceAll(r, [a, b]) == x + y;
    assert TraceAll(r, [a, b, c]) == x + y + z;
  }

  lemma LeafStep(r: Registry, n: Node)
    requires n.children == []
    ensures Trace(r, n) == Step(r, n, [])
  {
    assert TraceAll(r, n.children) == [];
    match WrapHook(r, n.kind) {
      case None =>
        assert WrapEvents(r, n) == [];
      case Some(w) =>
        RepeatNothing(w.calls);
        assert WrapEvents(r, n) == Fire(w.before, n.kind) + [] + Fire(w.after, n.kind);
    }
  }

  lemma FireOne(e: Emit, kind: string)
    ensures Fire([e], kind) == [Render(e, kind)]
  {
    assert [e][..0] == [];
  }

  function Before(kind: string): string
  {
    "before:" + kind
  }

  function After(kind: string): string
  {
    "after:" + kind
  }

  lemma Tags()
    ensures Before("expression") == "before:expression" && After("expression") == "after:expression"
    ensures Before("sum") == "before:sum" && After("sum") == "after:sum"
    ensures Before("number") == "before:number" && After("number") == "after:number"
    ensures Before("+") == "before:+" && After("+") == "after:+"
    ensures Before("product") == "before:product" && After("product") == "after:product"
    ensures Before("variable") == "before:variable" && After("variable") == "after:variable"
    ensures Before("*") == "before:*" && After("*") == "after:*"
  {
  }

  lemma Brackets(kind: string, inner: seq<string>)
    ensures Fire(Bracket.before, kind) + Repeat(inner, Bracket.calls) + Fire(Bracket.after, kind)
         == [Before(kind)] + inner + [After(kind)]
  {
    FireOne(Emit("before:", true), kind);
    FireOne(Emit("after:", true), kind);
    assert Repeat(inner, 1) == [] + inner;
  }

  lemma TraceStep(r: Registry, n: Node)
    ensures Trace(r, n) == Step(r, n, TraceAll(r, n.children))
  {
  }

  /** The trace of `x * 3`, given the step of each of its nodes. */
  lemma ProductTraceFrom(r: Registry, v: seq<string>, t: seq<string>, n: seq<string>, pr: seq<string>)
    requires Step(r, Leaf("variable", None, 4, 5), []) == v
    requires Step(r, Leaf("*", None, 6, 7), []) == t
    requires Step(r, Leaf("number", None, 8, 9), []) == n
    requires Step(r, Product(), v + t + n) == pr
    ensures Trace(r, Product()) == pr
  {
    var product := Product();
    LeafStep(r, product.children[0]);
    LeafStep(r, product.children[1]);
    LeafStep(r, product.children[2]);
    TraceAllOfThree(r, product.children[0], product.children[1], product.children[2]);
    TraceStep(r, product);
  }

  /** The trace of `1 + x * 3`, given the step of each node above the product and the product's trace. */
  lemma ShortTraceFrom(r: Registry, n: seq<string>, plus: seq<string>, pr: seq<string>, s: seq<string>, e: seq<string>)
    requires Step(r, Leaf("number", Some("left"), 0, 1), []) == n
    requires Step(r, Leaf("+", None, 2, 3), []) == plus
    requires Trace(r, Product()) == pr
    requires Step(r, InnerSum(None), n + plus + pr) == s
    requires Step(r, ShortExpression(), s) == e
    ensures Trace(r, ShortExpression()) == e
  {
    var sum := InnerSum(None);
    LeafStep(r, sum.children[0]);
    LeafStep(r, sum.children[1]);
    TraceAllOfThree(r, sum.children[0], sum.children[1], sum.children[2]);
    TraceStep(r, sum);
    assert [sum][..0] == [];
    assert TraceAll(r, [sum]) == Trace(r, sum);
    TraceStep(r, ShortExpression());
  }

  /** A node whose visit hook records its type and that has no wrap hook. */
  lemma RecordStep(r: Registry, n: Node, inner: seq<string>)
    requires VisitHook(r, n.kind) == Some(RecordType) && WrapHook(r, n.kind) == None
    ensures Step(r, n, inner) == [n.kind] + inner
  {
    RecordTypeFires(n.kind);
  }

  /** A node without any hook contributes only what its children do. */
  lemma SilentStep(r: Registry, n: Node, inner: seq<string>)
    requires VisitHook(r, n.kind) == None && WrapHook(r, n.kind) == None
    ensures Step(r, n, inner) == inner
  {
  }

  /** A node without a visit hook whose wrap hook brackets it. */
  lemma BracketStep(r: Registry, n: Node, inner: seq<string>)
    requires VisitHook(r, n.kind) == None && WrapHook(r, n.kind) == Some(Bracket)
    ensures Step(r, n, inner) == [Before(n.kind)] + inner + [After(n.kind)]
  {
    Brackets(n.kind, inner);
  }

  /** Walks the tree of `1 + x * 3` with `hooks` and returns what the hooks appended. */
  method Walk(hooks: Registry) returns (acc: seq<string>)
    ensures acc == Trace(hooks, ShortExpression())
  {
    var visitor := new Visitor(ShortExpression(), hooks);
    visitor.Visit();
    acc := visitor.acc;
  }

  lemma PreOrderLeaf(n: Node)
    requires n.children == []
    ensures PreOrder(n) == [n]
  {
    assert PreOrderAll(n.children) == [];
  }

  lemma PreOrderAllOfThree(a: Node, b: Node, c: Node)
    ensures PreOrderAll([a, b, c]) == PreOrder(a) + PreOrder(b) + PreOrder(c)
  {
    assert [a, b, c][..2] == [a, b];
    assert [a, b][..1] == [a];
    assert [a][..0] == [];
    var x, y, z := PreOrder(a), PreOrder(b), PreOrder(c);
    assert PreOrderAll([a]) == x;
    assert PreOrderAll([a, b]) == x + y;
  }

  lemma Flatten<T>(e: T, s: T, n: T, o: T, p: T, v: T, t: T, m: T)
    ensures [e] + ([s] + ([n] + [o] + ([p] + ([v] + [t] + [m])))) == [e, s, n, o, p, v, t, m]
  {
  }

  /** The nodes of `1 + x * 3` in pre-order. */
  function ShortNodes(): seq<Node>
  {
    [ShortExpression(), InnerSum(None), Leaf("number", Some("left"), 0, 1), Leaf("+", None, 2, 3),
     Product(), Leaf("variable", None, 4, 5), Leaf("*", None, 6, 7), Leaf("number", None, 8, 9)]
  }

  lemma ShortPreOrder()
    ensures PreOrder(ShortExpression()) == ShortNodes()
  {
    var v, t, m := Leaf("variable", None, 4, 5), Leaf("*", None, 6, 7), Leaf("number", None, 8, 9);
    var n, o := Leaf("number", Some("left"), 0, 1), Leaf("+", None, 2, 3);
    var p, s, e := Product(), InnerSum(None), ShortExpression();
    PreOrderLeaf(v); PreOrderLeaf(t); PreOrderLeaf(m); PreOrderLeaf(n); PreOrderLeaf(o);
    PreOrderAllOfThree(v, t, m);
    PreOrderAllOfThree(n, o, p);
    assert [s][..0] == [];
    assert PreOrderAll([s]) == PreOrder(s);
    Flatten(e, s, n, o, p, v, t, m);
  }

  lemma ShortKinds()
    ensures Kinds(ShortNodes()) == ["expression", "sum", "number", "+", "product", "variable", "*", "number"]
  {
  }

  const OnAll := Registry(Some(RecordType), map[], None, map[])

  /** A generic `on` hook alone records every type in pre-order. */
  method DefaultOnHook() returns (acc: seq<string>)
    ensures acc == ["expression", "sum", "number", "+", "product", "variable", "*", "number"]
  {
    GenericVisitRecordsPreOrder(ShortExpression());
    ShortPreOrder();
    ShortKinds();
    acc := Walk(OnAll);
  }

  const OnSome := Registry(None, map["sum" := RecordType, "number" := RecordType, "expression" := RecordType], None, map[])

  /** Picking the first three and the last of eight nodes by their types. */
  lemma PickThreeAndLast(ns: seq<Node>, kinds: set<string>)
    requires |ns| == 8
    requires ns[0].kind in kinds && ns[1].kind in kinds && ns[2].kind in kinds && ns[7].kind in kinds
    requires ns[3].kind !in kinds && ns[4].kind !in kinds && ns[5].kind !in kinds && ns[6].kind !in kinds
    ensures OfKinds(ns, kinds) == [ns[0], ns[1], ns[2], ns[7]]
  {
    assert ns[7..][1..] == [];
    assert OfKinds(ns[7..], kinds) == [ns[7]];
    assert ns[6..][1..] == ns[7..];
    assert OfKinds(ns[6..], kinds) == [ns[7]];
    assert ns[5..][1..] == ns[6..];
    assert OfKinds(ns[5..], kinds) == [ns[7]];
    assert ns[4..][1..] == ns[5..];
    assert OfKinds(ns[4..], kinds) == [ns[7]];
    assert ns[3..][1..] == ns[4..];
    assert OfKinds(ns[3..], kinds) == [ns[7]];
    assert ns[2..][1..] == ns[3..];
    assert OfKinds(ns[2..], kinds) == [ns[2], ns[7]];
    assert ns[1..][1..] == ns[2..];
    assert OfKinds(ns[1..], kinds) == [ns[1], ns[2], ns[7]];
  }

  /** The nodes of `1 + x * 3` whose type is `sum`, `number` or `expression`, in pre-order. */
  lemma ShortSomeKinds()
    ensures Kinds(OfKinds(ShortNodes(), OnSome.onType.Keys)) == ["expression", "sum", "number", "number"]
  {
    var ks := OnSome.onType.Keys;
    assert ks == {"sum", "number", "expression"};
    var ns := ShortNodes();
    PickThreeAndLast(ns, ks);
    assert Kinds([ns[0], ns[1], ns[2], ns[7]]) == ["expression", "sum", "number", "number"];
  }

  /** `on_sum`, `on_number` and `on_expression` alone: other nodes record nothing, but are walked. */
  method CustomVisitorHooks() returns (acc: seq<string>)
    ensures acc == ["expression", "sum", "number", "number"]
  {
    SpecificVisitRecordsOwnTypes(OnSome.onType, ShortExpression());
    ShortPreOrder();
    ShortSomeKinds();
    acc := Walk(OnSome);
  }

  const OnAllButSum := Registry(Some(RecordType), map["sum" := [Emit("custom_sum", false)]], None, map[])

  lemma OnAllButSumTrace()
    ensures Trace(OnAllButSum, ShortExpression()) ==
      ["expression", "custom_sum", "number", "+", "product", "variable", "*", "number"]
  {
    var r := OnAllButSum;
    RecordStep(r, Leaf("variable", None, 4, 5), []);
    RecordStep(r, Leaf("*", None, 6, 7), []);
    RecordStep(r, Leaf("number", None, 8, 9), []);
    var pr := ["product"] + (["variable"] + ["*"] + ["number"]);
    RecordStep(r, Product(), ["variable"] + ["*"] + ["number"]);
    ProductTraceFrom(r, ["variable"], ["*"], ["number"], pr);
    RecordStep(r, Leaf("number", Some("left"), 0, 1), []);
    RecordStep(r, Leaf("+", None, 2, 3), []);
    var s := ["custom_sum"] + (["number"] + ["+"] + pr);
    FireOne(Emit("custom_sum", false), "sum");
    assert Step(r, InnerSum(None), ["number"] + ["+"] + pr) == s;
    RecordStep(r, ShortExpression(), s);
    ShortTraceFrom(r, ["number"], ["+"], pr, s, ["expression"] + s);
    Flatten("expression", "custom_sum", "number", "+", "product", "variable", "*", "number");
  }

  /** `on_sum` replaces `on` for sums only. */
  method SpecificOnHookWins() returns (acc: seq<string>)
    ensures acc == ["expression", "custom_sum", "number", "+", "product", "variable", "*", "number"]
  {
    OnAllButSumTrace();
    acc := Walk(OnAllButSum);
  }

  const AroundAll := Registry(None, map[], Some(Bracket), map[])

  /** Regroups the trace of a fully bracketed `1 + x * 3`. */
  lemma FlattenAroundAll<T>(be: T, bs: T, bn: T, an: T, bo: T, ao: T, bp: T, bv: T, av: T,
                            bt: T, at: T, bm: T, am: T, ap: T, as_: T, ae: T)
    ensures [be] + ([bs] + ([bn, an] + [bo, ao] + ([bp] + ([bv, av] + [bt, at] + [bm, am]) + [ap])) + [as_]) + [ae]
         == [be, bs, bn, an, bo, ao, bp, bv, av, bt, at, bm, am, ap, as_, ae]
  {
  }

  lemma AroundAllTrace()
    ensures Trace(AroundAll, ShortExpression()) ==
      [Before("expression"), Before("sum"), Before("number"), After("number"),
       Before("+"), After("+"), Before("product"), Before("variable"), After("variable"),
       Before("*"), After("*"), Before("number"), After("number"), After("product"),
       After("sum"), After("expression")]
  {
    var r := AroundAll;
    var v, t, m := [Before("variable"), After("variable")], [Before("*"), After("*")], [Before("number"), After("number")];
    BracketStep(r, Leaf("variable", None, 4, 5), []);
    BracketStep(r, Leaf("*", None, 6, 7), []);
    BracketStep(r, Leaf("number", None, 8, 9), []);
    var pr := [Before("product")] + (v + t + m) + [After("product")];
    BracketStep(r, Product(), v + t + m);
    ProductTraceFrom(r, v, t, m, pr);
    var n, plus := [Before("number"), After("number")], [Before("+"), After("+")];
    BracketStep(r, Leaf("number", Some("left"), 0, 1), []);
    BracketStep(r, Leaf("+", None, 2, 3), []);
    var s := [Before("sum")] + (n + plus + pr) + [After("sum")];
    BracketStep(r, InnerSum(None), n + plus + pr);
    BracketStep(r, ShortExpression(), s);
    ShortTraceFrom(r, n, plus, pr, s, [Before("expression")] + s + [After("expression")]);
    FlattenAroundAll(Before("expression"), Before("sum"), Before("number"), After("number"), Before("+"), After("+"),
                     Before("product"), Before("variable"), After("variable"), Before("*"), After("*"),
                     Before("number"), After("number"), After("product"), After("sum"), After("expression"));
  }

  /** A generic `around` hook that calls its continuation once brackets every subtree. */
  method DefaultAroundHook() returns (acc: seq<string>)
    ensures acc == ["before:expression", "before:sum", "before:number", "after:number",
                    "before:+", "after:+", "before:product", "before:variable", "after:variable",
                    "before:*", "after:*", "before:number", "after:number", "after:product",
                    "after:sum", "after:expression"]
  {
    AroundAllTrace();
    Tags();
    acc := Walk(AroundAll);
  }

  const AroundSome := Registry(None, map[], None, map["sum" := Bracket, "number" := Bracket, "expression" := Bracket])

  lemma FlattenAroundSome<T>(be: T, bs: T, bn: T, an: T, bm: T, am: T, as_: T, ae: T)
    ensures [be] + ([bs] + ([bn, an] + [] + ([] + ([] + [] + [bm, am]))) + [as_]) + [ae]
         == [be, bs, bn, an, bm, am, as_, ae]
  {
  }

  lemma AroundSomeTrace()
    ensures Trace(AroundSome, ShortExpression()) ==
      [Before("expression"), Before("sum"), Before("number"), After("number"),
       Before("number"), After("number"), After("sum"), After("expression")]
  {
    var r := AroundSome;
    var m := [Before("number"), After("number")];
    SilentStep(r, Leaf("variable", None, 4, 5), []);
    SilentStep(r, Leaf("*", None, 6, 7), []);
    BracketStep(r, Leaf("number", None, 8, 9), []);
    var pr := [] + ([] + [] + m);
    SilentStep(r, Product(), [] + [] + m);
    ProductTraceFrom(r, [], [], m, pr);
    var n := [Before("number"), After("number")];
    BracketStep(r, Leaf("number", Some("left"), 0, 1), []);
    SilentStep(r, Leaf("+", None, 2, 3), []);
    var s := [Before("sum")] + (n + [] + pr) + [After("sum")];
    BracketStep(r, InnerSum(None), n + [] + pr);
    BracketStep(r, ShortExpression(), s);
    ShortTraceFrom(r, n, [], pr, s, [Before("expression")] + s + [After("expression")]);
    FlattenAroundSome(Before("expression"), Before("sum"), Before("number"), After("number"),
                      Before("number"), After("number"), After("sum"), After("expression"));
  }

  /** `around_sum`, `around_number` and `around_expression` bracket only their own types. */
  method CustomAroundHooks() returns (acc: seq<string>)
    ensures acc == ["before:expression", "before:sum", "before:number", "after:number",
                    "before:number", "after:number", "after:sum", "after:expression"]
  {
    AroundSomeTrace();
    Tags();
    acc := Walk(AroundSome);
  }

  const SkipProduct := Registry(Some(RecordType), map[], None, map["product" := Wrap([], 0, [])])

  lemma FlattenSkipProduct<T>(e: T, s: T, n: T, o: T, p: T)
    ensures [e] + ([s] + ([n] + [o] + [p])) == [e, s, n, o, p]
  {
  }

  lemma SkipProductTrace()
    ensures Trace(SkipProduct, ShortExpression()) == ["expression", "sum", "number", "+", "product"]
  {
    var r := SkipProduct;
    RecordStep(r, Leaf("variable", None, 4, 5), []);
    RecordStep(r, Leaf("*", None, 6, 7), []);
    RecordStep(r, Leaf("number", None, 8, 9), []);
    RecordTypeFires("product");
    assert Step(r, Product(), ["variable"] + ["*"] + ["number"]) == ["product"];
    ProductTraceFrom(r, ["variable"], ["*"], ["number"], ["product"]);
    RecordStep(r, Leaf("number", Some("left"), 0, 1), []);
    RecordStep(r, Leaf("+", None, 2, 3), []);
    var s := ["sum"] + (["number"] + ["+"] + ["product"]);
    RecordStep(r, InnerSum(None), ["number"] + ["+"] + ["product"]);
    RecordStep(r, ShortExpression(), s);
    ShortTraceFrom(r, ["number"], ["+"], ["product"], s, ["expression"] + s);
    FlattenSkipProduct("expression", "sum", "number", "+", "product");
  }

  /** `around_product` never calls its continuation: the product is recorded, its children are not. */
  method AroundWithoutYield() returns (acc: seq<string>)
    ensures acc == ["expression", "sum", "number", "+", "product"]
  {
    SkipProductTrace();
    acc := Walk(SkipProduct);
  }

  const SkipSum := Registry(None, map[], Some(Bracket), map["sum" := Wrap([Emit("around:sum", false)], 0, [])])

  lemma SkipSumTrace()
    ensures Trace(SkipSum, ShortExpression()) == [Before("expression"), "around:sum", After("expression")]
  {
    var r := SkipSum;
    var pr := Trace(r, Product());
    var m, plus := [Before("number"), After("number")], [Before("+"), After("+")];
    BracketStep(r, Leaf("number", Some("left"), 0, 1), []);
    BracketStep(r, Leaf("+", None, 2, 3), []);
    FireOne(Emit("around:sum", false), "sum");
    assert Step(r, InnerSum(None), m + plus + pr) == ["around:sum"];
    BracketStep(r, ShortExpression(), ["around:sum"]);
    ShortTraceFrom(r, m, plus, pr, ["around:sum"], [Before("expression")] + ["around:sum"] + [After("expression")]);
  }

  /** `around_sum` supersedes `around` for the sum and, not yielding, hides the whole sum subtree. */
  method SpecificAroundHookWins() returns (acc: seq<string>)
    ensures acc == ["before:expression", "around:sum", "after:expression"]
  {
    SkipSumTrace();
    Tags();
    acc := Walk(SkipSum);
  }
}
