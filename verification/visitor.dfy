/**
 * `TreeStand::Visitor`: a pre-order walk over a node tree that runs hooks the
 * caller registers. Each node reached first gets its visit hook (`on_<type>`,
 * else `on`, else nothing); then its wrap hook (`around_<type>`, else `around`)
 * decides whether, and how often, the children are walked. A node without a
 * wrap hook walks its children once. Hooks record by appending to a shared
 * event list; here a hook is described by the events it appends.
 */
module Visiting {
  import opened Wrappers
  import opened Syntax

  /** One append a hook performs: a fixed text, followed by the node's type when `withType`. */
  datatype Emit = Emit(text: string, withType: bool)

  /** A visit hook: the appends it performs, in order. */
  type Hook = seq<Emit>

  /** A wrap hook: appends before, number of times it calls its continuation, appends after. */
  datatype Wrap = Wrap(before: Hook, calls: nat, after: Hook)

  /**
   * The hooks a caller defined: the generic `on` and `around`, and the
   * type-specific `on_<type>` and `around_<type>` keyed by type tag.
   */
  datatype Registry = Registry(
    on: Option<Hook>,
    onType: map<string, Hook>,
    around: Option<Wrap>,
    aroundType: map<string, Wrap>)

  /** `acc << node.type`. */
  const RecordType: Hook := [Emit("", true)]

  function Render(e: Emit, kind: string): string
  {
    if e.withType then e.text + kind else e.text
  }

  /** The events a hook appends when run on a node of type `kind`. */
  function Fire(h: Hook, kind: string): (r: seq<string>)
    ensures |r| == |h|
  {
    if h == [] then [] else Fire(h[..|h| - 1], kind) + [Render(h[|h| - 1], kind)]
  }

  /** Visit-hook lookup: type-specific first, then generic, else none. */
  function VisitHook(r: Registry, kind: string): Option<Hook>
  {
    if kind in r.onType then Some(r.onType[kind]) else r.on
  }

  /** Wrap-hook lookup: type-specific first, then generic, else none. */
  function WrapHook(r: Registry, kind: string): Option<Wrap>
  {
    if kind in r.aroundType then Some(r.aroundType[kind]) else r.around
  }

  /** The events the visit hook of `n` appends. */
  function OnEvents(r: Registry, n: Node): seq<string>
  {
    match VisitHook(r, n.kind)
    case None => []
    case Some(h) => Fire(h, n.kind)
  }

  /** `s` repeated `k` times, one copy per continuation call. */
  function Repeat(s: seq<string>, k: nat): (t: seq<string>)
    ensures |t| == k * |s|
  {
    if k == 0 then [] else Repeat(s, k - 1) + s
  }

  /**
   * The events `visit` appends for the subtree rooted at `n`. The node's
   * visit-hook events come first, whether or not it has a wrap hook.
   */
  function Trace(r: Registry, n: Node): (t: seq<string>)
    ensures |OnEvents(r, n)| <= |t| && t[..|OnEvents(r, n)|] == OnEvents(r, n)
    decreases n, 1
  {
    OnEvents(r, n) + WrapEvents(r, n)
  }

  /** The events of the wrap hook of `n` and of the walks of its children it starts. */
  function WrapEvents(r: Registry, n: Node): seq<string>
    decreases n, 0
  {
    match WrapHook(r, n.kind)
    case None => TraceAll(r, n.children)
    case Some(w) => Fire(w.before, n.kind) + Repeat(TraceAll(r, n.children), w.calls) + Fire(w.after, n.kind)
  }

  /** The events of walking `cs` in order: the continuation a wrap hook receives. */
  function TraceAll(r: Registry, cs: seq<Node>): seq<string>
    decreases cs, 0
  {
    if cs == [] then [] else TraceAll(r, cs[..|cs| - 1]) + Trace(r, cs[|cs| - 1])
  }

  /** The visit-hook events of a sequence of nodes, one node after another. */
  function OnEventsOf(r: Registry, ns: seq<Node>): seq<string>
  {
    if ns == [] then [] else OnEvents(r, ns[0]) + OnEventsOf(r, ns[1..])
  }

  /** The nodes of `ns` whose type is in `kinds`, in order. */
  function OfKinds(ns: seq<Node>, kinds: set<string>): (r: seq<Node>)
    ensures |r| <= |ns|
    ensures forall i :: 0 <= i < |r| ==> r[i] in ns && r[i].kind in kinds
  {
    if ns == [] then []
    else if ns[0].kind in kinds then [ns[0]] + OfKinds(ns[1..], kinds)
    else OfKinds(ns[1..], kinds)
  }

  predicate NoWraps(r: Registry)
  {
    r.around == None && r.aroundType == map[]
  }

  lemma {:induction false} OnEventsOfAppend(r: Registry, a: seq<Node>, b: seq<Node>)
    ensures OnEventsOf(r, a + b) == OnEventsOf(r, a) + OnEventsOf(r, b)
    decreases |a|
  {
    if a == [] {
      assert a + b == b;
    } else {
      assert (a + b)[0] == a[0];
      assert (a + b)[1..] == a[1..] + b;
      OnEventsOfAppend(r, a[1..], b);
      var x, y, z := OnEvents(r, a[0]), OnEventsOf(r, a[1..]), OnEventsOf(r, b);
      assert OnEventsOf(r, a + b) == x + (y + z);
      assert x + (y + z) == x + y + z;
    }
  }

  /**
   * Without wrap hooks the walk is transparent: the trace is each node's
   * visit-hook events, node after node in pre-order.
   */
  lemma {:induction false} TraceWithoutWraps(r: Registry, n: Node)
    requires NoWraps(r)
    ensures Trace(r, n) == OnEventsOf(r, PreOrder(n))
    decreases n, 1
  {
    TraceAllWithoutWraps(r, n.children);
    OnEventsOfAppend(r, [n], PreOrderAll(n.children));
    assert [n][..0] == [];
    assert OnEventsOf(r, [n]) == OnEvents(r, n);
    assert WrapEvents(r, n) == TraceAll(r, n.children);
  }

  lemma {:induction false} TraceAllWithoutWraps(r: Registry, cs: seq<Node>)
    requires NoWraps(r)
    ensures TraceAll(r, cs) == OnEventsOf(r, PreOrderAll(cs))
    decreases cs, 0
  {
    if cs != [] {
      TraceAllWithoutWraps(r, cs[..|cs| - 1]);
      TraceWithoutWraps(r, cs[|cs| - 1]);
      OnEventsOfAppend(r, PreOrderAll(cs[..|cs| - 1]), PreOrder(cs[|cs| - 1]));
    }
  }

  lemma {:induction false} RecordTypeEverywhere(ns: seq<Node>)
    ensures OnEventsOf(Registry(Some(RecordType), map[], None, map[]), ns) == Kinds(ns)
    decreases |ns|
  {
    if ns != [] {
      var r := Registry(Some(RecordType), map[], None, map[]);
      RecordTypeEverywhere(ns[1..]);
      assert "" + ns[0].kind == ns[0].kind;
      assert OnEvents(r, ns[0]) == [ns[0].kind];
      assert Kinds(ns) == [ns[0].kind] + Kinds(ns[1..]);
    }
  }

  /** With only a generic `on` hook recording the type, the trace is the pre-order list of types. */
  lemma GenericVisitRecordsPreOrder(n: Node)
    ensures Trace(Registry(Some(RecordType), map[], None, map[]), n) == Kinds(PreOrder(n))
  {
    TraceWithoutWraps(Registry(Some(RecordType), map[], None, map[]), n);
    RecordTypeEverywhere(PreOrder(n));
  }

  lemma RecordTypeFires(kind: string)
    ensures Fire(RecordType, kind) == [kind]
  {
    assert RecordType[..0] == [];
    assert "" + kind == kind;
  }

  lemma KindsCons(n: Node, ns: seq<Node>)
    ensures Kinds([n] + ns) == [n.kind] + Kinds(ns)
  {
  }

  lemma {:induction false} RecordTypeForKinds(hooks: map<string, Hook>, ns: seq<Node>)
    requires forall k :: k in hooks ==> hooks[k] == RecordType
    ensures OnEventsOf(Registry(None, hooks, None, map[]), ns) == Kinds(OfKinds(ns, hooks.Keys))
    decreases |ns|
  {
    if ns != [] {
      var r := Registry(None, hooks, None, map[]);
      var rest := OfKinds(ns[1..], hooks.Keys);
      RecordTypeForKinds(hooks, ns[1..]);
      if ns[0].kind in hooks {
        RecordTypeFires(ns[0].kind);
        KindsCons(ns[0], rest);
      } else {
        assert OnEvents(r, ns[0]) == [];
      }
    }
  }

  /**
   * Type-specific `on_<type>` hooks fire for their own types only; every
   * other node records nothing, yet its children are still walked.
   */
  lemma SpecificVisitRecordsOwnTypes(hooks: map<string, Hook>, n: Node)
    requires forall k :: k in hooks ==> hooks[k] == RecordType
    ensures Trace(Registry(None, hooks, None, map[]), n) == Kinds(OfKinds(PreOrder(n), hooks.Keys))
  {
    TraceWithoutWraps(Registry(None, hooks, None, map[]), n);
    RecordTypeForKinds(hooks, PreOrder(n));
  }

  /**
   * A wrap hook that never calls its continuation cuts the walk at its node:
   * only the node's own visit hook and the wrap hook's appends remain, and
   * the subtree below makes no difference.
   */
  lemma SkipIgnoresSubtree(r: Registry, n: Node, other: seq<Node>)
    requires WrapHook(r, n.kind).Some? && WrapHook(r, n.kind).value.calls == 0
    ensures Trace(r, n) == OnEvents(r, n) + Fire(WrapHook(r, n.kind).value.before, n.kind)
                                          + Fire(WrapHook(r, n.kind).value.after, n.kind)
    ensures Trace(r, n) == Trace(r, n.(children := other))
  {
  }

  /** A generic wrap hook that only calls its continuation once behaves as if there were none. */
  lemma {:induction false} TransparentWrap(r: Registry, n: Node)
    ensures Trace(r.(around := Some(Wrap([], 1, []))), n) == Trace(r.(around := None), n)
    decreases n, 1
  {
    TransparentWrapAll(r, n.children);
    var with, without := r.(around := Some(Wrap([], 1, []))), r.(around := None);
    assert Repeat(TraceAll(with, n.children), 1) == TraceAll(with, n.children);
    if n.kind !in r.aroundType {
      assert WrapEvents(with, n) == TraceAll(with, n.children);
    }
  }

  lemma {:induction false} TransparentWrapAll(r: Registry, cs: seq<Node>)
    ensures TraceAll(r.(around := Some(Wrap([], 1, []))), cs) == TraceAll(r.(around := None), cs)
    decreases cs, 0
  {
    if cs != [] {
      TransparentWrapAll(r, cs[..|cs| - 1]);
      TransparentWrap(r, cs[|cs| - 1]);
    }
  }

  /** `around` appending `before:<type>`, calling its continuation once, then appending `after:<type>`. */
  const Bracket: Wrap := Wrap([Emit("before:", true)], 1, [Emit("after:", true)])

  /**
   * With only a bracketing generic `around` hook, every node contributes one
   * event before and one after its subtree, and each subtree's events open
   * with its own `before:` and close with its own `after:`.
   */
  lemma {:induction false} BracketsEnclose(n: Node)
    ensures |Trace(Registry(None, map[], Some(Bracket), map[]), n)| == 2 * Size(n)
    ensures Trace(Registry(None, map[], Some(Bracket), map[]), n)[0] == "before:" + n.kind
    ensures Trace(Registry(None, map[], Some(Bracket), map[]), n)[2 * Size(n) - 1] == "after:" + n.kind
    decreases n, 1
  {
    var r := Registry(None, map[], Some(Bracket), map[]);
    BracketsEncloseAll(n.children);
    assert Repeat(TraceAll(r, n.children), 1) == TraceAll(r, n.children);
    assert Trace(r, n) == ["before:" + n.kind] + TraceAll(r, n.children) + ["after:" + n.kind];
  }

  lemma {:induction false} BracketsEncloseAll(cs: seq<Node>)
    ensures |TraceAll(Registry(None, map[], Some(Bracket), map[]), cs)| == 2 * SizeAll(cs)
    decreases cs, 0
  {
    if cs != [] {
      BracketsEncloseAll(cs[..|cs| - 1]);
      BracketsEnclose(cs[|cs| - 1]);
    }
  }

  lemma Assoc<T>(a: seq<T>, b: seq<T>, c: seq<T>)
    ensures a + (b + c) == a + b + c
  {
  }

  lemma TraceAllPrefix(r: Registry, cs: seq<Node>, i: nat)
    requires i < |cs|
    ensures TraceAll(r, cs[..i + 1]) == TraceAll(r, cs[..i]) + Trace(r, cs[i])
  {
    assert cs[..i + 1][..i] == cs[..i];
  }

  /**
   * `TreeStand::Visitor` with the list its hooks append to. The hooks are the
   * caller's `Registry`; `acc` is the array the test's hooks append to.
   */
  class Visitor {
    const root: Node
    const hooks: Registry
    var acc: seq<string>

    constructor (root: Node, hooks: Registry)
      ensures this.root == root && this.hooks == hooks && acc == []
    {
      this.root := root;
      this.hooks := hooks;
      acc := [];
    }

    /** `Visitor#visit`: walks the whole tree from the root. */
    method Visit()
      modifies this
      ensures acc == old(acc) + Trace(hooks, root)
    {
      VisitNode(root);
    }

    /** Runs the visit hook, then the wrap hook (or the transparent default) of `n`. */
    method VisitNode(n: Node)
      modifies this
      ensures acc == old(acc) + Trace(hooks, n)
      decreases n, 2
    {
      match VisitHook(hooks, n.kind) {
        case None =>
        case Some(h) => Append(h, n.kind);
      }
      assert acc == old(acc) + OnEvents(hooks, n);
      WrapNode(n);
    }

    /** Runs the wrap hook of `n`, or walks its children once when it has none. */
    method WrapNode(n: Node)
      modifies this
      ensures acc == old(acc) + WrapEvents(hooks, n)
      decreases n, 0
    {
      match WrapHook(hooks, n.kind) {
        case None =>
          VisitChildren(n);
        case Some(w) =>
          Append(w.before, n.kind);
          var k := 0;
          ghost var inner := TraceAll(hooks, n.children);
          while k < w.calls
            invariant k <= w.calls
            invariant acc == old(acc) + Fire(w.before, n.kind) + Repeat(inner, k)
          {
            VisitChildren(n);
            Assoc(old(acc) + Fire(w.before, n.kind), Repeat(inner, k), inner);
            k := k + 1;
          }
          Append(w.after, n.kind);
          Assoc(old(acc), Fire(w.before, n.kind) + Repeat(inner, w.calls), Fire(w.after, n.kind));
          Assoc(old(acc), Fire(w.before, n.kind), Repeat(inner, w.calls));
      }
    }

    /** The continuation a wrap hook receives: walks the children of `n` in order. */
    method VisitChildren(n: Node)
      modifies this
      ensures acc == old(acc) + TraceAll(hooks, n.children)
      decreases n.children, 1
    {
      var i := 0;
      while i < |n.children|
        invariant i <= |n.children|
        invariant acc == old(acc) + TraceAll(hooks, n.children[..i])
      {
        VisitNode(n.children[i]);
        TraceAllPrefix(hooks, n.children, i);
        Assoc(old(acc), TraceAll(hooks, n.children[..i]), Trace(hooks, n.children[i]));
        i := i + 1;
      }
      assert n.children[..i] == n.children;
    }

    /** Runs a hook on a node of type `kind`: one append per `Emit`. */
    method Append(h: Hook, kind: string)
      modifies this
      ensures acc == old(acc) + Fire(h, kind)
    {
      for i := 0 to |h|
        invariant acc == old(acc) + Fire(h[..i], kind)
      {
        assert h[..i + 1][..i] == h[..i];
        assert Fire(h[..i + 1], kind) == Fire(h[..i], kind) + [Render(h[i], kind)];
        acc := acc + [Render(h[i], kind)];
      }
      assert h[..|h|] == h;
    }
  }
}
