/**
 * `Tree#query`: structural patterns matched against every node of a tree.
 * A pattern names a node type, may constrain the children under named fields
 * with sub-patterns, and may bind the node it describes to a capture name
 * (`@name`). Each node that matches yields one `Match`; matches come in the
 * pre-order of their nodes; a match's captures come in the order their
 * `@name`s are written in the pattern.
 */
module Querying {
  import opened Wrappers
  import opened Syntax

  datatype Pattern = Pattern(kind: string, fields: seq<FieldPattern>, capture: Option<string>)

  /** `field: (sub-pattern)` inside a pattern. */
  datatype FieldPattern = FieldPattern(field: string, sub: Pattern)

  /** A node bound to a capture name, with its position in the tree. */
  datatype Capture = Capture(name: string, node: Node, at: Path)

  /** One place the pattern matched: the matched node's position and the captures bound there. */
  datatype Match = Match(at: Path, captures: seq<Capture>)

  datatype QueryError = DuplicateCaptureName(name: string)

  /** The capture names of a pattern, in the order they are written. */
  function CaptureNames(p: Pattern): seq<string>
    decreases p
  {
    FieldCaptureNames(p.fields) + if p.capture.Some? then [p.capture.value] else []
  }

  function FieldCaptureNames(fs: seq<FieldPattern>): seq<string>
    decreases fs
  {
    if fs == [] then [] else CaptureNames(fs[0].sub) + FieldCaptureNames(fs[1..])
  }

  function Names(cs: seq<Capture>): (r: seq<string>)
    ensures |r| == |cs| && forall i :: 0 <= i < |cs| ==> r[i] == cs[i].name
  {
    if cs == [] then [] else [cs[0].name] + Names(cs[1..])
  }

  /** A name that occurs twice in `names`, if there is one. */
  function Duplicate(names: seq<string>): (r: Option<string>)
    ensures r.None? <==> forall i, j :: 0 <= i < j < |names| ==> names[i] != names[j]
    ensures r.Some? ==> exists i, j :: 0 <= i < j < |names| && names[i] == r.value && names[j] == r.value
  {
    if names == [] then None
    else if names[0] in names[1..] then Some(names[0])
    else
      var r := Duplicate(names[1..]);
      assert r.Some? ==> exists i, j :: 1 <= i < j < |names| && names[i] == r.value && names[j] == r.value by {
        if r.Some? {
          var i, j :| 0 <= i < j < |names[1..]| && names[1..][i] == r.value && names[1..][j] == r.value;
          assert names[i + 1] == r.value && names[j + 1] == r.value;
        }
      }
      r
  }

  /**
   * The captures bound when `n`, found at position `at`, matches `p`, or
   * `None` when it does not match.
   */
  function MatchNode(n: Node, at: Path, p: Pattern): Option<seq<Capture>>
    decreases p
  {
    if n.kind != p.kind then None
    else
      match MatchFields(n, at, p.fields)
      case None => None
      case Some(cs) => Some(cs + if p.capture.Some? then [Capture(p.capture.value, n, at)] else [])
  }

  /** Each field constraint applies to the first child of `n` under that field. */
  function MatchFields(n: Node, at: Path, fs: seq<FieldPattern>): Option<seq<Capture>>
    decreases fs
  {
    if fs == [] then Some([])
    else
      match FieldIndex(n, fs[0].field)
      case None => None
      case Some(i) =>
        match MatchNode(n.children[i], at + [i], fs[0].sub)
        case None => None
        case Some(first) =>
          match MatchFields(n, at, fs[1..])
          case None => None
          case Some(rest) => Some(first + rest)
  }

  /** The matches in the subtree of `n`, which sits at position `at`, in pre-order. */
  function MatchesIn(n: Node, at: Path, p: Pattern): seq<Match>
    decreases n, 1
  {
    (match MatchNode(n, at, p)
     case None => []
     case Some(cs) => [Match(at, cs)])
    + MatchesInChildren(n, at, p, |n.children|)
  }

  /** The matches in the subtrees of the first `k` children of `n`. */
  function MatchesInChildren(n: Node, at: Path, p: Pattern, k: nat): seq<Match>
    requires k <= |n.children|
    decreases n, 0, k
  {
    if k == 0 then []
    else MatchesInChildren(n, at, p, k - 1) + MatchesIn(n.children[k - 1], at + [k - 1], p)
  }

  /**
   * `Tree#query`: every match of `p` in the tree, or the error a duplicate
   * capture name raises. The query fails exactly when two `@name`s of the
   * pattern coincide, and the error names one that repeats.
   */
  function Query(root: Node, p: Pattern): (r: Result<seq<Match>, QueryError>)
    ensures r.Err? <==> exists i, j :: 0 <= i < j < |CaptureNames(p)| && CaptureNames(p)[i] == CaptureNames(p)[j]
    ensures r.Err? ==>
      exists i, j :: 0 <= i < j < |CaptureNames(p)|
        && CaptureNames(p)[i] == r.error.name && CaptureNames(p)[j] == r.error.name
  {
    match Duplicate(CaptureNames(p))
    case Some(name) => Err(DuplicateCaptureName(name))
    case None => Ok(MatchesIn(root, [], p))
  }

  /** `Match#[]`: the capture bound to `name`, or `None` when the match has none by that name. */
  function Lookup(m: Match, name: string): (r: Option<Capture>)
    ensures r.Some? ==> r.value in m.captures && r.value.name == name
    ensures r.None? <==> name !in Names(m.captures)
  {
    LookupIn(m.captures, name)
  }

  function LookupIn(cs: seq<Capture>, name: string): (r: Option<Capture>)
    ensures r.Some? ==> r.value in cs && r.value.name == name
    ensures r.None? <==> name !in Names(cs)
  {
    if cs == [] then None
    else if cs[0].name == name then Some(cs[0])
    else
      assert Names(cs) == [cs[0].name] + Names(cs[1..]);
      LookupIn(cs[1..], name)
  }

  /** `matches.dig(i, name)`: the capture `name` of the `i`-th match. */
  function Dig(ms: seq<Match>, i: nat, name: string): (r: Option<Capture>)
    ensures r.Some? <==> i < |ms| && name in Names(ms[i].captures)
    ensures r.Some? ==> r.value in ms[i].captures && r.value.name == name
  {
    if i < |ms| then Lookup(ms[i], name) else None
  }

  /**
   * Strict pre-order on positions: `a` comes before `b` when it is an
   * ancestor of `b`, or when at the first step where they part `a` takes an
   * earlier child.
   */
  ghost predicate PathBefore(a: Path, b: Path)
  {
    || (|a| < |b| && a == b[..|a|])
    || (exists d :: 0 <= d < |a| && d < |b| && a[..d] == b[..d] && a[d] < b[d])
  }

  ghost predicate InPreOrder(ms: seq<Match>)
  {
    forall i, j :: 0 <= i < j < |ms| ==> PathBefore(ms[i].at, ms[j].at)
  }

  lemma {:induction false} NamesAppend(a: seq<Capture>, b: seq<Capture>)
    ensures Names(a + b) == Names(a) + Names(b)
  {
  }

  /** A successful match binds exactly the pattern's capture names, in the order they are written. */
  lemma {:induction false} MatchBindsPatternNames(n: Node, at: Path, p: Pattern)
    requires MatchNode(n, at, p).Some?
    ensures Names(MatchNode(n, at, p).value) == CaptureNames(p)
    decreases p
  {
    var fields := MatchFields(n, at, p.fields).value;
    MatchFieldsBindNames(n, at, p.fields);
    var own := if p.capture.Some? then [Capture(p.capture.value, n, at)] else [];
    NamesAppend(fields, own);
  }

  lemma {:induction false} MatchFieldsBindNames(n: Node, at: Path, fs: seq<FieldPattern>)
    requires MatchFields(n, at, fs).Some?
    ensures Names(MatchFields(n, at, fs).value) == FieldCaptureNames(fs)
    decreases fs
  {
    if fs != [] {
      var i := FieldIndex(n, fs[0].field).value;
      MatchBindsPatternNames(n.children[i], at + [i], fs[0].sub);
      MatchFieldsBindNames(n, at, fs[1..]);
      NamesAppend(MatchNode(n.children[i], at + [i], fs[0].sub).value, MatchFields(n, at, fs[1..]).value);
    }
  }

  /** Every capture of a match records a position at which its node really sits. */
  lemma {:induction false} MatchCapturesAreLocated(root: Node, n: Node, at: Path, p: Pattern)
    requires NodeAt(root, at) == Some(n) && MatchNode(n, at, p).Some?
    ensures forall c :: c in MatchNode(n, at, p).value ==> NodeAt(root, c.at) == Some(c.node)
    decreases p
  {
    MatchFieldsAreLocated(root, n, at, p.fields);
  }

  lemma {:induction false} MatchFieldsAreLocated(root: Node, n: Node, at: Path, fs: seq<FieldPattern>)
    requires NodeAt(root, at) == Some(n) && MatchFields(n, at, fs).Some?
    ensures forall c :: c in MatchFields(n, at, fs).value ==> NodeAt(root, c.at) == Some(c.node)
    decreases fs
  {
    if fs != [] {
      var i := FieldIndex(n, fs[0].field).value;
      NodeAtExtend(root, at, i);
      MatchCapturesAreLocated(root, n.children[i], at + [i], fs[0].sub);
      MatchFieldsAreLocated(root, n, at, fs[1..]);
    }
  }

  /**
   * Each match found below `n` (which sits at `at`) lies at an extension of
   * `at`, and the node there matches the pattern with exactly its captures.
   */
  lemma {:induction false} MatchesInSound(n: Node, at: Path, p: Pattern, m: Match)
    requires m in MatchesIn(n, at, p)
    ensures |at| <= |m.at| && m.at[..|at|] == at
    ensures NodeAt(n, m.at[|at|..]).Some?
    ensures MatchNode(NodeAt(n, m.at[|at|..]).value, m.at, p) == Some(m.captures)
    decreases n, 1
  {
    if m !in MatchesInChildren(n, at, p, |n.children|) {
      assert m.at == at;
      assert m.at[|at|..] == [];
    } else {
      MatchesInChildrenSound(n, at, p, |n.children|, m);
    }
  }

  lemma {:induction false} MatchesInChildrenSound(n: Node, at: Path, p: Pattern, k: nat, m: Match)
    requires k <= |n.children| && m in MatchesInChildren(n, at, p, k)
    ensures |at| < |m.at| && m.at[..|at|] == at && m.at[|at|] < k
    ensures NodeAt(n, m.at[|at|..]).Some?
    ensures MatchNode(NodeAt(n, m.at[|at|..]).value, m.at, p) == Some(m.captures)
    decreases n, 0, k
  {
    if m in MatchesInChildren(n, at, p, k - 1) {
      MatchesInChildrenSound(n, at, p, k - 1, m);
    } else {
      var i := k - 1;
      var child := n.children[i];
      MatchesInSound(child, at + [i], p, m);
      assert m.at[..|at| + 1] == at + [i];
      assert m.at[..|at|] == m.at[..|at| + 1][..|at|];
      var rest := m.at[|at|..];
      assert rest[0] == i;
      assert rest[1..] == m.at[|at| + 1..];
    }
  }

  /** The matches in the subtree of child `i` are among those of the first `k > i` children. */
  lemma {:induction false} ChildMatchesIncluded(n: Node, at: Path, p: Pattern, i: nat, k: nat, m: Match)
    requires i < k <= |n.children|
    requires m in MatchesIn(n.children[i], at + [i], p)
    ensures m in MatchesInChildren(n, at, p, k)
    decreases k
  {
    if i < k - 1 {
      ChildMatchesIncluded(n, at, p, i, k - 1, m);
    }
  }

  /** Every node below `n` that matches the pattern yields a match, with the captures it binds. */
  lemma {:induction false} MatchesInComplete(n: Node, at: Path, p: Pattern, q: Path, x: Node, cs: seq<Capture>)
    requires NodeAt(n, q) == Some(x) && MatchNode(x, at + q, p) == Some(cs)
    ensures Match(at + q, cs) in MatchesIn(n, at, p)
    decreases |q|
  {
    if q == [] {
      assert at + q == at;
    } else {
      var i := q[0];
      assert at + q == (at + [i]) + q[1..];
      MatchesInComplete(n.children[i], at + [i], p, q[1..], x, cs);
      ChildMatchesIncluded(n, at, p, i, |n.children|, Match(at + q, cs));
    }
  }

  lemma OrderedConcat(a: seq<Match>, b: seq<Match>)
    requires InPreOrder(a) && InPreOrder(b)
    requires forall x, y :: x in a && y in b ==> PathBefore(x.at, y.at)
    ensures InPreOrder(a + b)
  {
    forall i, j | 0 <= i < j < |a + b| ensures PathBefore((a + b)[i].at, (a + b)[j].at) {
      if j < |a| {
        assert (a + b)[i] == a[i] && (a + b)[j] == a[j];
      } else if i >= |a| {
        assert (a + b)[i] == b[i - |a|] && (a + b)[j] == b[j - |a|];
      } else {
        assert (a + b)[i] in a && (a + b)[j] in b;
      }
    }
  }

  /** The matches below `n` come in pre-order of their positions. */
  lemma {:induction false} MatchesInOrdered(n: Node, at: Path, p: Pattern)
    ensures InPreOrder(MatchesIn(n, at, p))
    decreases n, 1
  {
    var own := match MatchNode(n, at, p) case None => [] case Some(cs) => [Match(at, cs)];
    var below := MatchesInChildren(n, at, p, |n.children|);
    MatchesInChildrenOrdered(n, at, p, |n.children|);
    forall x, y | x in own && y in below ensures PathBefore(x.at, y.at) {
      MatchesInChildrenSound(n, at, p, |n.children|, y);
    }
    OrderedConcat(own, below);
  }

  lemma {:induction false} MatchesInChildrenOrdered(n: Node, at: Path, p: Pattern, k: nat)
    requires k <= |n.children|
    ensures InPreOrder(MatchesInChildren(n, at, p, k))
    decreases n, 0, k
  {
    if k > 0 {
      var i := k - 1;
      var earlier := MatchesInChildren(n, at, p, i);
      var last := MatchesIn(n.children[i], at + [i], p);
      MatchesInChildrenOrdered(n, at, p, i);
      MatchesInOrdered(n.children[i], at + [i], p);
      forall x, y | x in earlier && y in last ensures PathBefore(x.at, y.at) {
        EarlierSiblingFirst(n, at, p, i, x, y);
      }
      OrderedConcat(earlier, last);
    }
  }

  /** A match below an earlier child precedes every match below child `i`. */
  lemma EarlierSiblingFirst(n: Node, at: Path, p: Pattern, i: nat, x: Match, y: Match)
    requires i < |n.children|
    requires x in MatchesInChildren(n, at, p, i) && y in MatchesIn(n.children[i], at + [i], p)
    ensures PathBefore(x.at, y.at)
  {
    MatchesInChildrenSound(n, at, p, i, x);
    MatchesInSound(n.children[i], at + [i], p, y);
    assert y.at[..|at| + 1] == at + [i];
    assert y.at[..|at|] == y.at[..|at| + 1][..|at|];
    var d := |at|;
    assert x.at[..d] == y.at[..d] && x.at[d] < y.at[d];
  }

  /** Every match `query` returns is at a node of the tree that matches the pattern. */
  lemma QuerySound(root: Node, p: Pattern, m: Match)
    requires Query(root, p).Ok? && m in Query(root, p).value
    ensures NodeAt(root, m.at).Some?
    ensures MatchNode(NodeAt(root, m.at).value, m.at, p) == Some(m.captures)
  {
    MatchesInSound(root, [], p, m);
    assert m.at[0..] == m.at;
  }

  /** Every node of the tree that matches the pattern appears among the matches `query` returns. */
  lemma QueryComplete(root: Node, p: Pattern, at: Path, x: Node, cs: seq<Capture>)
    requires Query(root, p).Ok?
    requires NodeAt(root, at) == Some(x) && MatchNode(x, at, p) == Some(cs)
    ensures Match(at, cs) in Query(root, p).value
  {
    assert [] + at == at;
    MatchesInComplete(root, [], p, at, x, cs);
  }

  /** Every match `query` returns is at a node of the tree. */
  lemma QueryLocated(root: Node, p: Pattern)
    requires Query(root, p).Ok?
    ensures forall m :: m in Query(root, p).value ==> NodeAt(root, m.at).Some?
  {
    forall m | m in Query(root, p).value
      ensures NodeAt(root, m.at).Some?
    {
      QuerySound(root, p, m);
    }
  }

  /** Matches come in pre-order of the matched nodes, so an enclosing match precedes the ones inside it. */
  lemma QueryInPreOrder(root: Node, p: Pattern)
    requires Query(root, p).Ok?
    ensures InPreOrder(Query(root, p).value)
  {
    MatchesInOrdered(root, [], p);
  }

  /**
   * Each match has one capture per `@name` of the pattern, in the order they
   * are written, and each capture's node sits where the capture says.
   */
  lemma QueryCaptures(root: Node, p: Pattern, m: Match)
    requires Query(root, p).Ok? && m in Query(root, p).value
    ensures Names(m.captures) == CaptureNames(p)
    ensures |m.captures| == |CaptureNames(p)|
    ensures forall c :: c in m.captures ==> NodeAt(root, c.at) == Some(c.node)
  {
    QuerySound(root, p, m);
    var x := NodeAt(root, m.at).value;
    MatchBindsPatternNames(x, m.at, p);
    MatchCapturesAreLocated(root, x, m.at, p);
  }

  /** A pattern without any `@name` yields matches whose captures are empty. */
  lemma QueryWithoutCaptures(root: Node, p: Pattern, m: Match)
    requires CaptureNames(p) == []
    requires Query(root, p).Ok? && m in Query(root, p).value
    ensures m.captures == []
  {
    QueryCaptures(root, p, m);
  }

  /** The `@name` written on the pattern itself is bound to the matched node. */
  lemma QueryOwnCapture(root: Node, p: Pattern, m: Match)
    requires p.capture.Some?
    requires Query(root, p).Ok? && m in Query(root, p).value
    ensures NodeAt(root, m.at).Some?
    ensures Lookup(m, p.capture.value) == Some(Capture(p.capture.value, NodeAt(root, m.at).value, m.at))
  {
    var name := p.capture.value;
    QuerySound(root, p, m);
    QueryCaptures(root, p, m);
    var x := NodeAt(root, m.at).value;
    var fields := MatchFields(x, m.at, p.fields).value;
    assert m.captures == fields + [Capture(name, x, m.at)];
    var names := CaptureNames(p);
    var last := |m.captures| - 1;
    assert names[last] == name;
    var c := Lookup(m, name).value;
    var k :| 0 <= k < |m.captures| && m.captures[k] == c;
    assert k == last;
  }

  /** With distinct capture names, looking a capture up by its name finds that very capture. */
  lemma LookupDistinct(m: Match, c: Capture)
    requires c in m.captures
    requires forall i, j :: 0 <= i < j < |m.captures| ==> m.captures[i].name != m.captures[j].name
    ensures Lookup(m, c.name) == Some(c)
  {
    var k :| 0 <= k < |m.captures| && m.captures[k] == c;
    assert Names(m.captures)[k] == c.name;
    var r := Lookup(m, c.name).value;
    var l :| 0 <= l < |m.captures| && m.captures[l] == r;
    assert k == l;
  }

  /**
   * The sub-pattern reached from `p` by taking its `ks[0]`-th field
   * constraint, then that sub-pattern's `ks[1]`-th one, and so on.
   */
  function SubPattern(p: Pattern, ks: seq<nat>): Option<Pattern>
    decreases |ks|
  {
    if ks == [] then Some(p)
    else if ks[0] < |p.fields| then SubPattern(p.fields[ks[0]].sub, ks[1..])
    else None
  }

  /**
   * The node, and its position, reached from `n` (at `at`) by following the
   * fields named along `ks` in `p`: at each step, the first child under that
   * field.
   */
  function FieldDescendant(n: Node, at: Path, p: Pattern, ks: seq<nat>): Option<(Node, Path)>
    decreases |ks|
  {
    if ks == [] then Some((n, at))
    else if ks[0] < |p.fields| then
      match FieldIndex(n, p.fields[ks[0]].field)
      case None => None
      case Some(i) => FieldDescendant(n.children[i], at + [i], p.fields[ks[0]].sub, ks[1..])
    else None
  }

  /** When the fields match, the `k`-th constraint's sub-pattern matches the first child under its field. */
  lemma {:induction false} FieldMatchIncluded(n: Node, at: Path, fs: seq<FieldPattern>, k: nat)
    requires MatchFields(n, at, fs).Some? && k < |fs|
    ensures FieldIndex(n, fs[k].field).Some?
    ensures var i := FieldIndex(n, fs[k].field).value;
      && MatchNode(n.children[i], at + [i], fs[k].sub).Some?
      && forall c :: c in MatchNode(n.children[i], at + [i], fs[k].sub).value ==> c in MatchFields(n, at, fs).value
    decreases fs
  {
    var i := FieldIndex(n, fs[0].field).value;
    var first := MatchNode(n.children[i], at + [i], fs[0].sub).value;
    var rest := MatchFields(n, at, fs[1..]).value;
    assert MatchFields(n, at, fs).value == first + rest;
    if k > 0 {
      assert fs[1..][k - 1] == fs[k];
      FieldMatchIncluded(n, at, fs[1..], k - 1);
    }
  }

  /**
   * A `@name` on any sub-pattern, however deep, binds the node reached by
   * following the fields that lead to that sub-pattern, at that node's position.
   */
  lemma {:induction false} MatchCaptureAt(n: Node, at: Path, p: Pattern, ks: seq<nat>)
    requires MatchNode(n, at, p).Some?
    requires SubPattern(p, ks).Some? && SubPattern(p, ks).value.capture.Some?
    ensures FieldDescendant(n, at, p, ks).Some?
    ensures var d := FieldDescendant(n, at, p, ks).value;
      Capture(SubPattern(p, ks).value.capture.value, d.0, d.1) in MatchNode(n, at, p).value
    decreases |ks|
  {
    var fields := MatchFields(n, at, p.fields).value;
    var own := if p.capture.Some? then [Capture(p.capture.value, n, at)] else [];
    assert MatchNode(n, at, p).value == fields + own;
    if ks != [] {
      var k := ks[0];
      FieldMatchIncluded(n, at, p.fields, k);
      var i := FieldIndex(n, p.fields[k].field).value;
      MatchCaptureAt(n.children[i], at + [i], p.fields[k].sub, ks[1..]);
    }
  }

  /**
   * A `@name` written on any sub-pattern, reached through the fields along
   * `ks`, is bound to the node those fields lead to from the matched node,
   * at that node's position in the tree.
   */
  lemma QueryNestedCapture(root: Node, p: Pattern, m: Match, ks: seq<nat>)
    requires Query(root, p).Ok? && m in Query(root, p).value
    requires SubPattern(p, ks).Some? && SubPattern(p, ks).value.capture.Some?
    ensures NodeAt(root, m.at).Some?
    ensures FieldDescendant(NodeAt(root, m.at).value, m.at, p, ks).Some?
    ensures var d := FieldDescendant(NodeAt(root, m.at).value, m.at, p, ks).value;
      var name := SubPattern(p, ks).value.capture.value;
      && NodeAt(root, d.1) == Some(d.0)
      && Lookup(m, name) == Some(Capture(name, d.0, d.1))
  {
    QuerySound(root, p, m);
    QueryCaptures(root, p, m);
    var x := NodeAt(root, m.at).value;
    MatchCaptureAt(x, m.at, p, ks);
    var d := FieldDescendant(x, m.at, p, ks).value;
    var c := Capture(SubPattern(p, ks).value.capture.value, d.0, d.1);
    forall a, b | 0 <= a < b < |m.captures|
      ensures m.captures[a].name != m.captures[b].name
    {
      assert Names(m.captures)[a] == CaptureNames(p)[a];
    }
    LookupDistinct(m, c);
  }

  /**
   * A `@name` written on the sub-pattern of field `f` is bound to the
   * matched node's first child under `f`, at that child's position.
   */
  lemma QueryFieldCapture(root: Node, p: Pattern, m: Match, k: nat)
    requires Query(root, p).Ok? && m in Query(root, p).value
    requires k < |p.fields| && p.fields[k].sub.capture.Some?
    ensures NodeAt(root, m.at).Some?
    ensures var x := NodeAt(root, m.at).value;
      && FieldIndex(x, p.fields[k].field).Some?
      && var i := FieldIndex(x, p.fields[k].field).value;
      && Lookup(m, p.fields[k].sub.capture.value) == Some(Capture(p.fields[k].sub.capture.value, x.children[i], m.at + [i]))
  {
    assert SubPattern(p.fields[k].sub, []) == Some(p.fields[k].sub);
    QueryNestedCapture(root, p, m, [k]);
  }
}
