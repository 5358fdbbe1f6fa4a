/** The visit recursion of the JavaScript nesting audit (tools/dev/audit_control_flow.js), on a syntax tree. */
module JsNesting {

  datatype Kind = Function | If | Loop | Switch | Try | Catch | Other(name: string)

  /** A node with its line and its children in order; `alternative` marks the one that is its parent's else
      statement. */
  datatype Node = Node(kind: Kind, line: nat, alternative: bool, children: seq<Node>)

  datatype Report = Report(maxDepth: nat, deepestLine: nat, deepestKind: Kind)

  const SOURCE := Other("source")
  const NOTHING := Report(0, 1, SOURCE)

  predicate IsElseIf(node: Node, parent: Kind) {
    node.kind.If? && parent.If? && node.alternative
  }

  predicate IsControlNode(node: Node, parent: Kind) {
    match node.kind
    case If => !IsElseIf(node, parent)
    case Loop => true
    case Switch => true
    case Try => true
    case Catch => true
    case _ => false
  }

  function NextDepth(node: Node, depth: nat, parent: Kind): nat {
    (if node.kind.Function? then 0 else depth) + if IsControlNode(node, parent) then 1 else 0
  }

  function Noted(r: Report, node: Node, depth: nat): Report {
    if depth > r.maxDepth then Report(depth, node.line, node.kind) else r
  }

  function Visited(r: Report, node: Node, depth: nat, parent: Kind): Report
    decreases node
  {
    var next := NextDepth(node, depth, parent);
    VisitedAll(Noted(r, node, next), node.children, next, node.kind)
  }

  function VisitedAll(r: Report, nodes: seq<Node>, depth: nat, parent: Kind): Report
    decreases nodes
  {
    if nodes == [] then r else VisitedAll(Visited(r, nodes[0], depth, parent), nodes[1..], depth, parent)
  }

  // ---- nesting, path by path ----

  /** A path picks a child at every level; its nodes run from the root down. */
  predicate IsPath(root: Node, path: seq<nat>)
    decreases |path|
  {
    path == [] || (path[0] < |root.children| && IsPath(root.children[path[0]], path[1..]))
  }

  function At(root: Node, path: seq<nat>): Node
    requires IsPath(root, path)
    decreases |path|
  {
    if path == [] then root else At(root.children[path[0]], path[1..])
  }

  function ParentKind(root: Node, path: seq<nat>): Kind
    requires IsPath(root, path)
    decreases |path|
  {
    if path == [] then SOURCE
    else if |path| == 1 then root.kind
    else ParentKind(root.children[path[0]], path[1..])
  }

  lemma {:induction false} PrefixIsPath(root: Node, path: seq<nat>, k: nat)
    requires IsPath(root, path) && k <= |path|
    ensures IsPath(root, path[..k])
    decreases k
  {
    if k > 0 {
      PrefixIsPath(root.children[path[0]], path[1..], k - 1);
      assert path[..k][1..] == path[1..][..k - 1];
    }
  }

  predicate ControlAt(root: Node, path: seq<nat>)
    requires IsPath(root, path)
  {
    match At(root, path).kind
    case If => path == [] || !ParentKind(root, path).If? || !At(root, path).alternative
    case Loop => true
    case Switch => true
    case Try => true
    case Catch => true
    case Function => false
    case Other(_) => false
  }

  /** Control nodes on the way to a node, itself included, since the nearest function around it: counted from the node
      up. */
  function Nesting(root: Node, path: seq<nat>): nat
    requires IsPath(root, path)
    decreases |path|
  {
    var own := if ControlAt(root, path) then 1 else 0;
    if At(root, path).kind.Function? || path == [] then own
    else PrefixIsPath(root, path, |path| - 1); Nesting(root, path[..|path| - 1]) + own
  }

  /** What the recursion hands down on the way to a node. */
  function DepthAt(root: Node, path: seq<nat>, depth: nat, parent: Kind): nat
    requires IsPath(root, path)
    decreases |path|
  {
    var next := NextDepth(root, depth, parent);
    if path == [] then next else DepthAt(root.children[path[0]], path[1..], next, root.kind)
  }

  lemma {:induction false} AtSnoc(root: Node, path: seq<nat>, i: nat)
    requires IsPath(root, path) && i < |At(root, path).children|
    ensures IsPath(root, path + [i])
    ensures At(root, path + [i]) == At(root, path).children[i]
    ensures ParentKind(root, path + [i]) == At(root, path).kind
    decreases |path|
  {
    if path != [] {
      AtSnoc(root.children[path[0]], path[1..], i);
      assert (path + [i])[1..] == path[1..] + [i];
    } else {
      assert [i][1..] == [];
      assert path + [i] == [i];
    }
  }

  lemma {:induction false} DepthSnoc(root: Node, path: seq<nat>, i: nat, depth: nat, parent: Kind)
    requires IsPath(root, path) && IsPath(root, path + [i]) && i < |At(root, path).children|
    ensures DepthAt(root, path + [i], depth, parent)
         == NextDepth(At(root, path).children[i], DepthAt(root, path, depth, parent), At(root, path).kind)
    decreases |path|
  {
    hide NextDepth;
    if path != [] {
      assert (path + [i])[1..] == path[1..] + [i];
      DepthSnoc(root.children[path[0]], path[1..], i, NextDepth(root, depth, parent), root.kind);
    } else {
      assert [i][1..] == [];
      assert path + [i] == [i];
    }
  }

  lemma {:induction false} ParentHasChild(root: Node, path: seq<nat>)
    requires IsPath(root, path) && path != []
    ensures IsPath(root, path[..|path| - 1]) && path[|path| - 1] < |At(root, path[..|path| - 1]).children|
    decreases |path|
  {
    if |path| > 1 {
      ParentHasChild(root.children[path[0]], path[1..]);
      assert path[..|path| - 1][1..] == path[1..][..|path| - 2];
    }
  }

  /** The depth handed down is the nesting counted up. */
  lemma {:induction false} DepthIsNesting(root: Node, path: seq<nat>)
    requires IsPath(root, path)
    ensures DepthAt(root, path, 0, SOURCE) == Nesting(root, path)
    decreases |path|
  {
    if path != [] {
      var up, i := path[..|path| - 1], path[|path| - 1];
      ParentHasChild(root, path);
      DepthIsNesting(root, up);
      assert path == up + [i];
      AtSnoc(root, up, i);
      DepthSnoc(root, up, i, 0, SOURCE);
    }
  }

  // ---- the report is the maximum over all paths ----

  ghost predicate Covers(r: Report, root: Node, depth: nat, parent: Kind) {
    forall path :: IsPath(root, path) ==> DepthAt(root, path, depth, parent) <= r.maxDepth
  }

  ghost predicate FoundIn(r: Report, root: Node, depth: nat, parent: Kind) {
    exists path :: IsPath(root, path) && DepthAt(root, path, depth, parent) == r.maxDepth
      && At(root, path).line == r.deepestLine && At(root, path).kind == r.deepestKind
  }

  ghost predicate FoundAmong(r: Report, nodes: seq<Node>, depth: nat, parent: Kind) {
    exists i :: 0 <= i < |nodes| && FoundIn(r, nodes[i], depth, parent)
  }

  lemma FoundBelow(r: Report, root: Node, depth: nat, parent: Kind)
    requires FoundAmong(r, root.children, NextDepth(root, depth, parent), root.kind)
    ensures FoundIn(r, root, depth, parent)
  {
    var next := NextDepth(root, depth, parent);
    var i :| 0 <= i < |root.children| && FoundIn(r, root.children[i], next, root.kind);
    var path :| IsPath(root.children[i], path) && DepthAt(root.children[i], path, next, root.kind) == r.maxDepth
      && At(root.children[i], path).line == r.deepestLine && At(root.children[i], path).kind == r.deepestKind;
    assert ([i] + path)[1..] == path;
    assert IsPath(root, [i] + path);
  }

  lemma CoversFromChildren(r: Report, root: Node, depth: nat, parent: Kind)
    requires NextDepth(root, depth, parent) <= r.maxDepth
    requires forall i :: 0 <= i < |root.children| ==>
             Covers(r, root.children[i], NextDepth(root, depth, parent), root.kind)
    ensures Covers(r, root, depth, parent)
  {
    forall path | IsPath(root, path) ensures DepthAt(root, path, depth, parent) <= r.maxDepth {
      if path != [] {
        assert Covers(r, root.children[path[0]], NextDepth(root, depth, parent), root.kind);
      }
    }
  }

  lemma CoversMore(r: Report, t: Report, root: Node, depth: nat, parent: Kind)
    requires Covers(r, root, depth, parent) && r.maxDepth <= t.maxDepth
    ensures Covers(t, root, depth, parent)
  {
  }

  /** A visit only raises the report, covers its subtree, and names a node of the subtree if it changed. */
  lemma {:induction false} VisitedCovers(r: Report, node: Node, depth: nat, parent: Kind)
    ensures var t := Visited(r, node, depth, parent);
            && t.maxDepth >= r.maxDepth && Covers(t, node, depth, parent)
            && (t == r || FoundIn(t, node, depth, parent))
    decreases node
  {
    hide Covers, FoundIn, FoundAmong, NextDepth;
    var next := NextDepth(node, depth, parent);
    var noted := Noted(r, node, next);
    var t := Visited(r, node, depth, parent);
    VisitedAllCovers(noted, node.children, next, node.kind);
    CoversFromChildren(t, node, depth, parent);
    if t != noted {
      FoundBelow(t, node, depth, parent);
    } else if noted != r {
      FoundHere(t, node, depth, parent);
    }
  }

  lemma FoundHere(r: Report, node: Node, depth: nat, parent: Kind)
    requires r == Report(NextDepth(node, depth, parent), node.line, node.kind)
    ensures FoundIn(r, node, depth, parent)
  {
    assert IsPath(node, []) && At(node, []) == node && DepthAt(node, [], depth, parent) == r.maxDepth;
  }

  lemma {:induction false} VisitedAllCovers(r: Report, nodes: seq<Node>, depth: nat, parent: Kind)
    ensures var t := VisitedAll(r, nodes, depth, parent);
            && t.maxDepth >= r.maxDepth
            && (forall i :: 0 <= i < |nodes| ==> Covers(t, nodes[i], depth, parent))
            && (t == r || FoundAmong(t, nodes, depth, parent))
    decreases nodes
  {
    hide Covers, FoundIn, Visited;
    if nodes != [] {
      var one := Visited(r, nodes[0], depth, parent);
      var t := VisitedAll(one, nodes[1..], depth, parent);
      VisitedCovers(r, nodes[0], depth, parent);
      VisitedAllCovers(one, nodes[1..], depth, parent);
      CoversMore(one, t, nodes[0], depth, parent);
      forall i | 0 <= i < |nodes| ensures Covers(t, nodes[i], depth, parent) {
        if i > 0 { assert nodes[i] == nodes[1..][i - 1]; }
      }
      if t != one {
        var i :| 0 <= i < |nodes[1..]| && FoundIn(t, nodes[1..][i], depth, parent);
        assert nodes[i + 1] == nodes[1..][i];
      }
    }
  }

  ghost predicate DeepestNesting(root: Node, r: Report) {
    && (forall path :: IsPath(root, path) ==> Nesting(root, path) <= r.maxDepth)
    && (r == NOTHING || exists path :: IsPath(root, path) && Names(r, root, path))
  }

  ghost predicate Names(r: Report, root: Node, path: seq<nat>)
    requires IsPath(root, path)
  {
    r == Report(Nesting(root, path), At(root, path).line, At(root, path).kind)
  }

  /**
   The audit reports the largest number of control nodes on any path since the nearest function, and a node that has it:
   an else-if chain counts once, a function's body starts again at zero, and a catch counts inside its try.
   */
  lemma ReportsDeepestNesting(root: Node)
    ensures DeepestNesting(root, Visited(NOTHING, root, 0, SOURCE))
  {
    hide Nesting, DepthAt, Visited, IsPath, At;
    var r := Visited(NOTHING, root, 0, SOURCE);
    VisitedCovers(NOTHING, root, 0, SOURCE);
    forall path | IsPath(root, path) ensures Nesting(root, path) == DepthAt(root, path, 0, SOURCE) {
      DepthIsNesting(root, path);
    }
  }

  // ---- else-if chains ----

  /** `if … else if … else if …`, each with no body of its own. */
  function Chain(n: nat, alternative: bool): Node {
    Node(If, n, alternative, if n == 0 then [] else [Chain(n - 1, true)])
  }

  /** An else-if chain of any length is one level deep. */
  lemma ChainDepth(n: nat)
    ensures Visited(NOTHING, Chain(n, false), 0, SOURCE) == Report(1, n, If)
  {
    var node, r := Chain(n, false), Report(1, n, If);
    assert Visited(NOTHING, node, 0, SOURCE) == VisitedAll(r, node.children, 1, If);
    if n > 0 {
      ChainsAreFlat(n - 1, r);
      assert node.children[1..] == [];
      assert VisitedAll(r, node.children, 1, If) == VisitedAll(r, node.children[1..], 1, If);
    }
  }

  lemma {:induction false} ChainsAreFlat(n: nat, r: Report)
    requires r.maxDepth >= 1
    ensures Visited(r, Chain(n, true), 1, If) == r
  {
    if n > 0 {
      ChainsAreFlat(n - 1, r);
      var node := Chain(n, true);
      assert node.children[1..] == [];
      assert VisitedAll(r, node.children, 1, If) == VisitedAll(r, node.children[1..], 1, If);
    }
  }

  // ---- the audit itself ----

  class JsAudit {
    var maxDepth: nat
    var deepestLine: nat
    var deepestKind: Kind

    function Now(): Report reads this { Report(maxDepth, deepestLine, deepestKind) }

    constructor ()
      ensures Now() == NOTHING
    {
      maxDepth, deepestLine, deepestKind := 0, 1, SOURCE;
    }

    method Visit(node: Node, depth: nat, parent: Kind)
      modifies this
      ensures Now() == Visited(old(Now()), node, depth, parent)
      decreases node, 0
    {
      hide IsControlNode;
      var functionDepth := if node.kind.Function? then 0 else depth;
      var nextDepth := functionDepth + if IsControlNode(node, parent) then 1 else 0;
      if nextDepth > maxDepth {
        maxDepth, deepestLine, deepestKind := nextDepth, node.line, node.kind;
      }
      ghost var noted := Now();
      var left := node.children;
      while left != []
        invariant |left| <= |node.children| && left == node.children[|node.children| - |left|..]
        invariant VisitedAll(noted, node.children, nextDepth, node.kind)
                  == VisitedAll(Now(), left, nextDepth, node.kind)
        decreases |left|
      {
        assert left[0] in node.children;
        Visit(left[0], nextDepth, node.kind);
        left := left[1..];
      }
    }
  }

  method AnalyzeJsSource(root: Node) returns (report: Report)
    ensures report == Visited(NOTHING, root, 0, SOURCE)
    ensures DeepestNesting(root, report)
  {
    var audit := new JsAudit();
    audit.Visit(root, 0, SOURCE);
    ReportsDeepestNesting(root);
    return audit.Now();
  }
}
