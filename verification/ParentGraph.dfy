/** Graphs given as parent -> list of children, their walks, simple paths and simple cycles. */
module ParentGraph {
  import opened Basics
  import opened Rotation

  /** Nodes are only compared for equality. */
  type Node = nat

  type Graph = map<Node, seq<Node>>

  function Children(g: Graph, p: Node): seq<Node> {
    if p in g then g[p] else []
  }

  ghost predicate Edge(g: Graph, p: Node, c: Node) {
    p in g && c in g[p]
  }

  ghost predicate Walk(g: Graph, w: seq<Node>) {
    w != [] && forall t | 0 <= t < |w| - 1 :: Edge(g, w[t], w[t + 1])
  }

  ghost predicate SimplePath(g: Graph, p: seq<Node>) {
    Walk(g, p) && NoDuplicates(p)
  }

  /** A simple path whose last node has an edge to its first. */
  ghost predicate SimpleCycle(g: Graph, c: seq<Node>) {
    SimplePath(g, c) && Edge(g, c[|c| - 1], c[0])
  }

  ghost predicate Reachable(g: Graph, a: Node, b: Node) {
    exists w :: Walk(g, w) && w[0] == a && w[|w| - 1] == b
  }

  lemma ReachSelf(g: Graph, a: Node)
    ensures Reachable(g, a, a)
  {
    assert Walk(g, [a]) && [a][0] == a;
  }

  lemma ReachTransitive(g: Graph, a: Node, b: Node, c: Node)
    requires Reachable(g, a, b) && Reachable(g, b, c)
    ensures Reachable(g, a, c)
  {
    var v :| Walk(g, v) && v[0] == a && v[|v| - 1] == b;
    var w :| Walk(g, w) && w[0] == b && w[|w| - 1] == c;
    var u := v + w[1..];
    assert Walk(g, u) && u[0] == a && u[|u| - 1] == c;
  }

  lemma ReachStep(g: Graph, p: seq<Node>, c: Node)
    requires Walk(g, p) && Edge(g, p[|p| - 1], c)
    ensures Reachable(g, p[0], c)
  {
    var w := p + [c];
    assert Walk(g, w) && w[0] == p[0] && w[|w| - 1] == c;
  }

  /** Cutting the detours out of a walk leaves a simple path with the same ends. */
  lemma {:induction false} Straighten(g: Graph, w: seq<Node>) returns (p: seq<Node>)
    requires Walk(g, w)
    ensures SimplePath(g, p) && p[0] == w[0] && p[|p| - 1] == w[|w| - 1]
  {
    if |w| == 1 {
      p := w;
    } else {
      var last := w[|w| - 1];
      assert Edge(g, w[|w| - 2], w[|w| - 2 + 1]);
      var q := Straighten(g, w[..|w| - 1]);
      if t :| 0 <= t < |q| && q[t] == last {
        p := q[..t + 1];
      } else {
        p := q + [last];
      }
    }
  }

  /** A reachable cycle is met by a simple path that touches it with its last node only. */
  lemma MeetCycle(g: Graph, a: Node, c: seq<Node>) returns (p: seq<Node>, k: nat)
    requires SimpleCycle(g, c) && Reachable(g, a, c[0])
    ensures SimplePath(g, p) && p[0] == a && k < |c| && p[|p| - 1] == c[k]
    ensures forall t | 0 <= t < |p| - 1 :: p[t] !in c
  {
    var w :| Walk(g, w) && w[0] == a && w[|w| - 1] == c[0];
    var q := Straighten(g, w);
    assert q[|q| - 1] in c;
    var t := 0;
    while q[t] !in c
      invariant t < |q| && forall s | 0 <= s < t :: q[s] !in c
      decreases |q| - t
    {
      t := t + 1;
    }
    p := q[..t + 1];
    k :| 0 <= k < |c| && c[k] == q[t];
  }

  lemma TurnedMembers(c: seq<Node>, k: nat)
    requires k <= |c|
    ensures forall x :: x in Turned(c, k) <==> x in c
  {
    assert c == c[..k] + c[k..];
  }

  lemma Successor(g: Graph, c: seq<Node>, u: nat)
    requires SimpleCycle(g, c) && u < |c|
    ensures Edge(g, c[u], c[if u + 1 < |c| then u + 1 else 0])
  {}

  /** Going once round a cycle after meeting it is a simple path. */
  lemma GoRound(g: Graph, p: seq<Node>, c: seq<Node>)
    requires SimplePath(g, p) && SimpleCycle(g, c) && p[|p| - 1] == c[0]
    requires forall t | 0 <= t < |p| - 1 :: p[t] !in c
    ensures SimplePath(g, p + c[1..]) && (p + c[1..])[|p| - 1..] == c
  {
    var q := p + c[1..];
    assert q[|p| - 1..] == c;
    forall t | 0 <= t < |q| - 1 ensures Edge(g, q[t], q[t + 1]) {
      if t >= |p| - 1 {
        assert q[t] == c[t - (|p| - 1)] && q[t + 1] == c[t - (|p| - 1) + 1];
      }
    }
    forall i, j | 0 <= i < j < |q| ensures q[i] != q[j] {
      if j >= |p| {
        assert q[j] == c[j - (|p| - 1)] && q[j] in c;
        if i >= |p| - 1 {
          assert q[i] == c[i - (|p| - 1)];
        }
      }
    }
  }

  /** The nodes of a graph. */
  function Nodes(g: Graph): set<Node> {
    g.Keys + set p, c | p in g && c in g[p] :: c
  }

  /** The size of the tree of simple continuations of the path `p` by at most `n` more nodes. */
  ghost function TreeSize(g: Graph, n: nat, p: seq<Node>): nat
    requires p != []
    decreases n, |Children(g, p[|p| - 1])| + 1
  {
    1 + BranchSizes(g, n, p, Children(g, p[|p| - 1]))
  }

  /** The sizes of its branches for those children in `cs` that are not on the path. */
  ghost function BranchSizes(g: Graph, n: nat, p: seq<Node>, cs: seq<Node>): nat
    requires p != []
    decreases n, |cs|
  {
    if n == 0 || cs == [] then 0
    else (if cs[0] in p then 0 else TreeSize(g, n - 1, p + [cs[0]])) + BranchSizes(g, n, p, cs[1..])
  }

  /** The work left on a stack of paths over `n` nodes. */
  ghost function Work(g: Graph, n: nat, paths: seq<seq<Node>>): nat
    requires forall p | p in paths :: p != [] && |p| <= n
  {
    if paths == [] then 0
    else
      var last := paths[|paths| - 1];
      assert last in paths;
      Work(g, n, paths[..|paths| - 1]) + TreeSize(g, n - |last|, last)
  }
}
