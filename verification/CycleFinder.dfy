/** The generator find_cycles of bindings/python/topsort.py, as the list of the cycles it yields. */
module CycleFinder {
  import opened Basics
  import opened Rotation
  import opened ParentGraph

  ghost predicate HasRotation(cycles: seq<seq<Node>>, c: seq<Node>) {
    exists i :: 0 <= i < |cycles| && Rotated(cycles[i], c)
  }

  /** Only simple cycles, and no two of them the same up to rotation. */
  ghost predicate Sound(g: Graph, cycles: seq<seq<Node>>) {
    && (forall i | 0 <= i < |cycles| :: SimpleCycle(g, cycles[i]))
    && (forall i, j | 0 <= i < j < |cycles| :: !Rotated(cycles[i], cycles[j]))
  }

  /** Every simple cycle within reach of `a` has been found. */
  ghost predicate Covers(g: Graph, cycles: seq<seq<Node>>, a: Node) {
    forall c: seq<Node> | SimpleCycle(g, c) && Reachable(g, a, c[0]) :: HasRotation(cycles, c)
  }

  lemma CoversReached(g: Graph, cycles: seq<seq<Node>>, a: Node, b: Node)
    requires Covers(g, cycles, a) && Reachable(g, a, b)
    ensures Covers(g, cycles, b)
  {
    forall c: seq<Node> | SimpleCycle(g, c) && Reachable(g, b, c[0]) ensures HasRotation(cycles, c) {
      ReachTransitive(g, a, b, c[0]);
    }
  }

  /** Every cycle that closes at the end of the path `p` has been found. */
  ghost predicate Handled(g: Graph, cycles: seq<seq<Node>>, p: seq<Node>) {
    p != [] && forall k | 0 <= k < |p| && Edge(g, p[|p| - 1], p[k]) :: HasRotation(cycles, p[k..])
  }

  /** All simple paths out of `a` are handled or continue a path on the stack or the path in hand. */
  ghost predicate Frontier(g: Graph, a: Node, cycles: seq<seq<Node>>, paths: seq<seq<Node>>, hand: seq<seq<Node>>) {
    forall q | SimplePath(g, q) && q[0] == a :: Waiting(g, cycles, paths, hand, q)
  }

  ghost predicate Waiting(g: Graph, cycles: seq<seq<Node>>, paths: seq<seq<Node>>, hand: seq<seq<Node>>, q: seq<Node>) {
    Handled(g, cycles, q) || Continues(paths, q) || Continues(hand, q)
  }

  ghost predicate Continues(paths: seq<seq<Node>>, q: seq<Node>) {
    exists i :: 0 <= i < |paths| && paths[i] <= q
  }

  /** With the stack empty, every cycle within reach has been found. */
  lemma AllFound(g: Graph, a: Node, cycles: seq<seq<Node>>)
    requires Frontier(g, a, cycles, [], [])
    ensures Covers(g, cycles, a)
  {
    forall c: seq<Node> | SimpleCycle(g, c) && Reachable(g, a, c[0]) ensures HasRotation(cycles, c) {
      var p, k := MeetCycle(g, a, c);
      TurnedMembers(c, k);
      GoneRound(g, a, cycles, p, Turned(c, k));
      FoundTurned(cycles, c, k);
    }
  }

  lemma GoneRound(g: Graph, a: Node, cycles: seq<seq<Node>>, p: seq<Node>, d: seq<Node>)
    requires Frontier(g, a, cycles, [], [])
    requires SimplePath(g, p) && p[0] == a && SimpleCycle(g, d) && p[|p| - 1] == d[0]
    requires forall t | 0 <= t < |p| - 1 :: p[t] !in d
    ensures HasRotation(cycles, d)
  {
    var q := p + d[1..];
    GoRound(g, p, d);
    assert Waiting(g, cycles, [], [], q);
    assert q[|p| - 1] == d[0] && q[|q| - 1] == d[|d| - 1];
  }

  lemma FoundTurned(cycles: seq<seq<Node>>, c: seq<Node>, k: nat)
    requires k <= |c| && HasRotation(cycles, Turned(c, k))
    ensures HasRotation(cycles, c)
  {
    var d := Turned(c, k);
    var i :| 0 <= i < |cycles| && Rotated(cycles[i], d);
    Symmetric(c, d);
    Transitive(cycles[i], d, c);
  }

  /** The inner loop that compares a cycle with those found before. */
  method IsDup(g: Graph, cycles: seq<seq<Node>>, cycle: seq<Node>) returns (dup: bool)
    requires Sound(g, cycles) && cycle != []
    ensures dup <==> HasRotation(cycles, cycle)
  {
    for i := 0 to |cycles|
      invariant forall j | 0 <= j < i :: !Rotated(cycles[j], cycle)
    {
      var r := IsRotated(cycles[i], cycle);
      if r == Known(true) {
        return true;
      }
    }
    return false;
  }

  function IndexOf(p: seq<Node>, x: Node): (k: nat)
    requires x in p
    ensures k < |p| && p[k] == x
  {
    if p[0] == x then 0 else 1 + IndexOf(p[1..], x)
  }

  lemma NewCycle(g: Graph, cycles: seq<seq<Node>>, c: seq<Node>)
    requires Sound(g, cycles) && SimpleCycle(g, c) && !HasRotation(cycles, c)
    ensures Sound(g, cycles + [c]) && HasRotation(cycles + [c], c)
  {
    Reflexive(c);
    var more := cycles + [c];
    assert Rotated(more[|cycles|], c);
  }

  /** Whatever the stack holds are simple paths out of `a`. */
  ghost predicate Stacked(g: Graph, a: Node, paths: seq<seq<Node>>) {
    forall p | p in paths :: SimplePath(g, p) && p[0] == a && |p| <= |Nodes(g)|
  }

  ghost predicate Marked(g: Graph, a: Node, before: set<Node>, visited: set<Node>) {
    forall v | v in visited :: v in before || Reachable(g, a, v)
  }

  /** The first `m` of the children `cs` of the path in hand have been looked at. */
  ghost predicate Branching(cycles: seq<seq<Node>>, paths: seq<seq<Node>>, path: seq<Node>, cs: seq<Node>, m: nat) {
    && m <= |cs|
    && (forall i, k | 0 <= i < m && 0 <= k < |path| && path[k] == cs[i] :: HasRotation(cycles, path[k..]))
    && (forall i | 0 <= i < m && cs[i] !in path :: path + [cs[i]] in paths)
  }

  /** A child on the path closes a cycle, which has been found by now. */
  lemma BranchCloses(cycles: seq<seq<Node>>, more: seq<seq<Node>>, paths: seq<seq<Node>>, path: seq<Node>,
                     cs: seq<Node>, m: nat)
    requires Branching(cycles, paths, path, cs, m) && m < |cs| && cs[m] in path && NoDuplicates(path)
    requires cycles <= more && HasRotation(more, path[IndexOf(path, cs[m])..])
    ensures Branching(more, paths, path, cs, m + 1)
  {
    forall i, k | 0 <= i < m + 1 && 0 <= k < |path| && path[k] == cs[i] ensures HasRotation(more, path[k..]) {
      if i < m {
      } else {
        assert k == IndexOf(path, cs[m]);
      }
    }
  }

  /** When all children have been looked at, the path in hand is handled and all its continuations are on the stack. */
  lemma Branched(g: Graph, a: Node, cycles: seq<seq<Node>>, more: seq<seq<Node>>, rest: seq<seq<Node>>,
                 paths: seq<seq<Node>>, path: seq<Node>)
    requires SimplePath(g, path) && Frontier(g, a, cycles, rest, [path]) && cycles <= more && rest <= paths
    requires Branching(more, paths, path, Children(g, path[|path| - 1]), |Children(g, path[|path| - 1])|)
    ensures Frontier(g, a, more, paths, [])
  {
    forall q: seq<Node> | SimplePath(g, q) && q[0] == a ensures Waiting(g, more, paths, [], q) {
      assert Waiting(g, cycles, rest, [path], q);
      if Handled(g, cycles, q) {
      } else if Continues(rest, q) {
        var i :| 0 <= i < |rest| && rest[i] <= q;
        assert paths[i] <= q;
      } else {
        ContinuedOrHandled(g, more, paths, path, q);
      }
    }
  }

  lemma ContinuedOrHandled(g: Graph, cycles: seq<seq<Node>>, paths: seq<seq<Node>>, path: seq<Node>, q: seq<Node>)
    requires SimplePath(g, path) && SimplePath(g, q) && path <= q
    requires Branching(cycles, paths, path, Children(g, path[|path| - 1]), |Children(g, path[|path| - 1])|)
    ensures Waiting(g, cycles, paths, [], q)
  {
    var cs := Children(g, path[|path| - 1]);
    if q == path {
      forall k | 0 <= k < |q| && Edge(g, q[|q| - 1], q[k]) ensures HasRotation(cycles, q[k..]) {
        var i :| 0 <= i < |cs| && cs[i] == q[k];
      }
    } else {
      var c := q[|path|];
      assert Edge(g, q[|path| - 1], q[|path| - 1 + 1]);
      var i :| 0 <= i < |cs| && cs[i] == c;
      var j :| 0 <= j < |paths| && paths[j] == path + [c];
      assert paths[j] <= q;
    }
  }

  /** A child off the path has room for one more node, and its subtree is taken out of the branches to come. */
  lemma BranchGrows(g: Graph, a: Node, paths: seq<seq<Node>>, path: seq<Node>, child: Node)
    requires Stacked(g, a, paths) && SimplePath(g, path) && path[0] == a && Edge(g, path[|path| - 1], child)
      && child !in path
    ensures |path| < |Nodes(g)| && Stacked(g, a, paths + [path + [child]])
    ensures Work(g, |Nodes(g)|, paths + [path + [child]]) == Work(g, |Nodes(g)|, paths) + TreeSize(g,
        |Nodes(g)| - |path| - 1, path + [child])
  {
    Longer(g, path, child);
    var more := paths + [path + [child]];
    assert more[..|more| - 1] == paths;
  }

  lemma Longer(g: Graph, path: seq<Node>, child: Node)
    requires SimplePath(g, path) && Edge(g, path[|path| - 1], child) && child !in path
    ensures SimplePath(g, path + [child]) && |path + [child]| <= |Nodes(g)|
  {
    var longer := path + [child];
    assert Walk(g, longer);
    forall t | 0 <= t < |longer| ensures longer[t] in Nodes(g) {
      InNodes(g, longer, t);
    }
    NoDuplicatesFit(longer, Nodes(g));
  }

  lemma InNodes(g: Graph, p: seq<Node>, t: nat)
    requires Walk(g, p) && |p| > 1 && t < |p|
    ensures p[t] in Nodes(g)
  {
    if t < |p| - 1 {
      assert Edge(g, p[t], p[t + 1]);
    } else {
      assert Edge(g, p[t - 1], p[t - 1 + 1]);
    }
  }

  /** What the loop over the children of the path in hand keeps true. */
  ghost predicate Expanding(g: Graph, a: Node, before: set<Node>, cycles0: seq<seq<Node>>, rest: seq<seq<Node>>,
                            path: seq<Node>, m: nat,
                            cycles: seq<seq<Node>>, paths: seq<seq<Node>>, visited: set<Node>)
  {
    && SimplePath(g, path) && path[0] == a && |path| <= |Nodes(g)|
    && Sound(g, cycles) && cycles0 <= cycles
    && Stacked(g, a, rest) && Stacked(g, a, paths) && rest <= paths
    && Marked(g, a, before, visited)
    && var cs, n := Children(g, path[|path| - 1]), |Nodes(g)|;
    && Branching(cycles, paths, path, cs, m)
    && Work(g, n, paths) + BranchSizes(g, n - |path|, path, cs[m..]) == Work(g, n, rest) + BranchSizes(g, n - |path|,
        path, cs)
  }

  /** The child is on the path: the cycle it closes is yielded unless a rotation of it has been. */
  method Close(g: Graph, cycles: seq<seq<Node>>, path: seq<Node>, child: Node) returns (cycles': seq<seq<Node>>)
    requires Sound(g, cycles) && SimplePath(g, path) && Edge(g, path[|path| - 1], child) && child in path
    ensures Sound(g, cycles') && cycles <= cycles' && HasRotation(cycles', path[IndexOf(path, child)..])
  {
    cycles' := cycles;
    var cycle := path[IndexOf(path, child)..];
    var isDup := IsDup(g, cycles, cycle);
    if !isDup {
      NewCycle(g, cycles, cycle);
      cycles' := cycles + [cycle];
    }
  }

  /** The child is not on the path: the longer path goes on the stack. */
  lemma GrowsOn(g: Graph, a: Node, before: set<Node>, cycles0: seq<seq<Node>>, rest: seq<seq<Node>>, path: seq<Node>,
                m: nat,
                cycles: seq<seq<Node>>, paths: seq<seq<Node>>, visited: set<Node>)
    requires Expanding(g, a, before, cycles0, rest, path, m, cycles, paths, visited)
    requires m < |Children(g, path[|path| - 1])| && Children(g, path[|path| - 1])[m] !in path
    ensures var child := Children(g, path[|path| - 1])[m];
      Expanding(g, a, before, cycles0, rest, path, m + 1, cycles, paths + [path + [child]], visited + {child})
  {
    var cs := Children(g, path[|path| - 1]);
    var child := cs[m];
    assert Edge(g, path[|path| - 1], child);
    assert cs[m..][0] == child && cs[m..][1..] == cs[m + 1..];
    BranchGrows(g, a, paths, path, child);
    ReachStep(g, path, child);
    assert (paths + [path + [child]])[|paths|] == path + [child];
  }

  /** One turn of that loop: the child closes a cycle, to be yielded unless it is known, or lengthens the path. */
  method Look(g: Graph, ghost a: Node, ghost before: set<Node>, ghost cycles0: seq<seq<Node>>,
              ghost rest: seq<seq<Node>>, path: seq<Node>, m: nat,
              cycles: seq<seq<Node>>, paths: seq<seq<Node>>, visited: set<Node>)
    returns (cycles': seq<seq<Node>>, paths': seq<seq<Node>>, visited': set<Node>)
    requires Expanding(g, a, before, cycles0, rest, path, m, cycles, paths, visited)
      && m < |Children(g, path[|path| - 1])|
    ensures visited <= visited' && Expanding(g, a, before, cycles0, rest, path, m + 1, cycles', paths', visited')
  {
    cycles', paths', visited' := cycles, paths, visited;
    var cs := Children(g, path[|path| - 1]);
    var child := cs[m];
    assert Edge(g, path[|path| - 1], child);
    assert cs[m..][0] == child && cs[m..][1..] == cs[m + 1..];
    if child in path {
      cycles' := Close(g, cycles, path, child);
      BranchCloses(cycles, cycles', paths, path, cs, m);
    } else {
      GrowsOn(g, a, before, cycles0, rest, path, m, cycles, paths, visited);
      paths' := paths + [path + [child]];
      visited' := visited + {child};
    }
  }

  /** Taking the last path off the stack into the hand. */
  lemma Popped(g: Graph, a: Node, cycles: seq<seq<Node>>, paths: seq<seq<Node>>)
    requires paths != [] && Stacked(g, a, paths) && Frontier(g, a, cycles, paths, [])
    ensures var path, rest := paths[|paths| - 1], paths[..|paths| - 1];
      && SimplePath(g, path) && path[0] == a && |path| <= |Nodes(g)|
      && Stacked(g, a, rest) && Frontier(g, a, cycles, rest, [path])
      && Work(g, |Nodes(g)|, paths) == Work(g, |Nodes(g)|, rest) + TreeSize(g, |Nodes(g)| - |path|, path)
  {
    var path, rest := paths[|paths| - 1], paths[..|paths| - 1];
    assert path in paths;
    forall q: seq<Node> | SimplePath(g, q) && q[0] == a ensures Waiting(g, cycles, rest, [path], q) {
      assert Waiting(g, cycles, paths, [], q);
      if i :| 0 <= i < |paths| && paths[i] <= q {
        if i < |paths| - 1 {
          assert rest[i] <= q;
        } else {
          assert [path][0] <= q;
        }
      }
    }
  }

  /** The while loop over the stack of paths, started with the path of one node. */
  method Explore(g: Graph, a: Node, cycles0: seq<seq<Node>>, before: set<Node>)
    returns (cycles: seq<seq<Node>>, visited: set<Node>)
    requires a in g && Sound(g, cycles0)
    ensures Sound(g, cycles) && cycles0 <= cycles && Covers(g, cycles, a)
    ensures before <= visited && Marked(g, a, before, visited)
  {
    cycles, visited := cycles0, before;
    var paths := [[a]];
    ghost var n := |Nodes(g)|;
    while paths != []
      invariant Sound(g, cycles) && cycles0 <= cycles && before <= visited
      invariant Stacked(g, a, paths) && Marked(g, a, before, visited) && Frontier(g, a, cycles, paths, [])
      decreases Work(g, n, paths)
    {
      var path := paths[|paths| - 1];
      var rest := paths[..|paths| - 1];
      Popped(g, a, cycles, paths);
      paths := rest;
      var cs := Children(g, path[|path| - 1]);
      ghost var known := cycles;
      for m := 0 to |cs|
        invariant before <= visited
        invariant Expanding(g, a, before, known, rest, path, m, cycles, paths, visited)
      {
        cycles, paths, visited := Look(g, a, before, known, rest, path, m, cycles, paths, visited);
      }
      Branched(g, a, known, cycles, rest, paths, path);
    }
    AllFound(g, a, cycles);
  }

  /** The cycles yielded are simple, no two are rotations of each other, and every simple cycle is among them up to
      rotation. */
  method FindCycles(g: Graph) returns (cycles: seq<seq<Node>>)
    ensures forall i | 0 <= i < |cycles| :: SimpleCycle(g, cycles[i])
    ensures forall i, j | 0 <= i < |cycles| && 0 <= j < |cycles| && Rotated(cycles[i], cycles[j]) :: i == j
    ensures forall c | SimpleCycle(g, c) :: HasRotation(cycles, c)
  {
    cycles := [];
    var visited: set<Node> := {};
    var rest := g.Keys;
    while rest != {}
      invariant rest <= g.Keys && Sound(g, cycles)
      invariant forall v | v in visited || v in g.Keys - rest :: Covers(g, cycles, v)
    {
      var parent :| parent in rest;
      rest := rest - {parent};
      if parent !in visited {
        ghost var known, seen := cycles, visited;
        cycles, visited := Explore(g, parent, cycles, visited);
        AllCovered(g, parent, known, cycles, seen + (g.Keys - rest), visited);
      }
    }
    forall c: seq<Node> | SimpleCycle(g, c) ensures HasRotation(cycles, c) {
      Successor(g, c, 0);
      ReachSelf(g, c[0]);
      assert c[0] in g && Covers(g, cycles, c[0]);
    }
    forall i, j | 0 <= i < |cycles| && 0 <= j < |cycles| && Rotated(cycles[i], cycles[j]) ensures i == j {
      Symmetric(cycles[i], cycles[j]);
    }
  }

  /** Nodes seen on the way from `a` are covered because `a` is, those seen before stay covered. */
  lemma AllCovered(g: Graph, a: Node, known: seq<seq<Node>>, cycles: seq<seq<Node>>, seen: set<Node>,
                   visited: set<Node>)
    requires known <= cycles && Covers(g, cycles, a)
    requires forall v | v in seen && v != a :: Covers(g, known, v)
    requires Marked(g, a, seen, visited)
    ensures forall v | v in visited || v in seen :: Covers(g, cycles, v)
  {
    forall v | v in visited || v in seen ensures Covers(g, cycles, v) {
      if v in seen && v != a {
      } else if v != a {
        CoversReached(g, cycles, a, v);
      }
    }
  }

  /** For any simple cycle exactly one of the yielded cycles is a rotation of it. */
  lemma ExactlyOne(g: Graph, cycles: seq<seq<Node>>, c: seq<Node>) returns (i: nat)
    requires forall i, j | 0 <= i < |cycles| && 0 <= j < |cycles| && Rotated(cycles[i], cycles[j]) :: i == j
    requires HasRotation(cycles, c)
    ensures i < |cycles| && forall j | 0 <= j < |cycles| :: Rotated(cycles[j], c) <==> j == i
  {
    i :| 0 <= i < |cycles| && Rotated(cycles[i], c);
    forall j | 0 <= j < |cycles| && Rotated(cycles[j], c) ensures j == i {
      Symmetric(cycles[i], c);
      Transitive(cycles[j], c, cycles[i]);
    }
  }
}
