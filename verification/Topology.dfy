/** The graph that the simulator keeps in `nbr2if`, the paths a packet may take
    through it, and what it means for hop distances and next hops to be right. */
module Topology {
  import opened Basics

  datatype Interface = Interface(idx: nat, up: bool, delay: nat, bw: nat)

  /** nbr2if[a][b] is the interface of `a` on its link to `b`. */
  type Links = map<nat, map<nat, Interface>>

  predicate Up(nbr: Links, a: nat, b: nat) {
    a in nbr && b in nbr[a] && nbr[a][b].up
  }

  function Neighbours(nbr: Links, a: nat): set<nat> {
    if a in nbr then nbr[a].Keys else {}
  }

  ghost predicate Symmetric(nbr: Links) {
    forall a, b :: Up(nbr, a, b) <==> Up(nbr, b, a)
  }

  /** Every link joins two of the given nodes and has a rate. */
  ghost predicate WellFormed(nbr: Links, nodes: set<nat>) {
    && (forall a, b | Up(nbr, a, b) :: a in nodes && b in nodes && nbr[a][b].bw > 0)
  }

  /** The ports of a node are numbered apart. */
  ghost predicate PortsApart(nbr: Links) {
    forall a, b, c | a in nbr && b in nbr[a] && c in nbr[a] && nbr[a][b].idx == nbr[a][c].idx :: b == c
  }

  /** A path of up links that leaves `root` and crosses only switches on its way. */
  ghost predicate Route(nbr: Links, switches: set<nat>, root: nat, p: seq<nat>) {
    && p != [] && p[0] == root
    && (forall i | 0 <= i < |p| - 1 :: Up(nbr, p[i], p[i + 1]))
    && (forall i | 0 < i < |p| - 1 :: p[i] in switches)
  }

  /** `dis` holds exactly the nodes some route reaches, each with the length of its shortest routes. */
  ghost predicate Distances(nbr: Links, switches: set<nat>, root: nat, dis: map<nat, nat>) {
    && (forall p | Route(nbr, switches, root, p) :: Last(p) in dis && dis[Last(p)] <= |p| - 1)
    && (forall n | n in dis :: exists p :: Route(nbr, switches, root, p) && Last(p) == n && |p| - 1 == dis[n])
  }

  /** Packets may pass through `m` on their way to `root`. */
  predicate Expanded(switches: set<nat>, root: nat, dis: map<nat, nat>, m: nat) {
    m in dis && (m == root || m in switches)
  }

  predicate OneCloser(nbr: Links, dis: map<nat, nat>, m: nat, n: nat) {
    m in dis && n in dis && Up(nbr, m, n) && dis[m] + 1 == dis[n]
  }

  /** `hops` lists, each once, the expanded neighbours of `n` that are one hop closer to `root`. */
  ghost predicate ExactHops(nbr: Links, switches: set<nat>, root: nat, dis: map<nat, nat>, n: nat, hops: seq<nat>) {
    && NoDuplicates(hops)
    && (forall m :: m in hops <==> Expanded(switches, root, dis, m) && OneCloser(nbr, dis, m, n))
  }

  lemma DistancesUnique(nbr: Links, switches: set<nat>, root: nat, dis: map<nat, nat>, dis': map<nat, nat>)
    requires Distances(nbr, switches, root, dis) && Distances(nbr, switches, root, dis')
    ensures dis == dis'
  {
    Shorter(nbr, nbr, switches, root, dis, dis');
    Shorter(nbr, nbr, switches, root, dis', dis);
  }

  /** Taking links away never brings a node closer and never makes a new node reachable. */
  lemma Shorter(nbr: Links, fewer: Links, switches: set<nat>, root: nat, dis: map<nat, nat>, dis': map<nat, nat>)
    requires forall a, b | Up(fewer, a, b) :: Up(nbr, a, b)
    requires Distances(nbr, switches, root, dis) && Distances(fewer, switches, root, dis')
    ensures forall n | n in dis' :: n in dis && dis[n] <= dis'[n]
  {
    forall n | n in dis' ensures n in dis && dis[n] <= dis'[n] {
      var p :| Route(fewer, switches, root, p) && Last(p) == n && |p| - 1 == dis'[n];
      assert Route(nbr, switches, root, p);
    }
  }

  /** A route to `n` ends in an up link from an expanded node, so distances grow by at most one per link. */
  lemma Relaxed(nbr: Links, switches: set<nat>, root: nat, dis: map<nat, nat>, m: nat, n: nat)
    requires Distances(nbr, switches, root, dis)
    requires Expanded(switches, root, dis, m) && Up(nbr, m, n)
    ensures n in dis && dis[n] <= dis[m] + 1
  {
    var p :| Route(nbr, switches, root, p) && Last(p) == m && |p| - 1 == dis[m];
    if m == root {
      assert Route(nbr, switches, root, [m, n]);
      assert Last([m, n]) == n;
      assert Route(nbr, switches, root, [root]);
      assert Last([root]) == root;
    } else {
      assert Route(nbr, switches, root, p + [n]);
      assert Last(p + [n]) == n;
    }
  }

  lemma RootAtZero(nbr: Links, switches: set<nat>, root: nat, dis: map<nat, nat>)
    requires Distances(nbr, switches, root, dis)
    ensures root in dis && dis[root] == 0
    ensures forall n | n in dis && dis[n] == 0 :: n == root
  {
    assert Route(nbr, switches, root, [root]);
    assert Last([root]) == root;
    forall n | n in dis && dis[n] == 0 ensures n == root {
      var p :| Route(nbr, switches, root, p) && Last(p) == n && |p| - 1 == dis[n];
    }
  }

  /** Every routed node but the root has a neighbour one hop closer that packets may pass through. */
  lemma HasCloser(nbr: Links, switches: set<nat>, root: nat, dis: map<nat, nat>, n: nat) returns (m: nat)
    requires Distances(nbr, switches, root, dis)
    requires n in dis && n != root
    ensures Expanded(switches, root, dis, m) && OneCloser(nbr, dis, m, n)
  {
    var p :| Route(nbr, switches, root, p) && Last(p) == n && |p| - 1 == dis[n];
    var q := p[..|p| - 1];
    m := Last(q);
    assert Route(nbr, switches, root, q);
    assert Up(nbr, p[|p| - 2], p[|p| - 1]);
    Relaxed(nbr, switches, root, dis, m, n);
  }
}
