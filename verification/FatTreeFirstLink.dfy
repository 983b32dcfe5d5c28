/** The search for first links on a generated fat-tree: it is never led astray, and agrees with the next hops of the
    routing. */
module FatTreeFirstLink {
  import opened Basics
  import opened Floyd
  import opened FloydPaths
  import opened HopChase
  import opened LinkGraph
  import opened MatrixLoading
  import opened FatTreeShape
  import opened FatTreeRouting
  import FatTreeLoading
  import Division
  import FatTree

  /** The path that takes at each node the step towards host `b`. */
  lemma {:induction false} DownTo(s: FatTree.Shape, bw: nat, dl: nat, b: nat, v: nat) returns (p: seq<nat>)
    requires s.h > 0 && b < s.Hosts() && v < End(s)
    ensures LinkPath(FatTree.Links(s, bw, dl), End(s), v, b, p) && |p| - 1 == Hops(s, b, v)
    decreases Hops(s, b, v)
  {
    if v == b {
      p := [v];
    } else {
      StepCloser(s, b, v);
      var u := Step(s, b, v);
      var q := DownTo(s, bw, dl, b, u);
      FatTreeLoading.BetweenJoined(s, bw, dl, v, u);
      p := [v] + q;
    }
  }

  lemma Back(links: seq<FatTree.Link>, count: nat, i: nat, x: nat, p: seq<nat>) returns (q: seq<nat>)
    requires LinkPath(links, count, i, x, p)
    ensures LinkPath(links, count, x, i, q)
  {
    q := seq(|p|, t requires 0 <= t < |p| => p[|p| - 1 - t]);
    forall t | 0 <= t < |q| - 1 ensures LinkBetween(links, |links|, q[t], q[t + 1]) {
      assert q[t] == p[|p| - 2 - t + 1];
      TurnedBetween(links, p[|p| - 2 - t], q[t]);
    }
  }

  lemma TurnedBetween(links: seq<FatTree.Link>, a: nat, b: nat)
    requires LinkBetween(links, |links|, a, b)
    ensures LinkBetween(links, |links|, b, a)
  {
    var i :| 0 <= i < |links| && Joins(links[i], a, b);
    assert Joins(links[i], b, a);
  }

  /** Every node of a generated fat-tree can be reached from every other. */
  lemma TreeConnected(s: FatTree.Shape, bw: nat, dl: nat, i: nat)
    requires s.h > 0 && s.Hosts() > 0 && i < End(s)
    ensures Connected(FatTree.Links(s, bw, dl), End(s), i)
  {
    var links := FatTree.Links(s, bw, dl);
    var p := DownTo(s, bw, dl, 0, i);
    forall x: nat | x < End(s) ensures Joinable(links, End(s), i, x) {
      var q := DownTo(s, bw, dl, 0, x);
      var r := Back(links, End(s), x, 0, q);
      assert LinkPath(links, End(s), i, x, p + r[1..]);
    }
  }

  /** The sending times read from the file: `t` between joined nodes, the sentinel between others. */
  ghost predicate Uniform(s: FatTree.Shape, w: Matrix, t: nat)
    requires s.h > 0
  {
    && Weights(w) && |w| == End(s) && t < INF
    && forall u: nat, v: nat | u < End(s) && v < End(s) && u != v ::
      w[u][v] == if Joined(s, u, v) || Joined(s, v, u) then t else INF
  }

  lemma TreeUniform(s: FatTree.Shape, bw: nat, dl: nat, mtu: nat, m: Matrices)
    requires s.h > 0 && 0 < bw && mtu * 8 / bw < INF && Weights(m.td)
    requires Filled(m, FatTree.Links(s, bw, dl), |FatTree.Links(s, bw, dl)|, End(s), mtu)
    ensures Uniform(s, m.td, mtu * 8 / bw)
  {
    var links := FatTree.Links(s, bw, dl);
    LinksExact(s, bw, dl);
    forall u: nat, v: nat | u < End(s) && v < End(s) && u != v
      ensures m.td[u][v] == if Joined(s, u, v) || Joined(s, v, u) then mtu * 8 / bw else INF {
      FatTreeLoading.BetweenJoined(s, bw, dl, u, v);
      assert FilledAt(m, links, |links|, mtu, u, v);
      var k := LastLine(links, |links|, u, v);
      if k.Some? {
        assert links[k.value] in links;
      }
    }
  }

  /** The sending time of a packet over as many links as there are hops from `v` to host `b`. */
  ghost function Time(s: FatTree.Shape, t: nat, b: nat, v: nat): nat
    requires s.h > 0
  {
    Hops(s, b, v) * t
  }

  lemma OneLinkTime(s: FatTree.Shape, t: nat, b: nat, x: nat, u: nat)
    requires s.h > 0 && (Joined(s, x, u) || Joined(s, u, x))
    ensures Time(s, t, b, u) <= Time(s, t, b, x) + t
  {
    OneLink(s, b, x, u);
    var far, near := Hops(s, b, u), Hops(s, b, x);
    Division.MulMonotone(far, near + 1, t);
    assert (near + 1) * t == near * t + t;
  }

  /** A walk saves no more time than the hops it gets closer. */
  lemma {:induction false} WalkTime(s: FatTree.Shape, w: Matrix, t: nat, b: nat, p: seq<nat>)
    requires s.h > 0 && Uniform(s, w, t) && p != [] && LinkWalk(w, p[0], Last(p), p)
    ensures Time(s, t, b, p[0]) <= Time(s, t, b, Last(p)) + Weight(w, p)
  {
    if |p| > 1 {
      var u, x := p[|p| - 2], Last(p);
      WalkTime(s, w, t, b, p[..|p| - 1]);
      assert w[p[|p| - 2]][p[|p| - 2 + 1]] < INF;
      if u != x {
        OneLinkTime(s, t, b, x, u);
      }
    }
  }

  /** Taking the steps towards a host takes the sending time of a link for each hop. */
  lemma StepsTime(s: FatTree.Shape, bw: nat, dl: nat, w: Matrix, t: nat, b: nat, v: nat)
    requires s.h > 0 && Uniform(s, w, t) && b < s.Hosts() && v < End(s)
    ensures Dist(w, |w|, v, b) <= Time(s, t, b, v)
  {
    var q := DownTo(s, bw, dl, b, v);
    forall i: nat | i < |q| - 1 ensures w[q[i]][q[i + 1]] <= t {
      FatTreeLoading.BetweenJoined(s, bw, dl, q[i], q[i + 1]);
    }
    WeightBound(w, q, t);
    assert LinkWalk(w, v, b, q);
    Exact(w, v, b);
  }

  /** All-pairs shortest paths and breadth-first search agree: the least sending time to a host is the number of hops
      times the sending time of a link. */
  lemma LeastTime(s: FatTree.Shape, bw: nat, dl: nat, w: Matrix, t: nat, b: nat, v: nat)
    requires s.h > 0 && Uniform(s, w, t) && b < s.Hosts() && v < End(s) && Dist(w, |w|, v, b) < INF
    ensures Dist(w, |w|, v, b) == Time(s, t, b, v)
  {
    StepsTime(s, bw, dl, w, t, b, v);
    Exact(w, v, b);
    var p :| LinkWalk(w, v, b, p) && Weight(w, p) == Dist(w, |w|, v, b);
    WalkTime(s, w, t, b, p);
    assert Time(s, t, b, b) == 0;
  }

  /** A neighbour on a walk of least sending time to a host is one hop closer, and packets may pass through it. */
  lemma OnLightestCloser(s: FatTree.Shape, bw: nat, dl: nat, w: Matrix, t: nat, i: nat, hop: nat, b: nat)
    requires s.h > 0 && Uniform(s, w, t) && t > 0 && b < s.Hosts() && i < End(s) && hop < End(s) && i != b
    requires Dist(w, |w|, i, b) < INF && OnLightest(w, i, hop, b)
    requires Joined(s, i, hop) || Joined(s, hop, i)
    ensures CloserNeighbour(s, b, i, hop)
  {
    HopDiffers(s, i, hop);
    HopDiffers(s, hop, i);
    DistBounds(w, |w|, i, hop);
    Apart(w, |w|, i, hop, t);
    LeastTime(s, bw, dl, w, t, b, i);
    LeastTime(s, bw, dl, w, t, b, hop);
    HopsMatch(t, Hops(s, b, i), Hops(s, b, hop));
    OnlySwitchesCloser(s, b, i, hop);
  }

  lemma HopDiffers(s: FatTree.Shape, u: nat, v: nat)
    requires s.h > 0
    ensures Joined(s, u, v) ==> u != v
  {
    if Joined(s, u, v) {
      Upward(s, u, v);
    }
  }

  lemma HopsMatch(t: nat, a: nat, b: nat)
    requires t > 0 && t + b * t == a * t
    ensures b + 1 == a
  {
    assert (b + 2) * t == b * t + 2 * t;
    if b + 1 < a {
      Division.MulMonotone(b + 2, a, t);
    } else if a < b + 1 {
      Division.MulMonotone(a, b, t);
    }
  }

  lemma OnlySwitchesCloser(s: FatTree.Shape, b: nat, v: nat, m: nat)
    requires s.h > 0 && b < s.Hosts() && m < End(s) && Hops(s, b, m) + 1 == Hops(s, b, v)
    requires Joined(s, m, v) || Joined(s, v, m)
    ensures m == b || m in Switches(s)
  {
    HostLinksUp(s, m, v);
    HostLinksUp(s, v, m);
  }

  /** What is found on the tree `s`: a neighbour on a walk of least sending time; towards a host, one of the equal-cost
      next hops that the routing lists. */
  ghost predicate RightNeighbour(s: FatTree.Shape, m: Matrices, i: nat, j: nat, hop: nat, t: nat)
    requires s.h > 0
  {
    && Square(m.td) && |m.td| == End(s) && i < End(s) && j < End(s) && hop < End(s)
    && (Joined(s, i, hop) || Joined(s, hop, i)) && OnLightest(m.td, i, hop, j)
    && (j < s.Hosts() && t > 0 ==> CloserNeighbour(s, j, i, hop))
  }

  /** Generating a fat-tree, loading its matrices, both passes and the search: it always ends at a right neighbour. */
  method GenerateAndFindLink(k: nat, bw: nat, dl: nat, mtu: nat, i: nat, j: nat)
    returns (ghost m: Matrices, link: nat, hop: nat)
    requires k >= 2 && k % 2 == 0 && 0 < bw < INF && dl < INF
    requires InRange(FatTree.Shape(k, k / 2), mtu * 8 / bw, i, j)
    ensures RightNeighbour(FatTree.Shape(k, k / 2), m, i, j, hop, mtu * 8 / bw) && link == bw
    ensures var file := FatTree.Topology(FatTree.Shape(k, k / 2), bw, dl);
      Filled(m, file.links, |file.links|, file.header.nodes, mtu)
  {
    ghost var s := FatTree.Shape(k, k / 2);
    var written := FatTree.Nested(k, bw, dl);
    var file := written.file;
    TreeReady(s, bw, dl, mtu, i, j);
    m, link, hop := LoadAndFindFastest(file.header.nodes, file.links, mtu, i, j);
    NeighbourFound(s, bw, dl, mtu, m, i, j, hop);
  }

  /** Two nodes of the tree, and sending times small enough for the sentinel. */
  ghost predicate InRange(s: FatTree.Shape, t: nat, i: nat, j: nat) {
    i < End(s) && j < End(s) && i != j && End(s) <= INF && End(s) * t < INF
  }

  /** What the passes and the search ask for of a file. */
  lemma TreeReady(s: FatTree.Shape, bw: nat, dl: nat, mtu: nat, i: nat, j: nat)
    requires s.h > 0 && s.p > 0 && 0 < bw < INF && dl < INF && InRange(s, mtu * 8 / bw, i, j)
    ensures var file := FatTree.Topology(s, bw, dl);
      Searchable(file.links, file.header.nodes, mtu, i) && EqualDelays(file.links) && j < file.header.nodes
    ensures forall l | l in FatTree.Topology(s, bw, dl).links :: l.bw == bw
  {
    assert s.Edges() > 0;
    assert s.Hosts() > 0;
    Division.MulMonotone(1, End(s), mtu * 8 / bw);
    LinksExact(s, bw, dl);
    TreeConnected(s, bw, dl, i);
    var file := FatTree.Topology(s, bw, dl);
    assert SearchableWithin(file.links, file.header.nodes, mtu, i, mtu * 8 / bw);
  }

  lemma NeighbourFound(s: FatTree.Shape, bw: nat, dl: nat, mtu: nat, m: Matrices, i: nat, j: nat, hop: nat)
    requires s.h > 0 && s.p > 0 && 0 < bw < INF && dl < INF && InRange(s, mtu * 8 / bw, i, j) && Weights(m.td)
    requires var file := FatTree.Topology(s, bw, dl);
      && Filled(m, file.links, |file.links|, file.header.nodes, mtu)
      && hop < file.header.nodes && LastLine(file.links, |file.links|, i, hop).Some?
    requires i < |m.td| && j < |m.td| && hop < |m.td| && OnLightest(m.td, i, hop, j)
    ensures RightNeighbour(s, m, i, j, hop, mtu * 8 / bw)
  {
    var links, t := FatTree.Links(s, bw, dl), mtu * 8 / bw;
    TreeReady(s, bw, dl, mtu, i, j);
    FatTreeLoading.BetweenJoined(s, bw, dl, i, hop);
    if j < s.Hosts() && t > 0 {
      TreeUniform(s, bw, dl, mtu, m);
      LinksExact(s, bw, dl);
      TreeConnected(s, bw, dl, i);
      Division.MulMonotone(1, End(s), t);
      ConnectedReaches(m, links, End(s), mtu, i, t);
      Finite(m.td, i, j);
      OnLightestCloser(s, bw, dl, m.td, t, i, hop, j);
    }
  }
}
