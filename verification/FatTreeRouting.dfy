/** How far apart the nodes of a generated fat-tree are for the routing of scratch/third.cc. */
module FatTreeRouting {
  import opened Basics
  import opened Division
  import opened FatTree
  import opened FatTreeShape
  import opened T = Topology

  /** The links that are up are those of the fat-tree, in both directions. */
  ghost predicate Carries(nbr: T.Links, s: Shape)
    requires s.h > 0
  {
    forall a: nat, b: nat :: Up(nbr, a, b) <==> Joined(s, a, b) || Joined(s, b, a)
  }

  function Switches(s: Shape): set<nat> {
    Range(0, End(s)) - Range(0, EdgeBase(s))
  }

  /** The edge switch and the pod a host belongs to. */
  function EdgeOf(s: Shape, t: nat): nat
    requires s.h > 0
  {
    Quot(t, s.h)
  }

  function PodOf(s: Shape, e: nat): nat
    requires s.h > 0
  {
    Quot(e, s.h)
  }

  /** The number of hops from node `v` to host `b`. */
  function Hops(s: Shape, b: nat, v: nat): nat
    requires s.h > 0
  {
    var e := EdgeOf(s, b);
    if v < EdgeBase(s) then
      if v == b then 0 else if EdgeOf(s, v) == e then 2 else if PodOf(s, EdgeOf(s, v)) == PodOf(s, e) then 4 else 6
    else if v < AggBase(s) then
      if v - EdgeBase(s) == e then 1 else if PodOf(s, v - EdgeBase(s)) == PodOf(s, e) then 3 else 5
    else if v < CoreBase(s) then
      if PodOf(s, v - AggBase(s)) == PodOf(s, e) then 2 else 4
    else 3
  }

  /** One link brings a packet at most one hop closer. */
  lemma OneLink(s: Shape, b: nat, u: nat, v: nat)
    requires s.h > 0 && (Joined(s, u, v) || Joined(s, v, u))
    ensures Hops(s, b, v) <= Hops(s, b, u) + 1
  {
    HostLinksUp(s, u, v);
    HostLinksUp(s, v, u);
  }

  lemma HostLinksUp(s: Shape, u: nat, v: nat)
    requires s.h > 0
    ensures Joined(s, u, v) && u < EdgeBase(s) ==> v < AggBase(s)
  {
    QuotBelow(u, s.Edges(), s.h);
  }

  /** A neighbour of `v` that is one hop closer to host `b`. */
  function Step(s: Shape, b: nat, v: nat): nat
    requires s.h > 0
  {
    var e := EdgeOf(s, b);
    if v < EdgeBase(s) then EdgeBase(s) + EdgeOf(s, v)
    else if v < AggBase(s) then
      if v - EdgeBase(s) == e then b else AggBase(s) + Slot(PodOf(s, v - EdgeBase(s)), s.h, 0)
    else if v < CoreBase(s) then
      if PodOf(s, v - AggBase(s)) == PodOf(s, e) then EdgeBase(s) + e
        else CoreBase(s) + Slot(Rem(v - AggBase(s), s.h), s.h, 0)
    else AggBase(s) + Slot(PodOf(s, e), s.h, Quot(v - CoreBase(s), s.h))
  }

  ghost predicate Closer(s: Shape, b: nat, v: nat, u: nat)
    requires s.h > 0
  {
    && (Joined(s, u, v) || Joined(s, v, u))
    && Hops(s, b, u) == Hops(s, b, v) - 1
    && (u == b || EdgeBase(s) <= u < End(s))
  }

  lemma StepCloser(s: Shape, b: nat, v: nat)
    requires s.h > 0 && b < EdgeBase(s) && v < End(s) && v != b
    ensures Closer(s, b, v, Step(s, b, v))
  {
    if v < EdgeBase(s) {
      StepFromHost(s, b, v);
    } else if v < AggBase(s) {
      StepFromEdge(s, b, v);
    } else if v < CoreBase(s) {
      StepFromAgg(s, b, v);
    } else {
      StepFromCore(s, b, v);
    }
  }

  lemma StepFromHost(s: Shape, b: nat, v: nat)
    requires s.h > 0 && b < EdgeBase(s) && v < EdgeBase(s) && v != b
    ensures Closer(s, b, v, EdgeBase(s) + EdgeOf(s, v))
  {
    QuotBelow(v, s.Edges(), s.h);
  }

  lemma StepFromEdge(s: Shape, b: nat, v: nat)
    requires s.h > 0 && b < EdgeBase(s) && EdgeBase(s) <= v < AggBase(s)
    ensures Closer(s, b, v, Step(s, b, v))
  {
    var q := v - EdgeBase(s);
    QuotBelow(q, s.p, s.h);
    Compose(PodOf(s, q), s.h, 0);
    Within(PodOf(s, q), s.p, s.h, 0);
    assert Slot(PodOf(s, q), s.h, 0) < s.Edges() && PodOf(s, Slot(PodOf(s, q), s.h, 0)) == PodOf(s, q);
  }

  lemma StepFromAgg(s: Shape, b: nat, v: nat)
    requires s.h > 0 && b < EdgeBase(s) && AggBase(s) <= v < CoreBase(s)
    ensures Closer(s, b, v, Step(s, b, v))
  {
    var m := Rem(v - AggBase(s), s.h);
    QuotBelow(b, s.Edges(), s.h);
    Compose(m, s.h, 0);
    Within(m, s.h, s.h, 0);
    assert Slot(m, s.h, 0) < s.Cores() && Quot(Slot(m, s.h, 0), s.h) == m;
  }

  lemma StepFromCore(s: Shape, b: nat, v: nat)
    requires s.h > 0 && b < EdgeBase(s) && CoreBase(s) <= v < End(s)
    ensures Closer(s, b, v, Step(s, b, v))
  {
    var pod, m := PodOf(s, EdgeOf(s, b)), Quot(v - CoreBase(s), s.h);
    QuotBelow(b, s.Edges(), s.h);
    QuotBelow(EdgeOf(s, b), s.p, s.h);
    QuotBelow(v - CoreBase(s), s.h, s.h);
    Compose(pod, s.h, m);
    Within(pod, s.p, s.h, m);
    assert Slot(pod, s.h, m) < s.Edges() && PodOf(s, Slot(pod, s.h, m)) == pod && Rem(Slot(pod, s.h, m), s.h) == m;
  }

  /** The file names exactly these nodes as switches. */
  lemma SwitchesOfFile(s: Shape, bw: nat, dl: nat, v: nat)
    ensures v in FatTree.Topology(s, bw, dl).switchIds <==> v in Switches(s)
  {
    if v in Switches(s) {
      assert FatTree.Topology(s, bw, dl).switchIds[v - s.Hosts()] == v;
    }
  }

  /** Whatever routes CalculateRoute finds on a generated fat-tree, every node can reach every host, and
      the distance is the one written out above: 2 hops under the same edge switch, 4 in the same pod,
      6 across pods. */
  lemma HopDistances(nbr: T.Links, s: Shape, b: nat, dis: map<nat, nat>)
    requires s.h > 0 && Carries(nbr, s) && b < s.Hosts()
    requires Distances(nbr, Switches(s), b, dis)
    ensures forall v: nat :: v in dis <==> v < End(s)
    ensures forall v: nat | v < End(s) :: dis[v] == Hops(s, b, v)
  {
    forall v: nat | v < End(s) ensures v in dis && dis[v] <= Hops(s, b, v) {
      Reached(nbr, s, b, dis, v);
    }
    forall v: nat | v in dis ensures v < End(s) && Hops(s, b, v) <= dis[v] {
      var p :| Route(nbr, Switches(s), b, p) && Last(p) == v && |p| - 1 == dis[v];
      NoShortcut(nbr, s, b, p);
    }
  }

  lemma {:induction false} NoShortcut(nbr: T.Links, s: Shape, b: nat, p: seq<nat>)
    requires s.h > 0 && Carries(nbr, s) && b < s.Hosts() && Route(nbr, Switches(s), b, p)
    ensures Last(p) < End(s) && Hops(s, b, Last(p)) <= |p| - 1
  {
    if |p| > 1 {
      var q := p[..|p| - 1];
      NoShortcut(nbr, s, b, q);
      var u, v := Last(q), Last(p);
      assert Up(nbr, p[|p| - 2], p[|p| - 1]);
      OneLink(s, b, u, v);
      if Joined(s, u, v) {
        Upward(s, u, v);
      } else {
        Upward(s, v, u);
      }
    }
  }

  lemma {:induction false} Reached(nbr: T.Links, s: Shape, b: nat, dis: map<nat, nat>, v: nat)
    requires s.h > 0 && Carries(nbr, s) && b < s.Hosts() && v < End(s)
    requires Distances(nbr, Switches(s), b, dis)
    ensures v in dis && dis[v] <= Hops(s, b, v)
    decreases Hops(s, b, v)
  {
    if v == b {
      RootAtZero(nbr, Switches(s), b, dis);
    } else {
      StepCloser(s, b, v);
      Reached(nbr, s, b, dis, Step(s, b, v));
      assert Up(nbr, Step(s, b, v), v);
      Relaxed(nbr, Switches(s), b, dis, Step(s, b, v), v);
    }
  }

  /** Packets for `b` still climb at `v`: an edge switch that is not the one of `b`, or an aggregation switch of another
      pod. */
  predicate Climbing(s: Shape, b: nat, v: nat)
    requires s.h > 0
  {
    || (EdgeBase(s) <= v < AggBase(s) && v - EdgeBase(s) != EdgeOf(s, b))
    || (AggBase(s) <= v < CoreBase(s) && PodOf(s, v - AggBase(s)) != PodOf(s, EdgeOf(s, b)))
  }

  /** The equal-cost next hops: on the way up every switch above will do, on the way down there is just one. */
  lemma NextHops(nbr: T.Links, s: Shape, b: nat, dis: map<nat, nat>, v: nat, hops: seq<nat>)
    requires s.h > 0 && Carries(nbr, s) && b < s.Hosts() && v < End(s) && v != b
    requires Distances(nbr, Switches(s), b, dis) && ExactHops(nbr, Switches(s), b, dis, v, hops)
    ensures NoDuplicates(hops)
    ensures forall m: nat :: m in hops <==> if Climbing(s, b, v) then Joined(s, v, m) else m == Step(s, b, v)
  {
    HopDistances(nbr, s, b, dis);
    forall m: nat ensures m in hops <==> if Climbing(s, b, v) then Joined(s, v, m) else m == Step(s, b, v) {
      assert m in hops <==> Expanded(Switches(s), b, dis, m) && OneCloser(nbr, dis, m, v);
      CloserNeighbours(s, b, v, m);
    }
  }

  /** `m` is a neighbour of `v` one hop closer to `b` that packets may pass through. */
  ghost predicate CloserNeighbour(s: Shape, b: nat, v: nat, m: nat)
    requires s.h > 0
  {
    && m < End(s) && (m == b || m in Switches(s))
    && (Joined(s, m, v) || Joined(s, v, m)) && Hops(s, b, m) + 1 == Hops(s, b, v)
  }

  lemma DescendingNeighbours(s: Shape, b: nat, v: nat, m: nat)
    requires s.h > 0 && b < s.Hosts() && v < End(s) && v != b && !Climbing(s, b, v)
    ensures CloserNeighbour(s, b, v, m) <==> m == Step(s, b, v)
  {
    StepCloser(s, b, v);
    if CloserNeighbour(s, b, v, m) {
      HostLinksUp(s, m, v);
      HostLinksUp(s, v, m);
      if v >= CoreBase(s) {
        BelowCore(s, b, v, m);
      }
    }
  }

  lemma BelowCore(s: Shape, b: nat, v: nat, m: nat)
    requires s.h > 0 && b < s.Hosts() && CoreBase(s) <= v < End(s) && CloserNeighbour(s, b, v, m)
    ensures m == Step(s, b, v)
  {
    HostLinksUp(s, m, v);
    Split(m - AggBase(s), s.h);
  }

  lemma CloserNeighbours(s: Shape, b: nat, v: nat, m: nat)
    requires s.h > 0 && b < s.Hosts() && v < End(s) && v != b
    ensures CloserNeighbour(s, b, v, m) <==> if Climbing(s, b, v) then Joined(s, v, m) else m == Step(s, b, v)
  {
    if Climbing(s, b, v) {
    } else {
      DescendingNeighbours(s, b, v, m);
    }
  }
}
