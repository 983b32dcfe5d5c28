/** A generated fat-tree read in by the simulator: the graph it becomes and the hosts below its switches. */
module FatTreeLoading {
  import opened Basics
  import opened Division
  import FatTree
  import opened FatTreeShape
  import opened FatTreeRouting
  import opened LinkLoading
  import opened DownHosts
  import opened LinkGraph
  import T = Topology
  import Network
  import opened RouteSearch

  lemma NoneRefused(s: FatTree.Shape, bw: nat, dl: nat)
    requires s.h > 0 && bw > 0
    ensures forall l | l in FatTree.Links(s, bw, dl) ::
      l.dst < End(s) && l.src < End(s) && !Refused(l, Switches(s), s.Hosts())
  {
    LinksExact(s, bw, dl);
    forall l | l in FatTree.Links(s, bw, dl) ensures l.src in Switches(s) || l.dst >= s.Hosts() {
      assert Joined(s, l.src, l.dst);
    }
  }

  /** The generators write all links into a switch before all links out of it. */
  lemma WrittenInOrder(s: FatTree.Shape, bw: nat, dl: nat)
    requires s.h > 0
    ensures Ordered(FatTree.Links(s, bw, dl), Switches(s))
  {
    var links := FatTree.Links(s, bw, dl);
    LinkCount(s, bw, dl);
    forall i: nat, j: nat | i < |links| && j < |links| && links[i].dst == links[j].src && links[j].src in Switches(s)
      ensures i < j {
      LinkAt(s, bw, dl, i);
      LinkAt(s, bw, dl, j);
      PlaceByLayer(s, links[i].src, links[i].dst);
      PlaceByLayer(s, links[j].src, links[j].dst);
    }
  }

  lemma PlaceByLayer(s: FatTree.Shape, u: nat, v: nat)
    requires s.h > 0 && Joined(s, u, v)
    ensures u < EdgeBase(s) ==> Place(s, u, v) < s.Hosts() && v < AggBase(s)
    ensures EdgeBase(s) <= u < AggBase(s) ==> s.Hosts() <= Place(s, u, v) < s.Hosts() + s.Hosts() && v < CoreBase(s)
    ensures AggBase(s) <= u ==> s.Hosts() + s.Hosts() <= Place(s, u, v)
  {
    QuotBelow(u, s.Edges(), s.h);
    if EdgeBase(s) <= u < AggBase(s) {
      Within(u - EdgeBase(s), s.Edges(), s.h, Rem(v - AggBase(s), s.h));
    }
  }

  /** The hosts that belong below node `v`: those of an edge switch, those of the pod, or all. */
  predicate Under(s: FatTree.Shape, h: nat, v: nat)
    requires s.h > 0
  {
    && h < s.Hosts()
    && EdgeBase(s) <= v < End(s)
    && (v < AggBase(s) ==> EdgeOf(s, h) == v - EdgeBase(s))
    && (AggBase(s) <= v < CoreBase(s) ==> PodOf(s, EdgeOf(s, h)) == PodOf(s, v - AggBase(s)))
  }

  /** In a generated fat-tree the hosts below a node are those that belong there. */
  lemma DownHostsExact(s: FatTree.Shape, bw: nat, dl: nat, h: nat, v: nat)
    requires s.h > 0
    ensures Chained(FatTree.Links(s, bw, dl), Switches(s), h, v) <==> Under(s, h, v)
  {
    if Under(s, h, v) {
      UnderChained(s, bw, dl, h, v);
    }
    if Chained(FatTree.Links(s, bw, dl), Switches(s), h, v) {
      ChainedUnder(s, bw, dl, h, v);
    }
  }

  lemma UnderChained(s: FatTree.Shape, bw: nat, dl: nat, h: nat, v: nat)
    requires s.h > 0 && Under(s, h, v)
    ensures Chained(FatTree.Links(s, bw, dl), Switches(s), h, v)
    decreases v
  {
    var links := FatTree.Links(s, bw, dl);
    QuotBelow(h, s.Edges(), s.h);
    QuotBelow(EdgeOf(s, h), s.p, s.h);
    if v < AggBase(s) {
      JoinedAt(s, bw, dl, h, v);
      ChainStarts(links, Switches(s), Place(s, h, v));
    } else {
      var u := if v < CoreBase(s) then EdgeBase(s) + EdgeOf(s, h) else Step(s, h, v);
      if v >= CoreBase(s) {
        StepFromCore(s, h, v);
      }
      UnderChained(s, bw, dl, h, u);
      JoinedAt(s, bw, dl, u, v);
      ChainGrows(links, Switches(s), h, Place(s, u, v));
    }
  }

  lemma {:induction false} ChainedUnder(s: FatTree.Shape, bw: nat, dl: nat, h: nat, v: nat)
    requires s.h > 0 && Chained(FatTree.Links(s, bw, dl), Switches(s), h, v)
    ensures Under(s, h, v)
    decreases v
  {
    var u := LastStep(s, bw, dl, h, v);
    if u == h {
      AboveHost(s, h, v);
    } else {
      ChainedUnder(s, bw, dl, h, u);
      AboveSwitch(s, h, u, v);
    }
  }

  lemma AboveHost(s: FatTree.Shape, h: nat, v: nat)
    requires s.h > 0 && Joined(s, h, v) && h !in Switches(s)
    ensures Under(s, h, v)
  {
    Upward(s, h, v);
    PlaceByLayer(s, h, v);
  }

  lemma AboveSwitch(s: FatTree.Shape, h: nat, u: nat, v: nat)
    requires s.h > 0 && Under(s, h, u) && Joined(s, u, v)
    ensures Under(s, h, v)
  {
    Upward(s, u, v);
  }

  /** The last link of a chain. */
  lemma LastStep(s: FatTree.Shape, bw: nat, dl: nat, h: nat, v: nat) returns (u: nat)
    requires s.h > 0 && Chained(FatTree.Links(s, bw, dl), Switches(s), h, v)
    ensures u < v && Joined(s, u, v) && h !in Switches(s)
    ensures u == h || Chained(FatTree.Links(s, bw, dl), Switches(s), h, u)
  {
    var links := FatTree.Links(s, bw, dl);
    LinkCount(s, bw, dl);
    var i := ChainEnds(links, Switches(s), h, v);
    LinkAt(s, bw, dl, i);
    u := links[i].src;
    Upward(s, u, v);
  }

  /** Generates the fat-tree for `k` and reads it in. */
  method GenerateAndLoad(k: nat, bw: nat, dl: nat, payload: nat) returns (sim: Network.Simulation, down: DownSets)
    requires k >= 2 && k % 2 == 0 && bw > 0
    ensures var s := FatTree.Shape(k, k / 2);
      && sim.Valid() && sim.count == End(s) && sim.switches == Switches(s)
      && Carries(sim.nbr2if, s) && Alike(sim.nbr2if, dl, bw * 1_000_000_000) && T.PortsApart(sim.nbr2if)
      && sim.payload == payload
      && (forall v, h :: h in Below(down, v) <==> Under(s, h, v))
  {
    ghost var s := FatTree.Shape(k, k / 2);
    var written := FatTree.Nested(k, bw, dl);
    var file := written.file;
    var switches := set v | v in file.switchIds;
    assert switches == Switches(s) by { forall v: nat { SwitchesOfFile(s, bw, dl, v); } }
    NoneRefused(s, bw, dl);
    var loaded := LoadLinks(file.header.nodes, switches, file.header.nodes - file.header.switches, file.links);
    GraphOfFatTree(s, bw, dl, loaded.nbr);
    LinksAlike(s, bw, dl, loaded.nbr);
    down := loaded.down;
    DownHostsOfFatTree(s, bw, dl, down);
    sim := new Network.Simulation(file.header.nodes, switches, payload, loaded.nbr);
  }

  lemma GraphOfFatTree(s: FatTree.Shape, bw: nat, dl: nat, nbr: T.Links)
    requires s.h > 0
    requires Graph(FatTree.Links(s, bw, dl), |FatTree.Links(s, bw, dl)|, nbr) && bw > 0
    ensures Carries(nbr, s)
  {
    LinksExact(s, bw, dl);
    GraphSound(FatTree.Links(s, bw, dl), End(s), nbr);
    forall a: nat, b: nat ensures T.Up(nbr, a, b) <==> Joined(s, a, b) || Joined(s, b, a) {
      BetweenJoined(s, bw, dl, a, b);
    }
  }

  lemma BetweenJoined(s: FatTree.Shape, bw: nat, dl: nat, a: nat, b: nat)
    requires s.h > 0
    ensures LinkBetween(FatTree.Links(s, bw, dl), |FatTree.Links(s, bw, dl)|, a, b) <==>
      Joined(s, a, b) || Joined(s, b, a)
  {
    var links := FatTree.Links(s, bw, dl);
    LinkCount(s, bw, dl);
    if Joined(s, a, b) {
      JoinedAt(s, bw, dl, a, b);
    }
    if Joined(s, b, a) {
      JoinedAt(s, bw, dl, b, a);
    }
    if LinkBetween(links, |links|, a, b) {
      var i: nat :| i < |links| && ((links[i].src, links[i].dst) == (a, b) || (links[i].src, links[i].dst) == (b, a));
      LinkAt(s, bw, dl, i);
    }
  }

  lemma DownHostsOfFatTree(s: FatTree.Shape, bw: nat, dl: nat, down: DownSets)
    requires s.h > 0
    requires Closed(FatTree.Links(s, bw, dl), |FatTree.Links(s, bw, dl)|, Switches(s), down)
    ensures forall v, h :: h in Below(down, v) <==> Under(s, h, v)
  {
    WrittenInOrder(s, bw, dl);
    OnePassSuffices(FatTree.Links(s, bw, dl), Switches(s), down);
    forall v: nat, h: nat ensures h in Below(down, v) <==> Under(s, h, v) {
      DownHostsExact(s, bw, dl, h, v);
    }
  }

  /** With the tables of a simulation of the fat-tree, a packet for host `b` is at `b` after exactly the
      hops written out for its starting point, whichever equal-cost hops it took, and has a next hop until then. */
  lemma PacketsArrive(nbr: T.Links, s: FatTree.Shape, t: HopTable, b: nat, f: seq<nat>)
    requires s.h > 0 && Carries(nbr, s) && b < s.Hosts()
    requires Network.RoutesTo(nbr, Switches(s), b, t)
    requires Network.Forwarding(t, b, f) && f[0] < End(s)
    ensures |f| - 1 <= Hops(s, b, f[0])
    ensures Last(f) == b <==> |f| - 1 == Hops(s, b, f[0])
    ensures Last(f) != b ==> At(t, Last(f), b) != []
  {
    var dis := Network.HopsAt(nbr, Switches(s), t, f[0], b);
    HopDistances(nbr, s, b, dis);
    Network.LoopFree(nbr, Switches(s), b, dis, t, f);
  }

  /** All links that are up have this delay and rate. */
  ghost predicate Alike(nbr: T.Links, dl: nat, rate: nat) {
    forall a, b | T.Up(nbr, a, b) :: nbr[a][b].delay == dl && nbr[a][b].bw == rate
  }

  lemma LinksAlike(s: FatTree.Shape, bw: nat, dl: nat, nbr: T.Links)
    requires s.h > 0 && Graph(FatTree.Links(s, bw, dl), |FatTree.Links(s, bw, dl)|, nbr)
    ensures Alike(nbr, dl, bw * 1_000_000_000)
  {
    var links := FatTree.Links(s, bw, dl);
    LinksExact(s, bw, dl);
    forall a, b | T.Up(nbr, a, b) ensures nbr[a][b].delay == dl && nbr[a][b].bw == bw * 1_000_000_000 {
      assert Shows(links, |links|, nbr, a, b);
      assert links[LastLine(links, |links|, a, b).value] in links;
    }
  }

  /** The cost of `n` such links one after the other. */
  function AlikeCost(payload: nat, dl: nat, rate: nat, n: nat): Cost {
    Cost(n * dl, n * (if rate == 0 then 0 else payload * 1_000_000_000 * 8 / rate),
         if n == 0 || rate > 0xffff_ffff_ffff_ffff then 0xffff_ffff_ffff_ffff else rate)
  }

  lemma {:induction false} RouteCost(nbr: T.Links, payload: nat, dl: nat, rate: nat, p: seq<nat>)
    requires Alike(nbr, dl, rate) && p != [] && forall i | 0 <= i < |p| - 1 :: T.Up(nbr, p[i], p[i + 1])
    ensures PathCost(nbr, p, payload) == AlikeCost(payload, dl, rate, |p| - 1)
  {
    if |p| > 1 {
      var n := |p| - 2;
      RouteCost(nbr, payload, dl, rate, p[..n + 1]);
      assert T.Up(nbr, p[n], p[n + 1]);
      var tx := TxTime(payload, rate);
      assert (n + 1) * dl == n * dl + dl && (n + 1) * tx == n * tx + tx;
    }
  }

  /** With the costs of the fat-tree entered, delay and transmission time from any node to any host are those of one
      link times the hops written out for the node, and the rate is that of the links. */
  lemma TreeCosts(nbr: T.Links, s: FatTree.Shape, nodes: set<nat>, payload: nat, dl: nat, rate: nat,
                  costs: Network.CostTable, b: nat, v: nat)
    requires s.h > 0 && Carries(nbr, s) && Alike(nbr, dl, rate) && b < s.Hosts() && b in nodes && v < End(s)
    requires Network.Costed(nbr, nodes, Switches(s), payload, costs)
    ensures Network.CostAt(costs, v, b) == Some(AlikeCost(payload, dl, rate, Hops(s, b, v)))
  {
    var dis := Network.CostsOf(nbr, Switches(s), payload, b, costs);
    HopDistances(nbr, s, b, dis);
    var p := Network.PairCost(nbr, nodes, Switches(s), payload, costs, b, dis, v);
    RouteCost(nbr, payload, dl, rate, p);
  }
}
