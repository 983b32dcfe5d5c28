/** The loop of scratch/third.cc that reads the link lines of a topology file: it builds the graph
    `nbr2if` and, in the same single pass, the set of hosts below every switch. */
module LinkLoading {
  import opened Basics
  import opened Topology
  import opened DownHosts
  import opened LinkGraph
  import FatTree

  /** A refused line stops the program: a zero rate divides by zero, the other cases fail an assertion. */
  datatype Outcome = Loaded(nbr: Links, down: DownSets) | Aborted

  predicate Refused(l: FatTree.Link, switches: set<nat>, hostNum: nat) {
    l.bw == 0 || l.dst <= l.src || (l.src !in switches && l.dst < hostNum)
  }

  /** Reads all link lines. */
  method LoadLinks(count: nat, switches: set<nat>, hostNum: nat, links: seq<FatTree.Link>) returns (r: Outcome)
    requires forall l | l in links :: l.src < count && l.dst < count
    ensures r == Aborted <==> exists l :: l in links && Refused(l, switches, hostNum)
    ensures r == Aborted <==>
      exists l :: l in links && (l.bw == 0 || l.dst <= l.src || (l.src !in switches && l.dst < hostNum))
    ensures r.Loaded? ==> Interfaces(links, r.nbr)
    ensures r.Loaded? ==> Graph(links, |links|, r.nbr) && Closed(links, |links|, switches, r.down)
    ensures r.Loaded? ==> WellFormed(r.nbr, Range(0, count)) && Symmetric(r.nbr) && PortsApart(r.nbr)
  {
    var nbr: Links, ports: map<nat, nat>, down: DownSets := map[], map[], map s: nat | s in switches :: {};
    NothingRead(links, switches, nbr, ports, down);
    for i := 0 to |links|
      invariant forall l | l in links[..i] :: !Refused(l, switches, hostNum)
      invariant Read(links, i, switches, nbr, ports, down)
    {
      var l := links[i];
      if l.bw == 0 || l.dst <= l.src || (l.src !in switches && l.dst < hostNum) {
        return Aborted;
      }
      nbr, ports, down := ReadLink(links, i, switches, nbr, ports, down);
    }
    assert links[..|links|] == links;
    GraphSound(links, count, nbr);
    GraphMeans(links, nbr);
    return Loaded(nbr, down);
  }

  /** What the loop keeps. */
  ghost predicate Read(links: seq<FatTree.Link>, n: nat, switches: set<nat>, nbr: Links, ports: map<nat, nat>,
                       down: DownSets)
  {
    Graph(links, n, nbr) && Counted(links, n, ports) && Closed(links, n, switches, down)
  }

  lemma NothingRead(links: seq<FatTree.Link>, switches: set<nat>, nbr: Links, ports: map<nat, nat>, down: DownSets)
    requires nbr == map[] && ports == map[] && forall v :: Below(down, v) == {}
    ensures Read(links, 0, switches, nbr, ports, down)
  {
    forall v: nat, h: nat ensures !Climbs(links, 0, switches, h, v) {
      forall q ensures !Climb(links, 0, switches, h, v, q) {}
    }
  }

  /** The body of the loop. */
  method ReadLink(links: seq<FatTree.Link>, n: nat, switches: set<nat>, nbr0: Links, ports0: map<nat, nat>,
                  down0: DownSets)
    returns (nbr: Links, ports: map<nat, nat>, down: DownSets)
    requires n < |links| && links[n].src < links[n].dst
    requires Read(links, n, switches, nbr0, ports0, down0)
    ensures Read(links, n + 1, switches, nbr, ports, down)
  {
    down := AddDown(down0, switches, links[n]);
    OneMoreDown(links, n, switches, down0, down);
    nbr, ports := AddLink(links, n, links[n], nbr0, ports0);
  }
}
