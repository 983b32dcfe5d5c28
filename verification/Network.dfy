/** The simulator's routing state and the operations of scratch/third.cc that fill it. */
module Network {
  import opened Basics
  import opened Topology
  import opened RouteSearch

  type CostTable = map<nat, map<nat, Cost>>

  function CostAt(t: CostTable, a: nat, b: nat): Option<Cost> {
    if a in t && b in t[a] then Some(t[a][b]) else None
  }

  function Put(t: CostTable, a: nat, b: nat, c: Cost): (r: CostTable)
    ensures forall x, y :: CostAt(r, x, y) == if x == a && y == b then Some(c) else CostAt(t, x, y)
  {
    var row: map<nat, Cost> := if a in t then t[a] else map[];
    t[a := row[b := c]]
  }

  /** The hop table lists, for every host and from every node, exactly the next hops on shortest routes. */
  ghost predicate RoutesTo(nbr: Links, switches: set<nat>, h: nat, nextHop: HopTable) {
    exists dis :: RoutesBy(nbr, switches, h, dis, nextHop)
  }

  /** The same, with the distances they follow. */
  ghost predicate RoutesBy(nbr: Links, switches: set<nat>, h: nat, dis: map<nat, nat>, nextHop: HopTable) {
    Distances(nbr, switches, h, dis) && forall n :: ExactHops(nbr, switches, h, dis, n, At(nextHop, n, h))
  }

  ghost predicate Routed(nbr: Links, nodes: set<nat>, switches: set<nat>, nextHop: HopTable) {
    && (forall h | h in nodes && h !in switches :: RoutesTo(nbr, switches, h, nextHop))
    && (forall n, h | h !in nodes || h in switches :: At(nextHop, n, h) == [])
  }

  /** Every node reached has the cost of a shortest route to it; all other costs are as before. */
  ghost predicate CostsEntered(nbr: Links, switches: set<nat>, payload: nat, host: nat, dis: map<nat, nat>,
                               before: CostTable, after: CostTable)
  {
    && (forall n | n in dis :: CostAt(after, n, host).Some?)
    && (forall n | n in dis :: ShortestCost(nbr, switches, host, dis, payload, n, CostOr(after, n, host)))
    && (forall n, h | h != host || n !in dis :: CostAt(after, n, h) == CostAt(before, n, h))
  }

  /** For every node that a shortest route joins to host `h`, the table holds the cost of one such route. */
  ghost predicate CostsTo(nbr: Links, switches: set<nat>, payload: nat, h: nat, costs: CostTable) {
    exists dis :: CostsBy(nbr, switches, payload, h, dis, costs)
  }

  ghost predicate CostsBy(nbr: Links, switches: set<nat>, payload: nat, h: nat, dis: map<nat, nat>, costs: CostTable) {
    && Distances(nbr, switches, h, dis)
    && (forall n | n in dis :: CostAt(costs, n, h).Some?)
    && (forall n | n in dis :: ShortestCost(nbr, switches, h, dis, payload, n, CostOr(costs, n, h)))
  }

  /** The same for every host. */
  ghost predicate Costed(nbr: Links, nodes: set<nat>, switches: set<nat>, payload: nat, costs: CostTable) {
    forall h | h in nodes && h !in switches :: CostsTo(nbr, switches, payload, h, costs)
  }

  lemma OneMoreCosted(nbr: Links, switches: set<nat>, payload: nat, host: nat, dis: map<nat, nat>, before: CostTable,
                      after: CostTable)
    requires Distances(nbr, switches, host, dis) && CostsEntered(nbr, switches, payload, host, dis, before, after)
    requires forall h: nat | h < host && h !in switches :: CostsTo(nbr, switches, payload, h, before)
    ensures forall h: nat | h <= host && h !in switches :: CostsTo(nbr, switches, payload, h, after)
  {
    assert CostsBy(nbr, switches, payload, host, dis, after);
    forall h: nat | h < host && h !in switches ensures CostsTo(nbr, switches, payload, h, after) {
      OtherCosts(nbr, switches, payload, h, before, after);
    }
  }

  lemma OtherCosts(nbr: Links, switches: set<nat>, payload: nat, h: nat, before: CostTable, after: CostTable)
    requires CostsTo(nbr, switches, payload, h, before) && forall n :: CostAt(after, n, h) == CostAt(before, n, h)
    ensures CostsTo(nbr, switches, payload, h, after)
  {
    var dis := CostsOf(nbr, switches, payload, h, before);
    assert CostsBy(nbr, switches, payload, h, dis, after);
  }

  /** With the costs of all hosts entered, the cost of each reachable pair is that of a shortest route, and its delay
      and sending time are sums and its rate the minimum over the links of that route. */
  lemma PairCost(nbr: Links, nodes: set<nat>, switches: set<nat>, payload: nat, costs: CostTable, h: nat,
                 dis: map<nat, nat>, n: nat)
    returns (p: seq<nat>)
    requires Costed(nbr, nodes, switches, payload, costs) && h in nodes && h !in switches
    requires Distances(nbr, switches, h, dis) && n in dis
    ensures Route(nbr, switches, h, p) && Last(p) == n && |p| - 1 == dis[n]
    ensures CostAt(costs, n, h) == Some(PathCost(nbr, p, payload))
    ensures WellFormed(nbr, nodes) ==> OverLinks(nbr, p) && CostOver(nbr, p, payload, CostAt(costs, n, h).value)
  {
    var dis' := CostsOf(nbr, switches, payload, h, costs);
    DistancesUnique(nbr, switches, h, dis, dis');
    assert ShortestCost(nbr, switches, h, dis, payload, n, CostOr(costs, n, h));
    p :| Measured(nbr, switches, h, dis, payload, n, CostOr(costs, n, h), p);
    if WellFormed(nbr, nodes) {
      RouteCostMeans(nbr, nodes, switches, payload, h, p);
    }
  }

  lemma RouteCostMeans(nbr: Links, nodes: set<nat>, switches: set<nat>, payload: nat, h: nat, p: seq<nat>)
    requires WellFormed(nbr, nodes) && Route(nbr, switches, h, p)
    ensures OverLinks(nbr, p) && CostOver(nbr, p, payload, PathCost(nbr, p, payload))
  {
    PathCostMeans(nbr, p, payload);
  }

  lemma CostsOf(nbr: Links, switches: set<nat>, payload: nat, h: nat, costs: CostTable) returns (dis: map<nat, nat>)
    requires CostsTo(nbr, switches, payload, h, costs)
    ensures CostsBy(nbr, switches, payload, h, dis, costs)
  {
    dis :| CostsBy(nbr, switches, payload, h, dis, costs);
  }

  function CostOr(t: CostTable, a: nat, b: nat): Cost {
    if CostAt(t, a, b).Some? then CostAt(t, a, b).value else Cost(0, 0, 0)
  }

  lemma CostsOfResult(nbr: Links, switches: set<nat>, payload: nat, host: nat, hops0: HopTable, dis: map<nat, nat>,
                      order: seq<nat>,
                      cost: map<nat, Cost>, hops: HopTable, before: CostTable, after: CostTable)
    requires Result(nbr, switches, payload, host, hops0, dis, order, cost, hops)
    requires forall n, h ::
      CostAt(after, n, h) == if h == host && n in cost then Some(cost[n]) else CostAt(before, n, h)
    ensures CostsEntered(nbr, switches, payload, host, dis, before, after)
  {
    forall n | n in dis ensures ShortestCost(nbr, switches, host, dis, payload, n, CostOr(after, n, host)) {
      assert CostAt(after, n, host) == Some(cost[n]);
    }
  }

  /** The IP address of host `i`; the routing tables of the program are keyed by it, those of the model by `i`. */
  function Address(i: nat): nat {
    0x0b00_0001 + i / 256 * 0x0001_0000 + i % 256 * 0x0000_0100
  }

  /** The number of the port of `a` towards `b`; an interface made on the fly has number 0. */
  function Port(nbr: Links, a: nat, b: nat): nat {
    if a in nbr && b in nbr[a] then nbr[a][b].idx else 0
  }

  function Ports(nbr: Links, a: nat, hops: seq<nat>): seq<nat> {
    seq(|hops|, k requires 0 <= k < |hops| => Port(nbr, a, hops[k]))
  }

  /** The entries of node `n` for destination `d` with those for the listed next hops added at the back. */
  function Grown(nbr: Links, nextHop: HopTable, before: HopTable, n: nat, d: nat): seq<nat> {
    At(before, n, d) + Ports(nbr, n, At(nextHop, n, d))
  }

  ghost predicate EnteredFor(nbr: Links, nextHop: HopTable, before: HopTable, after: HopTable, rows: set<nat>) {
    forall n, d :: At(after, n, d) == if n in rows then Grown(nbr, nextHop, before, n, d) else At(before, n, d)
  }

  lemma OneMoreHost(nbr: Links, switches: set<nat>, host: nat, dis: map<nat, nat>, order: seq<nat>, before: HopTable,
                    after: HopTable)
    requires host !in switches
    requires forall h: nat | h < host && h !in switches :: RoutesTo(nbr, switches, h, before)
    requires forall n, h: nat | h >= host || h in switches :: At(before, n, h) == []
    requires Distances(nbr, switches, host, dis)
    requires NoDuplicates(order) && forall m :: m in order <==> Expanded(switches, host, dis, m)
    requires Collected(nbr, dis, order, host, before, after)
    ensures forall h: nat | h <= host && h !in switches :: RoutesTo(nbr, switches, h, after)
    ensures forall n, h: nat | h > host || h in switches :: At(after, n, h) == []
  {
    OnlyHost(nbr, dis, order, host, before, after);
    ThisHost(nbr, switches, host, dis, order, before, after);
    forall h: nat | h < host && h !in switches ensures RoutesTo(nbr, switches, h, after) {
      OtherHost(nbr, switches, before, after, h);
    }
  }

  /** One search changes nothing about routes to other hosts. */
  lemma OnlyHost(nbr: Links, dis: map<nat, nat>, order: seq<nat>, host: nat, before: HopTable, after: HopTable)
    requires Collected(nbr, dis, order, host, before, after)
    ensures forall n, h | h != host :: At(after, n, h) == At(before, n, h)
  {
    forall n, h | h != host ensures At(after, n, h) == At(before, n, h) {
      assert At(after, n, h) == At(before, n, h) + [];
    }
  }

  lemma ThisHost(nbr: Links, switches: set<nat>, host: nat, dis: map<nat, nat>, order: seq<nat>, before: HopTable,
                 after: HopTable)
    requires Distances(nbr, switches, host, dis) && forall n :: At(before, n, host) == []
    requires NoDuplicates(order) && forall m :: m in order <==> Expanded(switches, host, dis, m)
    requires Collected(nbr, dis, order, host, before, after)
    ensures RoutesTo(nbr, switches, host, after)
  {
    forall n: nat ensures ExactHops(nbr, switches, host, dis, n, At(after, n, host)) {
      ThisList(nbr, switches, host, dis, order, before, after, n);
    }
    assert RoutesBy(nbr, switches, host, dis, after);
  }

  lemma ThisList(nbr: Links, switches: set<nat>, host: nat, dis: map<nat, nat>, order: seq<nat>, before: HopTable,
                 after: HopTable, n: nat)
    requires At(before, n, host) == [] && Collected(nbr, dis, order, host, before, after)
    requires NoDuplicates(order) && forall m :: m in order <==> Expanded(switches, host, dis, m)
    ensures ExactHops(nbr, switches, host, dis, n, At(after, n, host))
  {
    assert At(after, n, host) == At(before, n, host) + HopList(nbr, dis, order, n) == HopList(nbr, dis, order, n);
    HopListMembers(nbr, dis, order, n);
  }

  lemma OtherHost(nbr: Links, switches: set<nat>, before: HopTable, after: HopTable, h: nat)
    requires RoutesTo(nbr, switches, h, before) && forall n :: At(after, n, h) == At(before, n, h)
    ensures RoutesTo(nbr, switches, h, after)
  {
    var dis := HopsOf(nbr, switches, before, h);
    assert RoutesBy(nbr, switches, h, dis, after);
  }

  lemma HopsOf(nbr: Links, switches: set<nat>, t: HopTable, h: nat) returns (dis: map<nat, nat>)
    requires RoutesTo(nbr, switches, h, t)
    ensures RoutesBy(nbr, switches, h, dis, t)
  {
    dis :| RoutesBy(nbr, switches, h, dis, t);
  }

  ghost predicate Entered(nbr: Links, nextHop: HopTable, before: HopTable, after: HopTable) {
    forall n, d :: At(after, n, d) == Grown(nbr, nextHop, before, n, d)
  }

  /** Every routing table holds exactly the ports towards the listed next hops. */
  ghost predicate Installed(nbr: Links, nextHop: HopTable, tables: HopTable) {
    forall n, d :: At(tables, n, d) == Ports(nbr, n, At(nextHop, n, d))
  }

  lemma FilledFromEmpty(nbr: Links, nextHop: HopTable, before: HopTable, after: HopTable)
    requires Entered(nbr, nextHop, before, after) && forall n, d :: At(before, n, d) == []
    ensures Installed(nbr, nextHop, after)
  {
    forall n, d ensures At(after, n, d) == Ports(nbr, n, At(nextHop, n, d)) {
      assert At(after, n, d) == Grown(nbr, nextHop, before, n, d);
    }
  }

  function Cut(nbr: Links, a: nat, b: nat): Links {
    if a in nbr && b in nbr[a] then nbr[a := nbr[a][b := nbr[a][b].(up := false)]] else nbr
  }

  /** The links with the one between `a` and `b` taken down. */
  function Without(nbr: Links, a: nat, b: nat): Links {
    if Up(nbr, a, b) then Cut(Cut(nbr, a, b), b, a) else nbr
  }

  function WithoutAll(nbr: Links, cuts: seq<(nat, nat)>): Links {
    if cuts == [] then nbr else Without(WithoutAll(nbr, cuts[..|cuts| - 1]), cuts[|cuts| - 1].0, cuts[|cuts| - 1].1)
  }

  /** The same nodes are neighbours, over links of the same ports, delays and rates. */
  ghost predicate SameWiring(nbr: Links, nbr': Links) {
    && (forall x: nat, y: nat :: x in nbr && y in nbr[x] <==> x in nbr' && y in nbr'[x])
    && (forall x: nat, y: nat | x in nbr && y in nbr[x] :: SameLink(nbr[x][y], nbr'[x][y]))
  }

  predicate SameLink(i: Interface, j: Interface) {
    i.idx == j.idx && i.delay == j.delay && i.bw == j.bw
  }

  lemma CutWiring(nbr: Links, a: nat, b: nat)
    ensures SameWiring(nbr, Cut(nbr, a, b))
  {}

  /** Taking links down changes nothing about the wiring. */
  lemma {:induction false} CutsKeepWiring(nbr: Links, cuts: seq<(nat, nat)>)
    ensures SameWiring(nbr, WithoutAll(nbr, cuts))
  {
    if cuts != [] {
      var front, last := cuts[..|cuts| - 1], cuts[|cuts| - 1];
      CutsKeepWiring(nbr, front);
      WithoutWiring(WithoutAll(nbr, front), last.0, last.1);
    }
  }

  lemma WithoutWiring(nbr: Links, a: nat, b: nat)
    ensures SameWiring(nbr, Without(nbr, a, b))
  {
    CutWiring(nbr, a, b);
    CutWiring(Cut(nbr, a, b), b, a);
  }

  lemma CutPorts(nbr: Links, a: nat, b: nat)
    ensures PortsApart(nbr) ==> PortsApart(Cut(nbr, a, b))
  {
    var cut: Links := Cut(nbr, a, b);
    forall x: nat, y: nat | x in cut && y in cut[x] ensures x in nbr && y in nbr[x] && cut[x][y].idx == nbr[x][y].idx {}
  }

  lemma WithoutKeeps(nbr: Links, nodes: set<nat>, a: nat, b: nat)
    requires WellFormed(nbr, nodes) && Symmetric(nbr)
    ensures forall x: nat, y: nat ::
      Up(Without(nbr, a, b), x, y) <==> Up(nbr, x, y) && (x, y) != (a, b) && (y, x) != (a, b)
    ensures WellFormed(Without(nbr, a, b), nodes) && Symmetric(Without(nbr, a, b))
    ensures PortsApart(nbr) ==> PortsApart(Without(nbr, a, b))
  {
    if Up(nbr, a, b) {
      CutPorts(nbr, a, b);
      CutPorts(Cut(nbr, a, b), b, a);
    }
  }

  lemma OnlyNodesRouted(nbr: Links, nodes: set<nat>, switches: set<nat>, nextHop: HopTable)
    requires WellFormed(nbr, nodes) && Routed(nbr, nodes, switches, nextHop)
    ensures forall n, d | n !in nodes :: At(nextHop, n, d) == []
  {
    forall n: nat, d: nat | n !in nodes ensures At(nextHop, n, d) == [] {
      if d in nodes && d !in switches {
        NotANode(nbr, nodes, switches, nextHop, n, d);
      }
    }
  }

  lemma NotANode(nbr: Links, nodes: set<nat>, switches: set<nat>, t: HopTable, n: nat, d: nat)
    requires WellFormed(nbr, nodes) && RoutesTo(nbr, switches, d, t) && n !in nodes
    ensures At(t, n, d) == []
  {
    var dis := HopsAt(nbr, switches, t, n, d);
    FirstHopUp(nbr, switches, d, dis, n, At(t, n, d));
  }

  lemma FirstHopUp(nbr: Links, switches: set<nat>, d: nat, dis: map<nat, nat>, n: nat, hops: seq<nat>)
    requires ExactHops(nbr, switches, d, dis, n, hops)
    ensures hops == [] || Up(nbr, hops[0], n)
  {
    if hops != [] {
      assert hops[0] in hops;
    }
  }

  /** After any sequence of link failures exactly the links not taken down are up, in both directions. */
  lemma {:induction false} UpAfterCuts(nbr: Links, nodes: set<nat>, cuts: seq<(nat, nat)>)
    requires WellFormed(nbr, nodes) && Symmetric(nbr)
    ensures var left := WithoutAll(nbr, cuts);
      && WellFormed(left, nodes) && Symmetric(left) && (PortsApart(nbr) ==> PortsApart(left))
      && (forall x: nat, y: nat :: Up(left, x, y) <==> Up(nbr, x, y) && (x, y) !in cuts && (y, x) !in cuts)
  {
    if cuts != [] {
      var front, last := cuts[..|cuts| - 1], cuts[|cuts| - 1];
      UpAfterCuts(nbr, nodes, front);
      WithoutKeeps(WithoutAll(nbr, front), nodes, last.0, last.1);
      assert cuts == front + [last];
    }
  }

  /** Whatever links fail, no node gets closer to a host and none gets newly connected. */
  lemma NeverShorter(nbr: Links, nodes: set<nat>, switches: set<nat>, cuts: seq<(nat, nat)>, host: nat,
                     dis: map<nat, nat>, dis': map<nat, nat>)
    requires WellFormed(nbr, nodes) && Symmetric(nbr)
    requires Distances(nbr, switches, host, dis) && Distances(WithoutAll(nbr, cuts), switches, host, dis')
    ensures forall n | n in dis' :: n in dis && dis[n] <= dis'[n]
  {
    UpAfterCuts(nbr, nodes, cuts);
    Shorter(nbr, WithoutAll(nbr, cuts), switches, host, dis, dis');
  }

  /** The links alone determine the next hops, up to their order: a hop table kept through failures
      lists the same hops as one computed from scratch. */
  lemma SameHops(nbr: Links, nodes: set<nat>, switches: set<nat>, t: HopTable, t': HopTable, n: nat, d: nat)
    requires Routed(nbr, nodes, switches, t) && Routed(nbr, nodes, switches, t')
    ensures multiset(At(t, n, d)) == multiset(At(t', n, d))
  {
    if d in nodes && d !in switches {
      SameHopsTo(nbr, switches, t, t', n, d);
    }
  }

  /** The same for the installed tables: the links alone determine the ports each table lists, up to their order. */
  lemma SamePorts(nbr: Links, nodes: set<nat>, switches: set<nat>, t: HopTable, t': HopTable, tables: HopTable,
                  tables': HopTable, n: nat, d: nat)
    requires Routed(nbr, nodes, switches, t) && Routed(nbr, nodes, switches, t')
    requires Installed(nbr, t, tables) && Installed(nbr, t', tables')
    ensures multiset(At(tables, n, d)) == multiset(At(tables', n, d))
  {
    SameHops(nbr, nodes, switches, t, t', n, d);
    assert At(tables, n, d) == Ports(nbr, n, At(t, n, d)) && At(tables', n, d) == Ports(nbr, n, At(t', n, d));
    PortsOfSame(nbr, n, At(t, n, d), At(t', n, d));
  }

  /** Lists with the same next hops give lists with the same ports. */
  lemma {:induction false} PortsOfSame(nbr: Links, n: nat, s: seq<nat>, t: seq<nat>)
    requires multiset(s) == multiset(t)
    ensures multiset(Ports(nbr, n, s)) == multiset(Ports(nbr, n, t))
  {
    if s == [] {
      assert |t| == |multiset(t)| == 0;
    } else {
      var x, front := s[|s| - 1], s[..|s| - 1];
      TakenOut(s, |s| - 1);
      assert s[..|s| - 1] + s[|s|..] == front;
      assert x in multiset(t);
      var k :| 0 <= k < |t| && t[k] == x;
      var rest := t[..k] + t[k + 1..];
      TakenOut(t, k);
      Cancelled(multiset(front), multiset(rest), x);
      PortsOfSame(nbr, n, front, rest);
      PortsSplit(nbr, n, s, |s| - 1);
      PortsSplit(nbr, n, t, k);
    }
  }

  lemma Cancelled(a: multiset<nat>, b: multiset<nat>, x: nat)
    requires a + multiset{x} == b + multiset{x}
    ensures a == b
  {
    assert a == a + multiset{x} - multiset{x} == b + multiset{x} - multiset{x} == b;
  }

  lemma TakenOut(t: seq<nat>, k: nat)
    requires k < |t|
    ensures multiset(t) == multiset(t[..k] + t[k + 1..]) + multiset{t[k]}
  {
    assert t == t[..k] + [t[k]] + t[k + 1..];
  }

  lemma PortsSplit(nbr: Links, n: nat, t: seq<nat>, k: nat)
    requires k < |t|
    ensures multiset(Ports(nbr, n, t)) == multiset(Ports(nbr, n, t[..k] + t[k + 1..])) + multiset{Port(nbr, n, t[k])}
  {
    var all, rest := Ports(nbr, n, t), Ports(nbr, n, t[..k] + t[k + 1..]);
    assert all == rest[..k] + [Port(nbr, n, t[k])] + rest[k..];
    assert rest == rest[..k] + rest[k..];
  }

  lemma SameHopsTo(nbr: Links, switches: set<nat>, t: HopTable, t': HopTable, n: nat, d: nat)
    requires RoutesTo(nbr, switches, d, t) && RoutesTo(nbr, switches, d, t')
    ensures multiset(At(t, n, d)) == multiset(At(t', n, d))
  {
    var dis := HopsAt(nbr, switches, t, n, d);
    var dis' := HopsAt(nbr, switches, t', n, d);
    assert dis == dis' by { DistancesUnique(nbr, switches, d, dis, dis'); }
    ExactHopsSame(nbr, switches, d, dis, n, At(t, n, d), At(t', n, d));
  }

  lemma ExactHopsSame(nbr: Links, switches: set<nat>, d: nat, dis: map<nat, nat>, n: nat, s: seq<nat>, t: seq<nat>)
    requires ExactHops(nbr, switches, d, dis, n, s) && ExactHops(nbr, switches, d, dis, n, t)
    ensures multiset(s) == multiset(t)
  {
    SameElements(s, t);
  }

  lemma HopsAt(nbr: Links, switches: set<nat>, t: HopTable, n: nat, d: nat) returns (dis: map<nat, nat>)
    requires RoutesTo(nbr, switches, d, t)
    ensures Distances(nbr, switches, d, dis) && ExactHops(nbr, switches, d, dis, n, At(t, n, d))
  {
    dis := HopsOf(nbr, switches, t, d);
  }

  lemma SameElements<T>(s: seq<T>, t: seq<T>)
    requires NoDuplicates(s) && NoDuplicates(t) && forall x :: x in s <==> x in t
    ensures multiset(s) == multiset(t)
  {
    forall x ensures multiset(s)[x] == multiset(t)[x] {
      CountOnce(s, x);
      CountOnce(t, x);
    }
  }

  lemma {:induction false} CountOnce<T>(s: seq<T>, x: T)
    requires NoDuplicates(s)
    ensures multiset(s)[x] == if x in s then 1 else 0
  {
    if s != [] {
      CountOnce(s[..|s| - 1], x);
      assert s == s[..|s| - 1] + [s[|s| - 1]];
    }
  }

  /** A packet at f[0] bound for host `d` takes at each node any one of the listed next hops. */
  ghost predicate Forwarding(t: HopTable, d: nat, f: seq<nat>) {
    && f != []
    && (forall i | 0 <= i < |f| - 1 :: f[i] != d && f[i + 1] in At(t, f[i], d))
  }

  /** Whatever next hops are chosen, each forwarding step gets exactly one hop closer: the packet is
      never stuck before the host, never comes back to a node, crosses only switches, and arrives
      after exactly as many steps as the distance it set out with. */
  lemma LoopFree(nbr: Links, switches: set<nat>, d: nat, dis: map<nat, nat>, t: HopTable, f: seq<nat>)
    requires Distances(nbr, switches, d, dis) && RoutesTo(nbr, switches, d, t)
    requires Forwarding(t, d, f) && f[0] in dis
    ensures |f| - 1 <= dis[f[0]]
    ensures forall i | 0 <= i < |f| :: f[i] in dis && dis[f[i]] == dis[f[0]] - i
    ensures Last(f) == d <==> |f| - 1 == dis[f[0]]
    ensures Last(f) != d ==> At(t, Last(f), d) != []
    ensures forall i | 0 < i < |f| && f[i] != d :: f[i] in switches
    ensures NoDuplicates(f)
  {
    RootAtZero(nbr, switches, d, dis);
    forall i | 0 <= i < |f|
      ensures f[i] in dis && dis[f[i]] == dis[f[0]] - i && (i > 0 ==> Expanded(switches, d, dis, f[i])) {
      Closer(nbr, switches, d, dis, t, f, i);
    }
    assert Last(f) in dis;
    if Last(f) != d {
      var m := HasCloser(nbr, switches, d, dis, Last(f));
      OneStep(nbr, switches, d, dis, t, Last(f), m);
    }
  }

  /** Node number `i` of a packet's way is `i` hops closer than the first. */
  ghost predicate Closing(switches: set<nat>, d: nat, dis: map<nat, nat>, f: seq<nat>, i: nat)
    requires i < |f| && f[0] in dis
  {
    f[i] in dis && dis[f[i]] == dis[f[0]] - i && (i > 0 ==> Expanded(switches, d, dis, f[i]))
  }

  lemma {:induction false} Closer(nbr: Links, switches: set<nat>, d: nat, dis: map<nat, nat>, t: HopTable, f: seq<nat>,
                                  i: nat)
    requires Distances(nbr, switches, d, dis) && RoutesTo(nbr, switches, d, t)
    requires Forwarding(t, d, f) && f[0] in dis && i < |f|
    ensures Closing(switches, d, dis, f, i)
  {
    if i > 0 {
      Closer(nbr, switches, d, dis, t, f, i - 1);
      assert f[i] == f[i - 1 + 1];
      OneStep(nbr, switches, d, dis, t, f[i - 1], f[i]);
    }
  }

  lemma OneStep(nbr: Links, switches: set<nat>, d: nat, dis: map<nat, nat>, t: HopTable, n: nat, m: nat)
    requires Distances(nbr, switches, d, dis) && RoutesTo(nbr, switches, d, t)
    ensures m in At(t, n, d) <==> Expanded(switches, d, dis, m) && OneCloser(nbr, dis, m, n)
  {
    var dis' := HopsAt(nbr, switches, t, n, d);
    DistancesUnique(nbr, switches, d, dis, dis');
  }

  /** A packet at f[0] bound for host `d` leaves each node by any one of the ports that its routing table lists. */
  ghost predicate ForwardingByPort(nbr: Links, tables: HopTable, d: nat, f: seq<nat>) {
    && f != []
    && (forall i | 0 <= i < |f| - 1 :: f[i] != d && Takes(nbr, tables, d, f[i], f[i + 1]))
  }

  predicate Takes(nbr: Links, tables: HopTable, d: nat, n: nat, m: nat) {
    n in nbr && m in nbr[n] && nbr[n][m].idx in At(tables, n, d)
  }

  /** Whatever listed ports are taken, the packet goes one hop closer to the host each time, over links that are up,
      is never stuck, crosses only switches, and arrives after exactly its distance. */
  lemma PortsLoopFree(nbr: Links, nodes: set<nat>, switches: set<nat>, d: nat, dis: map<nat, nat>, t: HopTable,
                      tables: HopTable, f: seq<nat>)
    requires WellFormed(nbr, nodes) && Symmetric(nbr) && PortsApart(nbr)
    requires Distances(nbr, switches, d, dis) && RoutesTo(nbr, switches, d, t) && Installed(nbr, t, tables)
    requires ForwardingByPort(nbr, tables, d, f) && f[0] in dis
    ensures |f| - 1 <= dis[f[0]] && NoDuplicates(f)
    ensures forall i | 0 <= i < |f| :: f[i] in dis && dis[f[i]] == dis[f[0]] - i
    ensures forall i | 0 <= i < |f| - 1 :: Up(nbr, f[i], f[i + 1])
    ensures forall i | 0 < i < |f| && f[i] != d :: f[i] in switches
    ensures Last(f) == d <==> |f| - 1 == dis[f[0]]
    ensures Last(f) != d ==> At(tables, Last(f), d) != []
  {
    forall i | 0 <= i < |f| - 1 ensures f[i + 1] in At(t, f[i], d) && Up(nbr, f[i], f[i + 1]) {
      assert Takes(nbr, tables, d, f[i], f[i + 1]);
      PortLeads(nbr, switches, d, t, tables, f[i], f[i + 1]);
    }
    LoopFree(nbr, switches, d, dis, t, f);
    assert At(tables, Last(f), d) == Ports(nbr, Last(f), At(t, Last(f), d));
  }

  /** A listed port leads to a listed next hop. */
  lemma PortLeads(nbr: Links, switches: set<nat>, d: nat, t: HopTable, tables: HopTable, n: nat, m: nat)
    requires Symmetric(nbr) && PortsApart(nbr) && RoutesTo(nbr, switches, d, t) && Installed(nbr, t, tables)
    requires Takes(nbr, tables, d, n, m)
    ensures m in At(t, n, d) && Up(nbr, n, m)
  {
    var hops := At(t, n, d);
    assert At(tables, n, d) == Ports(nbr, n, hops);
    var k :| 0 <= k < |hops| && Port(nbr, n, hops[k]) == nbr[n][m].idx;
    var dis := HopsAt(nbr, switches, t, n, d);
    assert hops[k] in hops;
    assert Up(nbr, hops[k], n) && Up(nbr, n, hops[k]);
  }

  /** No routing table names a port whose link is down. */
  lemma NoDownPort(nbr: Links, nodes: set<nat>, switches: set<nat>, nextHop: HopTable, tables: HopTable, n: nat, d: nat,
                   m: nat)
    requires WellFormed(nbr, nodes) && Symmetric(nbr) && PortsApart(nbr)
    requires Routed(nbr, nodes, switches, nextHop) && Installed(nbr, nextHop, tables)
    requires n in nbr && m in nbr[n] && !nbr[n][m].up
    ensures nbr[n][m].idx !in At(tables, n, d)
  {
    var hops := At(nextHop, n, d);
    forall k | 0 <= k < |hops| ensures Port(nbr, n, hops[k]) != nbr[n][m].idx {
      assert hops[k] in hops;
      assert RoutesTo(nbr, switches, d, nextHop);
      assert Up(nbr, hops[k], n);
    }
    assert At(tables, n, d) == Ports(nbr, n, hops);
  }

  /** The addresses are 11.x.y.1, where x and y are the two bytes of the host number. */
  lemma AddressBytes(i: nat)
    requires i < 0x1_0000
    ensures var a := Address(i);
      a % 0x100 == 1 && a / 0x100 % 0x100 == i % 0x100 && a / 0x100 / 0x100 % 0x100 == i / 0x100
      && a / 0x100 / 0x100 / 0x100 == 11
  {
    var high := 11 * 0x100 + i / 0x100;
    var middle := high * 0x100 + i % 0x100;
    assert Address(i) == middle * 0x100 + 1;
    LastByte(middle, 1);
    LastByte(high, i % 0x100);
    LastByte(11, i / 0x100);
  }

  lemma LastByte(x: nat, b: nat)
    requires b < 0x100
    ensures (x * 0x100 + b) / 0x100 == x && (x * 0x100 + b) % 0x100 == b
  {}

  /** Distinct hosts have distinct addresses as long as the addresses fit into 32 bits. */
  lemma AddressesApart(i: nat, j: nat)
    requires i < 0xf5_0000 && j < 0xf5_0000
    ensures Address(i) < 0x1_0000_0000
    ensures Address(i) == Address(j) ==> i == j
  {}

  class Simulation {
    /** Nodes are numbered 0 .. count - 1; those outside `switches` are hosts. */
    const count: nat
    const nodes: set<nat>
    const switches: set<nat>
    const payload: nat

    var nbr2if: Links
    var nextHop: HopTable
    var pairCost: CostTable
    var tables: HopTable

    ghost predicate Wired()
      reads this
    {
      nodes == Range(0, count) && WellFormed(nbr2if, nodes) && Symmetric(nbr2if)
    }

    /** Hop table, routing tables and costs are up to date with the links. */
    ghost predicate Valid()
      reads this
    {
      && Wired()
      && Routed(nbr2if, nodes, switches, nextHop)
      && Installed(nbr2if, nextHop, tables)
      && Costed(nbr2if, nodes, switches, payload, pairCost)
    }

    constructor (count: nat, switches: set<nat>, payload: nat, links: Links)
      requires WellFormed(links, Range(0, count)) && Symmetric(links)
      ensures Valid() && nbr2if == links
      ensures this.count == count && this.switches == switches && this.payload == payload
    {
      this.count, this.nodes, this.switches, this.payload := count, Range(0, count), switches, payload;
      nbr2if, nextHop, pairCost, tables := links, map[], map[], map[];
      new;
      CalculateRoutes();
      SetRoutingEntries();
      FilledFromEmpty(nbr2if, nextHop, map[], tables);
    }

    /** Takes down the link between `a` and `b`, if there is one and it is up, and redoes the routing. */
    method TakeDownLink(a: nat, b: nat)
      requires Valid()
      modifies this
      ensures Valid() && nbr2if == Without(old(nbr2if), a, b) && SameWiring(old(nbr2if), nbr2if)
      ensures forall x: nat, y: nat ::
        Up(nbr2if, x, y) <==> Up(old(nbr2if), x, y) && (x, y) != (a, b) && (y, x) != (a, b)
    {
      WithoutWiring(nbr2if, a, b);
      if !Up(nbr2if, a, b) {
        return;
      }
      WithoutKeeps(nbr2if, nodes, a, b);
      OnlyNodesRouted(nbr2if, nodes, switches, nextHop);
      nbr2if := Cut(Cut(nbr2if, a, b), b, a);
      nextHop := map[];
      CalculateRoutes();
      ClearTables();
      ghost var cleared := tables;
      SetRoutingEntries();
      FilledFromEmpty(nbr2if, nextHop, cleared, tables);
    }

    /** A sequence of failures: the simulation stays up to date with the links that are left. */
    method TakeDownLinks(cuts: seq<(nat, nat)>)
      requires Valid()
      modifies this
      ensures Valid() && nbr2if == WithoutAll(old(nbr2if), cuts) && SameWiring(old(nbr2if), nbr2if)
      ensures forall x: nat, y: nat ::
        Up(nbr2if, x, y) <==> Up(old(nbr2if), x, y) && (x, y) !in cuts && (y, x) !in cuts
    {
      for i := 0 to |cuts|
        invariant Valid() && nbr2if == WithoutAll(old(nbr2if), cuts[..i])
      {
        assert cuts[..i + 1][..i] == cuts[..i];
        TakeDownLink(cuts[i].0, cuts[i].1);
      }
      assert cuts[..|cuts|] == cuts;
      CutsKeepWiring(old(nbr2if), cuts);
      UpAfterCuts(old(nbr2if), nodes, cuts);
    }

    method ClearTables()
      requires forall n, d | n >= count :: At(tables, n, d) == []
      modifies `tables
      ensures forall n, d :: At(tables, n, d) == []
    {
      for i := 0 to count
        invariant forall n: nat, d | n < i || n >= count :: At(tables, n, d) == []
      {
        tables := ClearRow(tables, i);
      }
    }

    method CalculateRoute(host: nat) returns (ghost dis: map<nat, nat>, ghost order: seq<nat>)
      requires host in nodes && WellFormed(nbr2if, nodes)
      modifies `nextHop, `pairCost
      ensures Distances(nbr2if, switches, host, dis)
      ensures NoDuplicates(order) && forall m :: m in order <==> Expanded(switches, host, dis, m)
      ensures Collected(nbr2if, dis, order, host, old(nextHop), nextHop)
      ensures CostsEntered(nbr2if, switches, payload, host, dis, old(pairCost), pairCost)
    {
      ghost var before := nextHop;
      var cost;
      cost, nextHop := Search(nbr2if, nodes, switches, payload, host, nextHop);
      dis, order := ResultOf(nbr2if, switches, payload, host, before, cost, nextHop);
      ghost var hops := nextHop;
      RecordCosts(host, cost);
      CostsOfResult(nbr2if, switches, payload, host, before, dis, order, cost, hops, old(pairCost), pairCost);
    }

    /** The loops at the end of CalculateRoute, which write the costs into the global tables. */
    method RecordCosts(host: nat, cost: map<nat, Cost>)
      modifies `pairCost
      ensures forall n, h ::
        CostAt(pairCost, n, h) == if h == host && n in cost then Some(cost[n]) else old(CostAt(pairCost, n, h))
    {
      var left := cost.Keys;
      while left != {}
        invariant left <= cost.Keys
        invariant forall n, h ::
          CostAt(pairCost, n, h) ==
          if h == host && n in cost && n !in left then Some(cost[n]) else old(CostAt(pairCost, n, h))
      {
        var n :| n in left;
        left := left - {n};
        pairCost := Put(pairCost, n, host, cost[n]);
      }
    }

    method CalculateRoutes()
      requires WellFormed(nbr2if, nodes) && nodes == Range(0, count)
      requires forall n, h :: At(nextHop, n, h) == []
      modifies `nextHop, `pairCost
      ensures Routed(nbr2if, nodes, switches, nextHop)
      ensures Costed(nbr2if, nodes, switches, payload, pairCost)
    {
      for i := 0 to count
        invariant forall h: nat | h < i && h !in switches :: RoutesTo(nbr2if, switches, h, nextHop)
        invariant forall n, h: nat | h >= i || h in switches :: At(nextHop, n, h) == []
        invariant forall h: nat | h < i && h !in switches :: CostsTo(nbr2if, switches, payload, h, pairCost)
      {
        if i !in switches {
          ghost var before, costs := nextHop, pairCost;
          ghost var dis, order := CalculateRoute(i);
          OneMoreHost(nbr2if, switches, i, dis, order, before, nextHop);
          OneMoreCosted(nbr2if, switches, payload, i, dis, costs, pairCost);
        }
      }
    }

    method SetRoutingEntries()
      modifies `tables
      ensures Entered(nbr2if, nextHop, old(tables), tables)
    {
      var rows := nextHop.Keys;
      while rows != {}
        invariant rows <= nextHop.Keys
        invariant EnteredFor(nbr2if, nextHop, old(tables), tables, nextHop.Keys - rows)
      {
        var node :| node in rows;
        EnterRow(node);
        rows := rows - {node};
        assert nextHop.Keys - rows == nextHop.Keys - (rows + {node}) + {node};
      }
    }

    /** The body of the outer loop of SetRoutingEntries: all entries of one node. */
    method EnterRow(node: nat)
      requires node in nextHop
      modifies `tables
      ensures EnteredFor(nbr2if, nextHop, old(tables), tables, {node})
    {
      var columns := nextHop[node].Keys;
      while columns != {}
        invariant columns <= nextHop[node].Keys
        invariant forall n, d :: At(tables, n, d) ==
                                 (if n == node && d !in columns
                                   then Grown(nbr2if, nextHop, old(tables), n, d) else old(At(tables, n, d)))
      {
        var dst :| dst in columns;
        EnterHops(node, dst, nextHop[node][dst]);
        columns := columns - {dst};
      }
    }

    /** The innermost loop of SetRoutingEntries: the entries of one node for one destination. */
    method EnterHops(node: nat, dst: nat, nexts: seq<nat>)
      modifies `tables
      ensures At(tables, node, dst) == old(At(tables, node, dst)) + Ports(nbr2if, node, nexts)
      ensures forall n, a | n != node || a != dst :: At(tables, n, a) == old(At(tables, n, a))
    {
      for k := 0 to |nexts|
        invariant At(tables, node, dst) == old(At(tables, node, dst)) + Ports(nbr2if, node, nexts[..k])
        invariant forall n, a | n != node || a != dst :: At(tables, n, a) == old(At(tables, n, a))
      {
        tables := Push(tables, node, dst, Port(nbr2if, node, nexts[k]));
        assert Ports(nbr2if, node, nexts[..k + 1]) == Ports(nbr2if, node, nexts[..k]) + [Port(nbr2if, node, nexts[k])];
      }
      assert nexts[..|nexts|] == nexts;
    }
  }

  /** A simulation that lives through any sequence of failures and one started on the links that are left have
      the same links, list the same next hops and hold the same ports in every table, up to their order. */
  method FailuresOrScratch(count: nat, switches: set<nat>, payload: nat, links: Links, cuts: seq<(nat, nat)>)
    returns (aged: Simulation, scratch: Simulation)
    requires WellFormed(links, Range(0, count)) && Symmetric(links)
    ensures aged.Valid() && scratch.Valid() && aged.nbr2if == scratch.nbr2if == WithoutAll(links, cuts)
    ensures forall n, d :: multiset(At(aged.nextHop, n, d)) == multiset(At(scratch.nextHop, n, d))
    ensures forall n, d :: multiset(At(aged.tables, n, d)) == multiset(At(scratch.tables, n, d))
  {
    aged := new Simulation(count, switches, payload, links);
    aged.TakeDownLinks(cuts);
    UpAfterCuts(links, Range(0, count), cuts);
    scratch := new Simulation(count, switches, payload, aged.nbr2if);
    forall n: nat, d: nat
      ensures multiset(At(aged.nextHop, n, d)) == multiset(At(scratch.nextHop, n, d))
      ensures multiset(At(aged.tables, n, d)) == multiset(At(scratch.tables, n, d))
    {
      SameHops(aged.nbr2if, aged.nodes, switches, aged.nextHop, scratch.nextHop, n, d);
      SamePorts(aged.nbr2if, aged.nodes, switches, aged.nextHop, scratch.nextHop, aged.tables, scratch.tables, n, d);
    }
  }
}
