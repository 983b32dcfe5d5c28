/** The facts about the breadth-first search of `CalculateRoute` that its loops keep. */
module RouteSearch {
  import opened Basics
  import opened Topology

  type HopTable = map<nat, map<nat, seq<nat>>>

  /** The list a map of maps of lists holds under two keys; a missing key stands for the empty list. */
  function At(t: HopTable, a: nat, b: nat): seq<nat> {
    if a in t && b in t[a] then t[a][b] else []
  }

  function Push(t: HopTable, a: nat, b: nat, x: nat): (r: HopTable)
    ensures forall c, d :: At(r, c, d) == if c == a && d == b then At(t, a, b) + [x] else At(t, c, d)
  {
    var row: map<nat, seq<nat>> := if a in t then t[a] else map[];
    t[a := row[b := At(t, a, b) + [x]]]
  }

  /** The next hops of `n` contributed by the expanded nodes `done`, in the order of their expansion. */
  function HopList(nbr: Links, dis: map<nat, nat>, done: seq<nat>, n: nat): seq<nat> {
    if done == [] then []
    else HopList(nbr, dis, done[..|done| - 1], n) + (if OneCloser(nbr, dis, Last(done), n) then [Last(done)] else [])
  }

  lemma {:induction false} HopListMembers(nbr: Links, dis: map<nat, nat>, done: seq<nat>, n: nat)
    ensures forall m :: m in HopList(nbr, dis, done, n) <==> m in done && OneCloser(nbr, dis, m, n)
    ensures NoDuplicates(done) ==> NoDuplicates(HopList(nbr, dis, done, n))
  {
    if done != [] {
      var front := done[..|done| - 1];
      HopListMembers(nbr, dis, front, n);
      assert done == front + [Last(done)];
      if NoDuplicates(done) {
        assert Last(done) !in front;
      }
    }
  }

  /** The shape of the queue: `at` gives the place of every expanded node in `q`; from place `i` on come
      the nodes at distance `level`, and from place `turn` on those one hop farther. */
  ghost predicate Queue(switches: set<nat>, root: nat, q: seq<nat>, i: nat, dis: map<nat, nat>, at: map<nat, nat>,
                        level: nat, turn: nat)
  {
    && q != [] && q[0] == root && root in dis && dis[root] == 0
    && (forall m :: m in at <==> Expanded(switches, root, dis, m))
    && (forall m | m in at :: at[m] < |q| && q[at[m]] == m)
    && (forall a {:trigger at[q[a]]} {:trigger q[a] in at} | 0 <= a < |q| :: q[a] in at && at[q[a]] == a)
    && i <= turn <= |q| && (i < |q| ==> i < turn)
    && (forall a | i <= a < |q| :: q[a] in dis && dis[q[a]] == if a < turn then level else level + 1)
    && (forall n | n in dis :: dis[n] <= level + 1)
  }

  /** Links out of the nodes before place `i`, and those from q[i] to the nodes `seen`, have been followed. */
  ghost predicate Followed(nbr: Links, i: nat, seen: set<nat>, dis: map<nat, nat>, at: map<nat, nat>) {
    forall m, n {:trigger Up(nbr, m, n)} | m in at && m in dis && Up(nbr, m, n)
      && (at[m] < i || (at[m] == i && n in seen)) :: n in dis && dis[n] <= dis[m] + 1
  }

  /** The next hop that `now` is for `n` once `seen` have been looked at. */
  function Hop(nbr: Links, dis: map<nat, nat>, seen: set<nat>, now: nat, n: nat): seq<nat> {
    if n in seen && OneCloser(nbr, dis, now, n) then [now] else []
  }

  lemma {:induction false} HopListStable(nbr: Links, dis: map<nat, nat>, done: seq<nat>, n: nat, x: nat, d: nat)
    requires x !in dis && (forall m | m in done :: m in dis && !Up(nbr, m, x))
    ensures HopList(nbr, dis, done, n) == HopList(nbr, dis[x := d], done, n)
  {
    if done != [] {
      HopListStable(nbr, dis, done[..|done| - 1], n, x, d);
      assert Last(done) in done;
    }
  }

  /** A node met for the first time goes one hop beyond the one being expanded, to the back of the queue if it is a
      switch. */
  lemma Enqueue(switches: set<nat>, root: nat, q: seq<nat>, i: nat, dis: map<nat, nat>, at: map<nat, nat>, level: nat,
                turn: nat, x: nat)
    requires Queue(switches, root, q, i, dis, at, level, turn) && i < |q| && x !in dis && q[i] in dis
    ensures x in switches ==> Queue(switches, root, q + [x], i, dis[x := dis[q[i]] + 1], at[x := |q|], level, turn)
    ensures x !in switches ==> Queue(switches, root, q, i, dis[x := dis[q[i]] + 1], at, level, turn)
  {
    assert q[i] in at;
    forall a | 0 <= a < |q| ensures q[a] != x {
      assert q[a] in at;
    }
  }

  lemma AllRelaxed(nbr: Links, switches: set<nat>, root: nat, q: seq<nat>, dis: map<nat, nat>, at: map<nat, nat>,
                   level: nat, p: seq<nat>)
    requires Queue(switches, root, q, |q|, dis, at, level, |q|) && Followed(nbr, |q|, {}, dis, at)
    requires Route(nbr, switches, root, p)
    ensures Last(p) in dis && dis[Last(p)] <= |p| - 1
  {
    if |p| > 1 {
      var front := p[..|p| - 1];
      AllRelaxed(nbr, switches, root, q, dis, at, level, front);
      assert Expanded(switches, root, dis, Last(front));
      assert Up(nbr, Last(front), Last(p));
    }
  }

  function ClearRow(t: HopTable, a: nat): (r: HopTable)
    ensures forall c, d :: At(r, c, d) == if c == a then [] else At(t, c, d)
  {
    t[a := map[]]
  }

  /** Time on the wire and bottleneck rate gathered along a path, as the search adds them up. */
  datatype Cost = Cost(delay: nat, txDelay: nat, bw: nat)

  const MAX_BW: nat := 0xffff_ffff_ffff_ffff

  function Min(a: nat, b: nat): nat { if a < b then a else b }

  /** The time a packet of `payload` bytes takes on a link of rate `bw`; links that are up have a positive rate. */
  function TxTime(payload: nat, bw: nat): nat {
    if bw == 0 then 0 else payload * 1_000_000_000 * 8 / bw
  }

  function Extend(c: Cost, link: Interface, payload: nat): Cost {
    Cost(c.delay + link.delay, c.txDelay + TxTime(payload, link.bw), Min(c.bw, link.bw))
  }

  /** The cost of the path `p`, link by link from its start. */
  ghost function PathCost(nbr: Links, p: seq<nat>, payload: nat): Cost {
    if |p| <= 1 then Cost(0, 0, MAX_BW)
    else
      var a, b := p[|p| - 2], p[|p| - 1];
      var before := PathCost(nbr, p[..|p| - 1], payload);
      if Up(nbr, a, b) then Extend(before, nbr[a][b], payload) else before
  }

  /** Every step of `p` is over a link that is up and has a rate. */
  ghost predicate OverLinks(nbr: Links, p: seq<nat>) {
    forall i | 0 <= i < |p| - 1 :: Up(nbr, p[i], p[i + 1]) && nbr[p[i]][p[i + 1]].bw > 0
  }

  /** Link number `i` of `p`. */
  ghost function LinkAfter(nbr: Links, p: seq<nat>, i: nat): Interface
    requires OverLinks(nbr, p) && i < |p| - 1
  {
    assert Up(nbr, p[i], p[i + 1]);
    nbr[p[i]][p[i + 1]]
  }

  /** The delays of the first `n` links along `p` together. */
  ghost function DelaySum(nbr: Links, p: seq<nat>, n: nat): nat
    requires OverLinks(nbr, p) && n < |p|
  {
    if n == 0 then 0 else DelaySum(nbr, p, n - 1) + LinkAfter(nbr, p, n - 1).delay
  }

  /** The nanoseconds that the first `n` links along `p` take together to send `payload` bytes; rates are in bits per
      second. */
  ghost function SendSum(nbr: Links, p: seq<nat>, n: nat, payload: nat): nat
    requires OverLinks(nbr, p) && n < |p|
  {
    if n == 0 then 0
    else
      assert Up(nbr, p[n - 1], p[n - 1 + 1]);
      SendSum(nbr, p, n - 1, payload) + payload * 1_000_000_000 * 8 / LinkAfter(nbr, p, n - 1).bw
  }

  /** `rate` is the lowest rate of the first `n` links along `p`, or the largest 64-bit number if that is lower. */
  ghost predicate Bottleneck(nbr: Links, p: seq<nat>, n: nat, rate: nat)
    requires OverLinks(nbr, p) && n < |p|
  {
    && rate <= 0xffff_ffff_ffff_ffff
    && (forall i: nat | i < n :: rate <= LinkAfter(nbr, p, i).bw)
    && (rate == 0xffff_ffff_ffff_ffff || exists i: nat :: i < n && rate == LinkAfter(nbr, p, i).bw)
  }

  /** What a cost says about a path: delays and sending times add up, and the slowest link sets the rate. */
  ghost predicate CostOver(nbr: Links, p: seq<nat>, payload: nat, c: Cost)
    requires OverLinks(nbr, p) && p != []
  {
    && c.delay == DelaySum(nbr, p, |p| - 1) && c.txDelay == SendSum(nbr, p, |p| - 1, payload)
    && Bottleneck(nbr, p, |p| - 1, c.bw)
  }

  lemma PathCostMeans(nbr: Links, p: seq<nat>, payload: nat)
    requires OverLinks(nbr, p) && p != []
    ensures CostOver(nbr, p, payload, PathCost(nbr, p, payload))
  {
    PrefixSums(nbr, p, |p| - 1, payload);
    PrefixBottleneck(nbr, p, |p| - 1, payload);
    assert p[..|p|] == p;
  }

  lemma {:induction false} PrefixSums(nbr: Links, p: seq<nat>, n: nat, payload: nat)
    requires OverLinks(nbr, p) && n < |p|
    ensures PathCost(nbr, p[..n + 1], payload).delay == DelaySum(nbr, p, n)
    ensures PathCost(nbr, p[..n + 1], payload).txDelay == SendSum(nbr, p, n, payload)
  {
    if n > 0 {
      PrefixSums(nbr, p, n - 1, payload);
      OneMoreLink(nbr, p, n, payload);
    }
  }

  lemma {:induction false} PrefixBottleneck(nbr: Links, p: seq<nat>, n: nat, payload: nat)
    requires OverLinks(nbr, p) && n < |p|
    ensures Bottleneck(nbr, p, n, PathCost(nbr, p[..n + 1], payload).bw)
  {
    if n > 0 {
      PrefixBottleneck(nbr, p, n - 1, payload);
      OneMoreLink(nbr, p, n, payload);
      NextBottleneck(nbr, p, n, PathCost(nbr, p[..n], payload).bw);
    }
  }

  lemma OneMoreLink(nbr: Links, p: seq<nat>, n: nat, payload: nat)
    requires OverLinks(nbr, p) && 0 < n < |p|
    ensures var l := LinkAfter(nbr, p, n - 1);
      var c, c' := PathCost(nbr, p[..n], payload), PathCost(nbr, p[..n + 1], payload);
      && l.bw > 0 && c'.delay == c.delay + l.delay && c'.bw == (if c.bw < l.bw then c.bw else l.bw)
      && c'.txDelay == c.txDelay + payload * 1_000_000_000 * 8 / l.bw
  {
    assert p[..n + 1][..n] == p[..n];
    assert Up(nbr, p[n - 1], p[n - 1 + 1]);
  }

  lemma NextBottleneck(nbr: Links, p: seq<nat>, n: nat, rate: nat)
    requires OverLinks(nbr, p) && 0 < n < |p| && Bottleneck(nbr, p, n - 1, rate)
    ensures var last := LinkAfter(nbr, p, n - 1).bw; Bottleneck(nbr, p, n, if rate < last then rate else last)
  {
    var last := LinkAfter(nbr, p, n - 1).bw;
    if rate < last && rate != 0xffff_ffff_ffff_ffff {
      var i: nat :| i < n - 1 && rate == LinkAfter(nbr, p, i).bw;
    }
  }

  /** `p` is a shortest route to `n` and `c` is its cost. */
  ghost predicate Measured(nbr: Links, switches: set<nat>, root: nat, dis: map<nat, nat>, payload: nat, n: nat, c: Cost,
                           p: seq<nat>)
  {
    && n in dis && Route(nbr, switches, root, p) && Last(p) == n && |p| - 1 == dis[n]
    && PathCost(nbr, p, payload) == c
  }

  ghost predicate ShortestCost(nbr: Links, switches: set<nat>, root: nat, dis: map<nat, nat>, payload: nat, n: nat,
                               c: Cost)
  {
    exists p :: Measured(nbr, switches, root, dis, payload, n, c, p)
  }

  /** `n` was found from the expanded node `m` one hop closer, and its cost adds their link to that node's cost. */
  ghost predicate FoundFrom(nbr: Links, switches: set<nat>, payload: nat, root: nat, dis: map<nat, nat>,
                            cost: map<nat, Cost>, n: nat, m: nat)
  {
    && n in dis && m in dis && n in cost && m in cost && Up(nbr, m, n)
    && (m == root || m in switches)
    && dis[n] == dis[m] + 1 && cost[n] == Extend(cost[m], nbr[m][n], payload)
  }

  ghost predicate Found(nbr: Links, switches: set<nat>, payload: nat, root: nat, dis: map<nat, nat>,
                        cost: map<nat, Cost>, n: nat)
  {
    n == root || exists m :: FoundFrom(nbr, switches, payload, root, dis, cost, n, m)
  }

  ghost predicate SearchTree(nbr: Links, switches: set<nat>, payload: nat, root: nat, dis: map<nat, nat>,
                             cost: map<nat, Cost>)
  {
    && root in dis && dis[root] == 0 && root in cost && cost[root] == Cost(0, 0, MAX_BW)
    && forall n {:trigger Found(nbr, switches, payload, root, dis, cost, n)} | n in dis ::
      Found(nbr, switches, payload, root, dis, cost, n)
  }

  lemma GrowTree(nbr: Links, switches: set<nat>, payload: nat, root: nat, dis: map<nat, nat>, cost: map<nat, Cost>,
                 m: nat, x: nat)
    requires SearchTree(nbr, switches, payload, root, dis, cost)
    requires m in dis && m in cost && (m == root || m in switches) && Up(nbr, m, x) && x !in dis
    ensures SearchTree(nbr, switches, payload, root, dis[x := dis[m] + 1],
                       cost[x := Extend(cost[m], nbr[m][x], payload)])
  {
    var dis' := dis[x := dis[m] + 1];
    var cost' := cost[x := Extend(cost[m], nbr[m][x], payload)];
    forall n | n in dis' ensures Found(nbr, switches, payload, root, dis', cost', n) {
      if n == x {
        assert FoundFrom(nbr, switches, payload, root, dis', cost', x, m);
      } else if n != root {
        assert Found(nbr, switches, payload, root, dis, cost, n);
        var p :| FoundFrom(nbr, switches, payload, root, dis, cost, n, p);
        assert FoundFrom(nbr, switches, payload, root, dis', cost', n, p);
      }
    }
  }

  /** The branch of the search tree that leads to `n` is a shortest route and has the recorded cost. */
  lemma {:induction false} TreePath(nbr: Links, switches: set<nat>, payload: nat, root: nat, dis: map<nat, nat>,
                                    cost: map<nat, Cost>, n: nat)
    returns (p: seq<nat>)
    requires SearchTree(nbr, switches, payload, root, dis, cost) && n in dis
    ensures n in cost && Measured(nbr, switches, root, dis, payload, n, cost[n], p)
    decreases dis[n]
  {
    if n == root {
      p := [root];
    } else {
      assert Found(nbr, switches, payload, root, dis, cost, n);
      var m :| FoundFrom(nbr, switches, payload, root, dis, cost, n, m);
      var b := TreePath(nbr, switches, payload, root, dis, cost, m);
      p := b + [n];
      assert p[..|b|] == b;
      assert m == root ==> |b| == 1;
    }
  }

  /** `after` is `before` with the next hops towards `host` that the expanded nodes `done` stand for added at the
      back. */
  ghost predicate Collected(nbr: Links, dist: map<nat, nat>, done: seq<nat>, host: nat, before: HopTable,
                            after: HopTable)
  {
    forall n, h :: At(after, n, h) == At(before, n, h) + (if h == host then HopList(nbr, dist, done, n) else [])
  }

  /** The same in the middle of expanding `now`, with its neighbours `seen` dealt with. */
  ghost predicate Collecting(nbr: Links, dist: map<nat, nat>, done: seq<nat>, now: nat, seen: set<nat>, host: nat,
                             before: HopTable, after: HopTable)
  {
    forall n, h :: CollectingAt(nbr, dist, done, now, seen, host, before, after, n, h)
  }

  predicate CollectingAt(nbr: Links, dist: map<nat, nat>, done: seq<nat>, now: nat, seen: set<nat>, host: nat,
                         before: HopTable, after: HopTable, n: nat, h: nat)
  {
    At(after, n, h) == At(before, n, h) + (if h == host then HopList(nbr, dist, done, n) + Hop(nbr, dist, seen, now, n)
                                           else [])
  }

  lemma CollectNew(nbr: Links, q: seq<nat>, i: nat, seen: set<nat>, dist: map<nat, nat>, x: nat, host: nat,
                   before: HopTable, after: HopTable)
    requires i < |q| && x !in dist && x !in seen
    requires forall a | 0 <= a < |q| :: q[a] in dist
    requires forall a | 0 <= a < i :: !Up(nbr, q[a], x)
    requires Collecting(nbr, dist, q[..i], q[i], seen, host, before, after)
    ensures Collecting(nbr, dist[x := dist[q[i]] + 1], q[..i], q[i], seen, host, before, after)
  {
    var dist' := dist[x := dist[q[i]] + 1];
    forall n: nat, h: nat ensures CollectingAt(nbr, dist', q[..i], q[i], seen, host, before, after, n, h) {
      assert CollectingAt(nbr, dist, q[..i], q[i], seen, host, before, after, n, h);
      HopsStable(nbr, dist, q[..i], q[i], seen, x, dist[q[i]] + 1, n);
    }
  }

  lemma HopsStable(nbr: Links, dist: map<nat, nat>, done: seq<nat>, now: nat, seen: set<nat>, x: nat, d: nat, n: nat)
    requires x !in dist && x !in seen && now in dist && (forall m | m in done :: m in dist && !Up(nbr, m, x))
    ensures HopList(nbr, dist[x := d], done, n) == HopList(nbr, dist, done, n)
    ensures Hop(nbr, dist[x := d], seen, now, n) == Hop(nbr, dist, seen, now, n)
  {
    HopListStable(nbr, dist, done, n, x, d);
  }

  lemma CollectHop(nbr: Links, dist: map<nat, nat>, done: seq<nat>, now: nat, seen: set<nat>, x: nat, host: nat,
                   before: HopTable, after: HopTable)
    requires x !in seen && Collecting(nbr, dist, done, now, seen, host, before, after)
    ensures Collecting(nbr, dist, done, now, seen + {x}, host, before, if OneCloser(nbr, dist, now, x)
                       then Push(after, x, host, now) else after)
  {
    var after' := if OneCloser(nbr, dist, now, x) then Push(after, x, host, now) else after;
    forall n: nat, h: nat ensures CollectingAt(nbr, dist, done, now, seen + {x}, host, before, after', n, h) {
      assert CollectingAt(nbr, dist, done, now, seen, host, before, after, n, h);
    }
  }

  lemma Started(nbr: Links, dist: map<nat, nat>, done: seq<nat>, now: nat, host: nat, before: HopTable, after: HopTable)
    requires Collected(nbr, dist, done, host, before, after)
    ensures Collecting(nbr, dist, done, now, {}, host, before, after)
  {
    forall n: nat, h: nat ensures CollectingAt(nbr, dist, done, now, {}, host, before, after, n, h) {
      assert HopList(nbr, dist, done, n) + [] == HopList(nbr, dist, done, n);
    }
  }

  lemma Finished(nbr: Links, dist: map<nat, nat>, q: seq<nat>, i: nat, host: nat, before: HopTable, after: HopTable)
    requires i < |q|
    requires Collecting(nbr, dist, q[..i], q[i], Neighbours(nbr, q[i]), host, before, after)
    ensures Collected(nbr, dist, q[..i + 1], host, before, after)
  {
    forall n: nat, h: nat
      ensures At(after, n, h) == At(before, n, h) + (if h == host then HopList(nbr, dist, q[..i + 1], n) else [])
    {
      assert CollectingAt(nbr, dist, q[..i], q[i], Neighbours(nbr, q[i]), host, before, after, n, h);
      assert q[..i + 1][..i] == q[..i];
    }
  }

  /** The places of the expanded nodes in the queue, the distance of the node in turn, and the place from
      which on the queue is one hop farther. */
  datatype Marks = Marks(at: map<nat, nat>, level: nat, turn: nat)

  /** What is known about the nodes met while `q[i]` is being expanded and its neighbours `seen` have been looked at. */
  ghost predicate Witnessed(nbr: Links, nodes: set<nat>, switches: set<nat>, payload: nat, host: nat,
                            q: seq<nat>, i: nat, seen: set<nat>, dist: map<nat, nat>, cost: map<nat, Cost>, w: Marks)
  {
    && Queue(switches, host, q, i, dist, w.at, w.level, w.turn)
    && Followed(nbr, i, seen, dist, w.at)
    && dist.Keys == cost.Keys && dist.Keys <= nodes
    && SearchTree(nbr, switches, payload, host, dist, cost)
  }

  /** The same, without naming the places in the queue, the current level and the search tree. */
  ghost predicate Expanding(nbr: Links, nodes: set<nat>, switches: set<nat>, payload: nat, host: nat,
                            q: seq<nat>, i: nat, seen: set<nat>, dist: map<nat, nat>, cost: map<nat, Cost>)
  {
    exists w :: Witnessed(nbr, nodes, switches, payload, host, q, i, seen, dist, cost, w)
  }

  lemma Begin(nbr: Links, nodes: set<nat>, switches: set<nat>, payload: nat, host: nat, before: HopTable)
    requires host in nodes
    ensures Expanding(nbr, nodes, switches, payload, host, [host], 0, {}, map[host := 0],
                      map[host := Cost(0, 0, MAX_BW)])
    ensures Collected(nbr, map[host := 0], [], host, before, before)
  {
    assert Witnessed(nbr, nodes, switches, payload, host, [host], 0, {}, map[host := 0],
                     map[host := Cost(0, 0, MAX_BW)], Marks(map[host := 0], 0, 1));
  }

  /** Looking at a neighbour that is cut off or has been met before. */
  lemma Look(nbr: Links, nodes: set<nat>, switches: set<nat>, payload: nat, host: nat,
             q: seq<nat>, i: nat, seen: set<nat>, dist: map<nat, nat>, cost: map<nat, Cost>, x: nat)
    requires i < |q| && Expanding(nbr, nodes, switches, payload, host, q, i, seen, dist, cost)
    requires Up(nbr, q[i], x) ==> x in dist
    ensures Expanding(nbr, nodes, switches, payload, host, q, i, seen + {x}, dist, cost)
  {
    var w :| Witnessed(nbr, nodes, switches, payload, host, q, i, seen, dist, cost, w);
    assert Witnessed(nbr, nodes, switches, payload, host, q, i, seen + {x}, dist, cost, w);
  }

  /** Meeting the neighbour `x` of q[i] for the first time: a switch joins the queue, a host does not. */
  lemma MeetSwitch(nbr: Links, nodes: set<nat>, switches: set<nat>, payload: nat, host: nat,
             q: seq<nat>, i: nat, seen: set<nat>, dist: map<nat, nat>, cost: map<nat, Cost>, x: nat)
    requires i < |q| && Expanding(nbr, nodes, switches, payload, host, q, i, seen, dist, cost)
    requires x in nodes && Up(nbr, q[i], x) && x !in dist && q[i] in dist && q[i] in cost && x in switches
    ensures Expanding(nbr, nodes, switches, payload, host, q + [x], i, seen, dist[x := dist[q[i]] + 1],
                      cost[x := Extend(cost[q[i]], nbr[q[i]][x], payload)])
  {
    var w :| Witnessed(nbr, nodes, switches, payload, host, q, i, seen, dist, cost, w);
    assert q[i] in w.at;
    GrowTree(nbr, switches, payload, host, dist, cost, q[i], x);
    Enqueue(switches, host, q, i, dist, w.at, w.level, w.turn, x);
    assert Witnessed(nbr, nodes, switches, payload, host, q + [x], i, seen, dist[x := dist[q[i]] + 1],
                     cost[x := Extend(cost[q[i]], nbr[q[i]][x], payload)],
                     w.(at := w.at[x := |q|]));
  }

  lemma MeetHost(nbr: Links, nodes: set<nat>, switches: set<nat>, payload: nat, host: nat,
             q: seq<nat>, i: nat, seen: set<nat>, dist: map<nat, nat>, cost: map<nat, Cost>, x: nat)
    requires i < |q| && Expanding(nbr, nodes, switches, payload, host, q, i, seen, dist, cost)
    requires x in nodes && Up(nbr, q[i], x) && x !in dist && q[i] in dist && q[i] in cost && x !in switches
    ensures Expanding(nbr, nodes, switches, payload, host, q, i, seen, dist[x := dist[q[i]] + 1],
                      cost[x := Extend(cost[q[i]], nbr[q[i]][x], payload)])
  {
    var w :| Witnessed(nbr, nodes, switches, payload, host, q, i, seen, dist, cost, w);
    assert q[i] in w.at;
    GrowTree(nbr, switches, payload, host, dist, cost, q[i], x);
    Enqueue(switches, host, q, i, dist, w.at, w.level, w.turn, x);
    assert Witnessed(nbr, nodes, switches, payload, host, q, i, seen, dist[x := dist[q[i]] + 1],
                     cost[x := Extend(cost[q[i]], nbr[q[i]][x], payload)],
                     w);
  }

  /** With all neighbours of q[i] looked at, the search moves on to the next node in the queue. */
  lemma Leave(nbr: Links, nodes: set<nat>, switches: set<nat>, payload: nat, host: nat,
              q: seq<nat>, i: nat, dist: map<nat, nat>, cost: map<nat, Cost>)
    requires i < |q| && Expanding(nbr, nodes, switches, payload, host, q, i, Neighbours(nbr, q[i]), dist, cost)
    ensures Expanding(nbr, nodes, switches, payload, host, q, i + 1, {}, dist, cost)
  {
    var w :| Witnessed(nbr, nodes, switches, payload, host, q, i, Neighbours(nbr, q[i]), dist, cost, w);
    assert q[i] in w.at;
    var w' := if i + 1 == w.turn then w.(level := w.level + 1, turn := |q|) else w;
    assert Witnessed(nbr, nodes, switches, payload, host, q, i + 1, {}, dist, cost, w');
  }

  /** Nodes in the queue have been met, and `x`, if not met yet, is no neighbour of those already expanded. */
  lemma Queued(nbr: Links, nodes: set<nat>, switches: set<nat>, payload: nat, host: nat,
               q: seq<nat>, i: nat, seen: set<nat>, dist: map<nat, nat>, cost: map<nat, Cost>, x: nat)
    requires Expanding(nbr, nodes, switches, payload, host, q, i, seen, dist, cost)
    ensures dist.Keys == cost.Keys
    ensures forall a | 0 <= a < |q| :: q[a] in dist
    ensures x !in dist ==> forall a | 0 <= a < i && a < |q| :: !Up(nbr, q[a], x)
  {
    var w :| Witnessed(nbr, nodes, switches, payload, host, q, i, seen, dist, cost, w);
    forall a | 0 <= a < |q| ensures q[a] in dist && (a < i && x !in dist ==> !Up(nbr, q[a], x)) {
      assert q[a] in w.at && w.at[q[a]] == a;
    }
  }

  /** The queue lists the nodes to expand, each once. */
  lemma QueueFits(nbr: Links, nodes: set<nat>, switches: set<nat>, payload: nat, host: nat,
                  q: seq<nat>, i: nat, seen: set<nat>, dist: map<nat, nat>, cost: map<nat, Cost>)
    requires Expanding(nbr, nodes, switches, payload, host, q, i, seen, dist, cost)
    ensures NoDuplicates(q)
    ensures forall m :: m in q <==> Expanded(switches, host, dist, m)
    ensures dist.Keys == cost.Keys && |q| <= |nodes|
  {
    var w :| Witnessed(nbr, nodes, switches, payload, host, q, i, seen, dist, cost, w);
    forall a, b | 0 <= a < b < |q| ensures q[a] != q[b] {
      assert q[a] in w.at && q[b] in w.at && w.at[q[a]] == a && w.at[q[b]] == b;
    }
    forall a | 0 <= a < |q| ensures q[a] in nodes {
      assert q[a] in w.at;
    }
    NoDuplicatesFit(q, nodes);
  }

  lemma SearchDone(nbr: Links, nodes: set<nat>, switches: set<nat>, payload: nat, host: nat, q: seq<nat>,
                   dist: map<nat, nat>, cost: map<nat, Cost>)
    requires Expanding(nbr, nodes, switches, payload, host, q, |q|, {}, dist, cost)
    ensures Distances(nbr, switches, host, dist)
    ensures forall n | n in dist :: n in cost && ShortestCost(nbr, switches, host, dist, payload, n, cost[n])
  {
    var w :| Witnessed(nbr, nodes, switches, payload, host, q, |q|, {}, dist, cost, w);
    forall p | Route(nbr, switches, host, p) ensures Last(p) in dist && dist[Last(p)] <= |p| - 1 {
      AllRelaxed(nbr, switches, host, q, dist, w.at, w.level, p);
    }
    forall n | n in dist
      ensures exists p :: Route(nbr, switches, host, p) && Last(p) == n && |p| - 1 == dist[n]
      ensures n in cost && ShortestCost(nbr, switches, host, dist, payload, n, cost[n])
    {
      var p := TreePath(nbr, switches, payload, host, dist, cost, n);
    }
  }

  /** One turn of the inner loop of the search: the node being expanded looks at its neighbour `next`. */
  method Visit(nbr: Links, ghost nodes: set<nat>, switches: set<nat>, payload: nat, host: nat, ghost before: HopTable,
               q: seq<nat>, i: nat, ghost seen: set<nat>, dist: map<nat, nat>, cost: map<nat, Cost>, after: HopTable,
                 next: nat)
    returns (q': seq<nat>, dist': map<nat, nat>, cost': map<nat, Cost>, after': HopTable)
    requires i < |q| && next in Neighbours(nbr, q[i]) && next !in seen && WellFormed(nbr, nodes)
    requires Expanding(nbr, nodes, switches, payload, host, q, i, seen, dist, cost)
    requires Collecting(nbr, dist, q[..i], q[i], seen, host, before, after)
    ensures q <= q'
    ensures Expanding(nbr, nodes, switches, payload, host, q', i, seen + {next}, dist', cost')
    ensures Collecting(nbr, dist', q[..i], q[i], seen + {next}, host, before, after')
  {
    Queued(nbr, nodes, switches, payload, host, q, i, seen, dist, cost, next);
    q', dist', cost', after' := q, dist, cost, after;
    if nbr[q[i]][next].up {
      assert Up(nbr, q[i], next);
      if next !in dist {
        CollectNew(nbr, q, i, seen, dist, next, host, before, after);
        dist' := dist[next := dist[q[i]] + 1];
        cost' := cost[next := Extend(cost[q[i]], nbr[q[i]][next], payload)];
        if next in switches {
          MeetSwitch(nbr, nodes, switches, payload, host, q, i, seen, dist, cost, next);
          q' := q + [next];
        } else {
          MeetHost(nbr, nodes, switches, payload, host, q, i, seen, dist, cost, next);
        }
      }
      if dist'[q[i]] + 1 == dist'[next] {
        after' := Push(after, next, host, q[i]);
      }
    }
    CollectHop(nbr, dist', q[..i], q[i], seen, next, host, before, after);
    Look(nbr, nodes, switches, payload, host, q', i, seen, dist', cost', next);
  }

  lemma PrefixTake(p: seq<nat>, q: seq<nat>, i: nat)
    requires p <= q && i <= |p|
    ensures p[..i] == q[..i]
  {}

  /** The inner loop of the search: all neighbours of the node in turn. */
  method Expand(nbr: Links, ghost nodes: set<nat>, switches: set<nat>, payload: nat, host: nat, ghost before: HopTable,
                q0: seq<nat>, i: nat, dist0: map<nat, nat>, cost0: map<nat, Cost>, nextHop0: HopTable)
    returns (q: seq<nat>, dist: map<nat, nat>, cost: map<nat, Cost>, nextHop: HopTable)
    requires i < |q0| && WellFormed(nbr, nodes)
      && Expanding(nbr, nodes, switches, payload, host, q0, i, {}, dist0, cost0)
    requires Collected(nbr, dist0, q0[..i], host, before, nextHop0)
    ensures i < |q| && Expanding(nbr, nodes, switches, payload, host, q, i + 1, {}, dist, cost)
    ensures Collected(nbr, dist, q[..i + 1], host, before, nextHop)
  {
    q, dist, cost, nextHop := q0, dist0, cost0, nextHop0;
    Started(nbr, dist, q[..i], q[i], host, before, nextHop);
    var now := q[i];
    var rest := Neighbours(nbr, now);
    ghost var seen: set<nat> := {};
    while rest != {}
      invariant i < |q| && now == q[i]
      invariant rest + seen == Neighbours(nbr, now) && rest !! seen
      invariant Expanding(nbr, nodes, switches, payload, host, q, i, seen, dist, cost)
      invariant Collecting(nbr, dist, q[..i], now, seen, host, before, nextHop)
    {
      var next :| next in rest;
      rest := rest - {next};
      ghost var q1 := q;
      q, dist, cost, nextHop :=
        Visit(nbr, nodes, switches, payload, host, before, q, i, seen, dist, cost, nextHop, next);
      seen := seen + {next};
      PrefixTake(q1, q, i);
    }
    assert seen == Neighbours(nbr, now);
    Finished(nbr, dist, q, i, host, before, nextHop);
    Leave(nbr, nodes, switches, payload, host, q, i, dist, cost);
  }

  /** What one search for routes to `host` is to find; `order` is the queue it leaves behind. */
  ghost predicate Result(nbr: Links, switches: set<nat>, payload: nat, host: nat, before: HopTable,
                         dis: map<nat, nat>, order: seq<nat>, cost: map<nat, Cost>, nextHop: HopTable)
  {
    && Distances(nbr, switches, host, dis)
    && NoDuplicates(order) && (forall m :: m in order <==> Expanded(switches, host, dis, m))
    && Collected(nbr, dis, order, host, before, nextHop)
    && cost.Keys == dis.Keys
    && (forall n | n in dis :: ShortestCost(nbr, switches, host, dis, payload, n, cost[n]))
  }

  ghost predicate Searched(nbr: Links, switches: set<nat>, payload: nat, host: nat, before: HopTable,
                           cost: map<nat, Cost>, nextHop: HopTable)
  {
    exists dis, order :: Result(nbr, switches, payload, host, before, dis, order, cost, nextHop)
  }

  lemma ResultOf(nbr: Links, switches: set<nat>, payload: nat, host: nat, before: HopTable, cost: map<nat, Cost>,
                 nextHop: HopTable)
    returns (dis: map<nat, nat>, order: seq<nat>)
    requires Searched(nbr, switches, payload, host, before, cost, nextHop)
    ensures Result(nbr, switches, payload, host, before, dis, order, cost, nextHop)
  {
    dis, order :| Result(nbr, switches, payload, host, before, dis, order, cost, nextHop);
  }

  /** The breadth-first search of CalculateRoute. */
  method Search(nbr: Links, nodes: set<nat>, switches: set<nat>, payload: nat, host: nat, before: HopTable)
    returns (cost: map<nat, Cost>, nextHop: HopTable)
    requires host in nodes && WellFormed(nbr, nodes)
    ensures Searched(nbr, switches, payload, host, before, cost, nextHop)
  {
    var q := [host];
    var dist: map<nat, nat> := map[host := 0];
    cost, nextHop := map[host := Cost(0, 0, MAX_BW)], before;
    var i := 0;
    Begin(nbr, nodes, switches, payload, host, before);
    while i < |q|
      invariant i <= |q| && Expanding(nbr, nodes, switches, payload, host, q, i, {}, dist, cost)
      invariant Collected(nbr, dist, q[..i], host, before, nextHop)
      decreases |nodes| - i
    {
      assert |q| <= |nodes| by { QueueFits(nbr, nodes, switches, payload, host, q, i, {}, dist, cost); }
      q, dist, cost, nextHop := Expand(nbr, nodes, switches, payload, host, before, q, i, dist, cost, nextHop);
      i := i + 1;
    }
    assert q[..i] == q;
    QueueFits(nbr, nodes, switches, payload, host, q, i, {}, dist, cost);
    SearchDone(nbr, nodes, switches, payload, host, q, dist, cost);
    assert Result(nbr, switches, payload, host, before, dist, q, cost, nextHop);
  }
}
