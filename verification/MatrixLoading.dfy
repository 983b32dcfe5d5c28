/** The matrices that scratch/third.cc fills from the link lines before it runs Floyd over them. */
module MatrixLoading {
  import opened Basics
  import opened Floyd
  import opened HopChase
  import opened LinkGraph
  import opened FloydPaths
  import Division
  import FatTree

  datatype Matrices = Matrices(bws: Matrix, pd: Matrix, td: Matrix, hops: Matrix)

  /** Bits of a full packet over bits per nanosecond. */
  function SendTime(mtu: nat, l: FatTree.Link): nat
    requires l.bw > 0
  {
    mtu * 8 / l.bw
  }

  predicate Sized(m: Matrix, n: nat) {
    |m| == n && Square(m)
  }

  predicate AllSized(m: Matrices, n: nat) {
    Sized(m.bws, n) && Sized(m.pd, n) && Sized(m.td, n) && Sized(m.hops, n)
  }

  /** Rate, delay, sending time and hop between two nodes are those of one line. */
  predicate FromLine(m: Matrices, l: FatTree.Link, mtu: nat, x: nat, y: nat)
    requires AllSized(m, |m.bws|) && x < |m.bws| && y < |m.bws| && l.bw > 0
  {
    m.bws[x][y] == l.bw && m.pd[x][y] == l.dl && m.td[x][y] == SendTime(mtu, l) && m.hops[x][y] == y
  }

  /** Linked nodes have the values of the last of the first `n` lines between them, others the sentinel. */
  predicate FilledAt(m: Matrices, links: seq<FatTree.Link>, n: nat, mtu: nat, x: nat, y: nat)
    requires AllSized(m, |m.bws|) && x < |m.bws| && y < |m.bws| && n <= |links| && forall l | l in links :: l.bw > 0
  {
    var k := LastLine(links, n, x, y);
    if x == y then m.bws[x][y] == m.pd[x][y] == m.td[x][y] == m.hops[x][y] == 0
    else if k.Some? then FromLine(m, links[k.value], mtu, x, y)
    else m.bws[x][y] == m.pd[x][y] == m.td[x][y] == m.hops[x][y] == INF
  }

  /** The first `n` lines are in. */
  ghost predicate Filled(m: Matrices, links: seq<FatTree.Link>, n: nat, count: nat, mtu: nat) {
    && n <= |links| && (forall l | l in links :: l.bw > 0) && AllSized(m, count)
    && forall x: nat, y: nat | x < count && y < count :: FilledAt(m, links, n, mtu, x, y)
  }

  function Blank(count: nat): (m: Matrix)
    ensures Sized(m, count) && forall x, y | 0 <= x < count && 0 <= y < count :: m[x][y] == if x == y then 0 else INF
  {
    seq(count, x => seq(count, y => if x == y then 0 else INF))
  }

  /** The two assignments that enter a value in both directions. */
  function PutBoth(m: Matrix, x: nat, y: nat, there: nat, back: nat): Matrix
    requires Sized(m, |m|) && x < |m| && y < |m|
  {
    Put(Put(m, x, y, there), y, x, back)
  }

  method LoadMatrices(count: nat, links: seq<FatTree.Link>, mtu: nat) returns (m: Matrices)
    requires forall l | l in links :: l.src < l.dst < count && l.bw > 0
    ensures Filled(m, links, |links|, count, mtu) && Entered(m, links, count, mtu)
  {
    var blank := Blank(count);
    m := Matrices(blank, blank, blank, blank);
    for i := 0 to |links|
      invariant Filled(m, links, i, count, mtu)
    {
      var l := links[i];
      ghost var before := m;
      m := EnterLine(m, l, mtu);
      OneMoreLine(before, m, links, i, count, mtu);
    }
    FilledEntered(m, links, count, mtu);
  }

  /** What the matrices hold, line by line: unless a later line joins the same nodes, rate, delay, sending time and hop
      of the line stand in both directions; between nodes that no line joins there is the sentinel. */
  ghost predicate Entered(m: Matrices, links: seq<FatTree.Link>, count: nat, mtu: nat)
    requires AllSized(m, count) && forall l | l in links :: l.src < l.dst < count && l.bw > 0
  {
    && (forall k: nat | k < |links| && LastOfItsNodes(links, k) ::
          && EntryOf(m, links, k, count, mtu, links[k].src, links[k].dst)
          && EntryOf(m, links, k, count, mtu, links[k].dst, links[k].src))
    && (forall x: nat, y: nat | x < count && y < count && x != y && !LinkBetween(links, |links|, x, y) ::
          m.bws[x][y] == m.pd[x][y] == m.td[x][y] == m.hops[x][y] == 0x3fff_ffff)
    && (forall x | 0 <= x < count :: m.bws[x][x] == m.pd[x][x] == m.td[x][x] == m.hops[x][x] == 0)
  }

  ghost predicate EntryOf(m: Matrices, links: seq<FatTree.Link>, k: nat, count: nat, mtu: nat, x: nat, y: nat)
    requires AllSized(m, count) && k < |links| && x < count && y < count && links[k].bw > 0
  {
    && m.bws[x][y] == links[k].bw && m.pd[x][y] == links[k].dl && m.td[x][y] == mtu * 8 / links[k].bw
    && m.hops[x][y] == y
  }

  lemma FilledEntered(m: Matrices, links: seq<FatTree.Link>, count: nat, mtu: nat)
    requires Filled(m, links, |links|, count, mtu) && forall l | l in links :: l.src < l.dst < count
    ensures Entered(m, links, count, mtu)
  {
    forall k: nat | k < |links| && LastOfItsNodes(links, k)
      ensures EntryOf(m, links, k, count, mtu, links[k].src, links[k].dst)
      ensures EntryOf(m, links, k, count, mtu, links[k].dst, links[k].src) {
      assert FilledAt(m, links, |links|, mtu, links[k].src, links[k].dst);
      assert FilledAt(m, links, |links|, mtu, links[k].dst, links[k].src);
    }
    forall x: nat, y: nat | x < count && y < count && x != y && !LinkBetween(links, |links|, x, y)
      ensures m.bws[x][y] == m.pd[x][y] == m.td[x][y] == m.hops[x][y] == 0x3fff_ffff {
      assert FilledAt(m, links, |links|, mtu, x, y);
    }
    forall x: nat | x < count ensures m.bws[x][x] == m.pd[x][x] == m.td[x][x] == m.hops[x][x] == 0 {
      assert FilledAt(m, links, |links|, mtu, x, x);
    }
  }

  function EnterLine(m: Matrices, l: FatTree.Link, mtu: nat): Matrices
    requires AllSized(m, |m.bws|) && l.src < l.dst < |m.bws| && l.bw > 0
  {
    Matrices(PutBoth(m.bws, l.src, l.dst, l.bw, l.bw), PutBoth(m.pd, l.src, l.dst, l.dl, l.dl),
             PutBoth(m.td, l.src, l.dst, SendTime(mtu, l), SendTime(mtu, l)),
               PutBoth(m.hops, l.src, l.dst, l.dst, l.src))
  }

  lemma OneMoreLine(m: Matrices, m': Matrices, links: seq<FatTree.Link>, i: nat, count: nat, mtu: nat)
    requires i < |links| && Filled(m, links, i, count, mtu) && links[i].src < links[i].dst < count
    requires m' == EnterLine(m, links[i], mtu)
    ensures Filled(m', links, i + 1, count, mtu)
  {
    var n := i + 1;
    forall x: nat, y: nat | x < count && y < count ensures FilledAt(m', links, n, mtu, x, y) {
      assert FilledAt(m, links, i, mtu, x, y);
      EnteredAt(m, links, i, mtu, x, y);
    }
  }

  lemma EnteredAt(m: Matrices, links: seq<FatTree.Link>, i: nat, mtu: nat, x: nat, y: nat)
    requires AllSized(m, |m.bws|) && i < |links| && links[i].src < links[i].dst < |m.bws|
    requires (forall l | l in links :: l.bw > 0) && x < |m.bws| && y < |m.bws| && FilledAt(m, links, i, mtu, x, y)
    ensures AllSized(EnterLine(m, links[i], mtu), |m.bws|)
    ensures FilledAt(EnterLine(m, links[i], mtu), links, i + 1, mtu, x, y)
  {}

  /** If every rate, delay and sending time is below the sentinel, the matrices are what Floyd and the search for
      first links ask for. */
  lemma FilledForFloyd(m: Matrices, links: seq<FatTree.Link>, count: nat, mtu: nat)
    requires Filled(m, links, |links|, count, mtu) && count <= INF
    requires forall l | l in links :: l.bw < INF && l.dl < INF && SendTime(mtu, l) < INF
    ensures HopChase.Loaded(m.bws, m.pd) && HopChase.Loaded(m.bws, m.td) && FreshHops(m.bws, m.hops)
    ensures forall x: nat, y: nat | x < count && y < count && x != y ::
      m.bws[x][y] != INF <==> LinkBetween(links, |links|, x, y)
  {
    forall x: nat, y: nat | x < count && y < count
      ensures m.bws[x][y] <= INF && m.pd[x][y] <= INF && m.td[x][y] <= INF
      ensures m.bws[x][y] == INF <==> m.pd[x][y] == INF
      ensures m.bws[x][y] == INF <==> m.td[x][y] == INF
      ensures m.hops[x][y] == if x == y then 0 else if m.bws[x][y] == INF then INF else y
      ensures x == y ==> m.pd[x][y] == m.td[x][y] == 0
      ensures x != y ==> (m.bws[x][y] != INF <==> LinkBetween(links, |links|, x, y))
    {
      assert FilledAt(m, links, |links|, mtu, x, y);
    }
  }

  /** A path along links from `i` to `x`. */
  ghost predicate LinkPath(links: seq<FatTree.Link>, count: nat, i: nat, x: nat, p: seq<nat>) {
    && p != [] && p[0] == i && Last(p) == x && (forall t | 0 <= t < |p| :: p[t] < count)
    && forall t | 0 <= t < |p| - 1 :: LinkBetween(links, |links|, p[t], p[t + 1])
  }

  ghost predicate Connected(links: seq<FatTree.Link>, count: nat, i: nat) {
    forall x: nat | x < count :: Joinable(links, count, i, x)
  }

  ghost predicate Joinable(links: seq<FatTree.Link>, count: nat, i: nat, x: nat) {
    exists p :: LinkPath(links, count, i, x, p)
  }

  /** A path can be cut short until it visits no node twice. */
  lemma {:induction false} Simple(links: seq<FatTree.Link>, count: nat, i: nat, x: nat, p: seq<nat>)
    returns (q: seq<nat>)
    requires LinkPath(links, count, i, x, p)
    ensures LinkPath(links, count, i, x, q) && NoDuplicates(q)
    decreases |p|
  {
    if NoDuplicates(p) {
      q := p;
    } else {
      var a: nat, b: nat :| a < b < |p| && p[a] == p[b];
      q := Simple(links, count, i, x, p[..a] + p[b..]);
    }
  }

  /** In a connected topology with short enough sending times every node is within reach for the passes. */
  lemma ConnectedReaches(m: Matrices, links: seq<FatTree.Link>, count: nat, mtu: nat, i: nat, bound: nat)
    requires Filled(m, links, |links|, count, mtu) && Connected(links, count, i)
    requires (forall l | l in links :: SendTime(mtu, l) <= bound) && count * bound < INF && bound < INF
    ensures ReachesAll(m.td, i)
  {
    forall x: nat | x < count ensures Reaches(m.td, i, x) {
      assert Joinable(links, count, i, x);
      var p :| LinkPath(links, count, i, x, p);
      var q := Simple(links, count, i, x, p);
      PathWeight(m, links, count, mtu, i, x, q, bound);
    }
  }

  lemma PathWeight(m: Matrices, links: seq<FatTree.Link>, count: nat, mtu: nat, i: nat, x: nat, p: seq<nat>, bound: nat)
    requires Filled(m, links, |links|, count, mtu) && LinkPath(links, count, i, x, p)
    requires NoDuplicates(p)
    requires (forall l | l in links :: SendTime(mtu, l) <= bound) && count * bound < INF && bound < INF
    ensures Reaches(m.td, i, x)
  {
    forall t: nat | t < |p| - 1 ensures m.td[p[t]][p[t + 1]] <= bound {
      assert p[t] != p[t + 1];
      LinkTime(m, links, count, mtu, p[t], p[t + 1], bound);
    }
    WeightBound(m.td, p, bound);
    NoDuplicatesFit(p, Range(0, count));
    Division.MulMonotone(|p| - 1, count, bound);
    assert LinkWalk(m.td, i, x, p);
  }

  lemma LinkTime(m: Matrices, links: seq<FatTree.Link>, count: nat, mtu: nat, x: nat, y: nat, bound: nat)
    requires Filled(m, links, |links|, count, mtu) && x < count && y < count && x != y
    requires LinkBetween(links, |links|, x, y) && forall l | l in links :: SendTime(mtu, l) <= bound
    ensures m.td[x][y] <= bound
  {
    assert FilledAt(m, links, |links|, mtu, x, y);
    assert links[LastLine(links, |links|, x, y).value] in links;
  }

  lemma {:induction false} WeightBound(w: Matrix, p: seq<nat>, bound: nat)
    requires Square(w) && p != [] && forall t | 0 <= t < |p| :: p[t] < |w|
    requires forall t: nat | t < |p| - 1 :: w[p[t]][p[t + 1]] <= bound
    ensures Weight(w, p) <= (|p| - 1) * bound
  {
    if |p| > 1 {
      var n := |p| - 2;
      WeightBound(w, p[..n + 1], bound);
      assert w[p[n]][p[n + 1]] <= bound;
      assert (n + 1) * bound == n * bound + bound;
    }
  }

  /** What the search from `i` asks of a file: lines go up and have a rate, the nodes are connected, and no walk without
      a repeated node takes as long as the sentinel. */
  ghost predicate Searchable(links: seq<FatTree.Link>, count: nat, mtu: nat, i: nat) {
    exists bound :: SearchableWithin(links, count, mtu, i, bound)
  }

  ghost predicate SearchableWithin(links: seq<FatTree.Link>, count: nat, mtu: nat, i: nat, bound: nat) {
    && (forall l | l in links :: l.src < l.dst < count && 0 < l.bw < INF && l.dl < INF && SendTime(mtu, l) <= bound)
    && count <= INF && count * bound < INF && bound < INF
    && i < count && Connected(links, count, i)
  }

  /** Loading, both passes and the search for the first link, on a connected topology: the link found joins `i` to
      the node that the loaded matrices determine, and its rate is that of the last line between the two. */
  method LoadAndFindLink(count: nat, links: seq<FatTree.Link>, mtu: nat, i: nat, j: nat)
    returns (ghost m: Matrices, link: nat, hop: nat)
    requires Searchable(links, count, mtu, i) && j < count && i != j
    ensures Filled(m, links, |links|, count, mtu) && Loaded(m.bws, m.pd) && Loaded(m.bws, m.td)
    ensures hop == FirstLink(m.bws, m.td, i, Start(m.pd, m.td, i, j))
    ensures !DetourKept(m.bws, m.pd, m.td, i, j) ==> OnLightest(m.td, i, hop, j)
    ensures DetourKept(m.bws, m.pd, m.td, i, j) ==>
      Detoured(m.bws, m.pd, m.td, i, j, Start(m.pd, m.td, i, j), hop)
    ensures LastLine(links, |links|, i, hop).Some? && link == links[LastLine(links, |links|, i, hop).value].bw
  {
    ghost var bound :| SearchableWithin(links, count, mtu, i, bound);
    var loaded := LoadMatrices(count, links, mtu);
    m := loaded;
    FilledForFloyd(m, links, count, mtu);
    ConnectedReaches(m, links, count, mtu, i, bound);
    var pd := new seq<nat>[count](k requires 0 <= k < count => loaded.pd[k]);
    var td := new seq<nat>[count](k requires 0 <= k < count => loaded.td[k]);
    var hops := new seq<nat>[count](k requires 0 <= k < count => loaded.hops[k]);
    assert pd[..] == m.pd && td[..] == m.td && hops[..] == m.hops;
    link, hop := FirstLinkTwoPasses(pd, td, hops, loaded.bws, i, j);
    assert FilledAt(m, links, |links|, mtu, i, hop);
  }

  ghost predicate EqualDelays(links: seq<FatTree.Link>) {
    forall k, l | k in links && l in links :: k.dl == l.dl
  }

  lemma NoDetourLoaded(m: Matrices, links: seq<FatTree.Link>, count: nat, mtu: nat, i: nat, j: nat)
    requires Filled(m, links, |links|, count, mtu) && Loaded(m.bws, m.pd) && EqualDelays(links)
    requires i < count && j < count
    ensures !DetourKept(m.bws, m.pd, m.td, i, j)
  {
    var d := if links == [] then 0 else links[0].dl;
    forall x: nat, y: nat | x < count && y < count && x != y && m.bws[x][y] != INF ensures m.pd[x][y] == d {
      assert FilledAt(m, links, |links|, mtu, x, y);
      assert links[LastLine(links, |links|, x, y).value] in links;
    }
    NoDetour(m.bws, m.pd, m.td, i, j, d);
  }

  /** The same where all links have the same delay: the neighbour found is always on a walk of least sending time. */
  method LoadAndFindFastest(count: nat, links: seq<FatTree.Link>, mtu: nat, i: nat, j: nat)
    returns (ghost m: Matrices, link: nat, hop: nat)
    requires Searchable(links, count, mtu, i) && j < count && i != j && EqualDelays(links)
    ensures Filled(m, links, |links|, count, mtu) && Weights(m.td)
    ensures hop < count && OnLightest(m.td, i, hop, j)
    ensures LastLine(links, |links|, i, hop).Some? && link == links[LastLine(links, |links|, i, hop).value].bw
  {
    m, link, hop := LoadAndFindLink(count, links, mtu, i, j);
    NoDetourLoaded(m, links, count, mtu, i, j);
  }
}
