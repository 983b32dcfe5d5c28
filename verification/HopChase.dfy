/** The loops of scratch/third.cc that run Floyd over delays and transmission times with one shared
    hop matrix, and then follow hops until they reach a node that `i` has a link to. */
module HopChase {
  import opened Basics
  import opened Floyd
  import opened FloydPaths

  /** Rates, weights and hops as the topology file fills them: only links have a rate and a weight below INF. */
  ghost predicate Loaded(bws: Matrix, w: Matrix) {
    && Weights(w) && Square(bws) && |bws| == |w| <= INF
    && forall x, y | 0 <= x < |w| && 0 <= y < |w| :: bws[x][y] == INF <==> w[x][y] == INF
  }

  ghost predicate FreshHops(bws: Matrix, h: Matrix) {
    && Square(h) && Square(bws) && |h| == |bws|
    && forall x, y | 0 <= x < |h| && 0 <= y < |h| ::
      h[x][y] == if x == y then 0 else if bws[x][y] == INF then INF else y
  }

  /** `x` can be reached from `i` along links of total weight below INF. */
  ghost predicate Reaches(w: Matrix, i: nat, x: nat) {
    exists p :: LinkWalk(w, i, x, p) && Weight(w, p) < INF
  }

  ghost predicate ReachesAll(w: Matrix, i: nat) {
    forall x | 0 <= x < |w| :: Reaches(w, i, x)
  }

  lemma Finite(w: Matrix, i: nat, x: nat)
    requires Weights(w) && ReachesAll(w, i) && i < |w| && x < |w|
    ensures Dist(w, |w|, i, x) < INF
  {
    assert Reaches(w, i, x);
    var p :| LinkWalk(w, i, x, p) && Weight(w, p) < INF;
    Exact(w, i, x);
  }

  /** A node without a link to `i` that is within reach has an intermediate node recorded, and `hops` names it. */
  ghost predicate Guided(bws: Matrix, w: Matrix, hops: Matrix, i: nat) {
    && Weights(w) && Square(bws) && Square(hops) && |bws| == |w| == |hops| && i < |w| && bws[i][i] != INF
    && forall x | 0 <= x < |w| && bws[i][x] == INF && Dist(w, |w|, i, x) < INF ::
      LastRound(w, |w|, i, x) == Some(hops[i][x])
  }

  /** The recorded intermediate node, counted from 1; 0 if none is recorded. */
  ghost function Mark(w: Matrix, i: nat, x: nat): nat
    requires Square(w) && i < |w| && x < |w|
  {
    var last := LastRound(w, |w|, i, x);
    if last.Some? then last.value + 1 else 0
  }

  /** Where following the intermediate nodes recorded for `w` leads from `x`: to the first node that `i` has a link
      to. */
  ghost function FirstLink(bws: Matrix, w: Matrix, i: nat, x: nat): (y: nat)
    requires Weights(w) && Square(bws) && |bws| == |w| && i < |w| && x < |w|
    ensures y < |w|
    decreases Mark(w, i, x)
  {
    if bws[i][x] != INF || LastRound(w, |w|, i, x) == None then x
    else
      Recorded(w, i, x);
      FirstLink(bws, w, i, LastRound(w, |w|, i, x).value)
  }

  /** A lightest walk from `i` to `j` passes `x`. */
  ghost predicate OnLightest(w: Matrix, i: nat, x: nat, j: nat)
    requires Square(w) && i < |w| && x < |w| && j < |w|
  {
    Dist(w, |w|, i, x) + Dist(w, |w|, x, j) == Dist(w, |w|, i, j)
  }

  /** The loop that replaces a hop by the hop towards it. It ends, because recorded intermediate nodes get
      smaller, and it ends at a node with a direct link that lies on a lightest walk to where it started. */
  method Chase(bws: Matrix, hops: Matrix, ghost w: Matrix, i: nat, j: nat) returns (link: nat, hop: nat)
    requires Guided(bws, w, hops, i) && j < |w| && hops[i][j] < |w| && hops[i][j] != i
    requires Dist(w, |w|, i, hops[i][j]) < INF
    ensures hop < |w| && hop != i && link == bws[i][hop] && link != INF
    ensures hop == FirstLink(bws, w, i, hops[i][j]) && OnLightest(w, i, hop, hops[i][j])
  {
    ghost var start := hops[i][j];
    link := bws[i][hops[i][j]];
    hop := hops[i][j];
    DistBounds(w, |w|, start, start);
    while link == INF
      invariant hop < |w| && hop != i && link == bws[i][hop]
      invariant Dist(w, |w|, i, hop) < INF && OnLightest(w, i, hop, start)
      invariant FirstLink(bws, w, i, hop) == FirstLink(bws, w, i, start)
      decreases if link == INF then Mark(w, i, hop) else 0
    {
      Recorded(w, i, hop);
      Triangle(w, i, hops[i][hop], start);
      Triangle(w, hops[i][hop], hop, start);
      link := bws[i][hops[i][hop]];
      hop := hops[i][hop];
    }
  }

  /** After a pass over `w`, nodes within reach but without a link are guided by that pass, whatever the hops were
      before. */
  lemma GuidedAfterPass(bws: Matrix, w: Matrix, h: Matrix, hops: Matrix, i: nat)
    requires Loaded(bws, w) && Square(h) && |h| == |w| && i < |w|
    requires Square(hops) && |hops| == |w| && forall x, y | 0 <= x < |w| && 0 <= y < |w| ::
      hops[x][y] == Hop(w, h, |w|, x, y)
    ensures Guided(bws, w, hops, i)
  {
    assert w[i][i] == 0;
    forall x | 0 <= x < |w| && bws[i][x] == INF && Dist(w, |w|, i, x) < INF
      ensures LastRound(w, |w|, i, x) == Some(hops[i][x]) {
      LastRoundImproved(w, |w|, i, x);
    }
  }

  /** One pass leaves between distinct nodes the sentinel INF exactly if no walk joins them, and otherwise a node other
      than the first. */
  lemma HopAfterPass(bws: Matrix, w: Matrix, h: Matrix, i: nat, j: nat)
    requires Loaded(bws, w) && Square(h) && |h| == |w| && i < |w| && j < |w| && i != j
    requires h[i][j] == INF || (h[i][j] < |w| && h[i][j] != i)
    requires bws[i][j] != INF ==> h[i][j] != INF
    ensures Hop(w, h, |w|, i, j) == INF <==> h[i][j] == INF && Dist(w, |w|, i, j) == INF
    ensures Hop(w, h, |w|, i, j) != INF ==> Hop(w, h, |w|, i, j) < |w| && Hop(w, h, |w|, i, j) != i
  {
    LastRoundImproved(w, |w|, i, j);
    DistBounds(w, |w|, i, j);
    if LastRound(w, |w|, i, j) != None {
      DistBounds(w, LastRound(w, |w|, i, j).value, i, j);
      Recorded(w, i, j);
    }
  }

  /** After one pass the chase from `i` towards any other node finds a direct neighbour of `i` on a lightest walk to
      that node. */
  method FirstLinkOnePass(pd: array<seq<nat>>, nextBDPHop: array<seq<nat>>, bws: Matrix, i: nat, j: nat)
    returns (link: nat, hop: nat)
    requires pd != nextBDPHop && pd.Length == nextBDPHop.Length
    requires Loaded(bws, pd[..]) && FreshHops(bws, nextBDPHop[..]) && ReachesAll(pd[..], i)
    requires i < |bws| && j < |bws| && i != j
    modifies pd, nextBDPHop
    ensures hop < |bws| && hop != i && link == bws[i][hop] && link != INF
    ensures OnLightest(old(pd[..]), i, hop, j)
  {
    ghost var w, h := pd[..], nextBDPHop[..];
    Floyd.Floyd(pd, nextBDPHop);
    var hops := nextBDPHop[..];
    GuidedAfterPass(bws, w, h, hops, i);
    Finite(w, i, j);
    HopAfterPass(bws, w, h, i, j);
    Finite(w, i, hops[i][j]);
    link, hop := Chase(bws, hops, w, i, j);
    OnTheWay(w, h, i, j, hop);
  }

  lemma OnTheWay(w: Matrix, h: Matrix, i: nat, j: nat, hop: nat)
    requires Weights(w) && Square(h) && |h| == |w| && i < |w| && j < |w| && hop < |w| && Hop(w, h, |w|, i, j) < |w|
    requires LastRound(w, |w|, i, j) == None ==> h[i][j] == j
    requires OnLightest(w, i, hop, Hop(w, h, |w|, i, j))
    ensures OnLightest(w, i, hop, j)
  {
    var s := Hop(w, h, |w|, i, j);
    if LastRound(w, |w|, i, j) != None {
      Recorded(w, i, j);
      Passing(w, i, hop, s, j);
    }
  }

  /** The pass over the delays `v` finds a way round the direct link from `i` to `j` that is shorter, and the pass
      over the sending times `w` finds none that is faster. */
  ghost predicate DetourKept(bws: Matrix, v: Matrix, w: Matrix, i: nat, j: nat)
    requires Square(bws) && Square(v) && Square(w) && |bws| == |v| == |w| && i < |w| && j < |w|
  {
    bws[i][j] != INF && Dist(v, |v|, i, j) < v[i][j] && Dist(w, |w|, i, j) == w[i][j]
  }

  /** Where the chase starts after both passes: at the node last recorded for the sending times, else at the one
      last recorded for the delays, else at `j`. */
  ghost function Start(v: Matrix, w: Matrix, i: nat, j: nat): (s: nat)
    requires Weights(v) && Weights(w) && |v| == |w| && i < |w| && j < |w|
    ensures s < |w|
  {
    LastRoundImproved(w, |w|, i, j);
    LastRoundImproved(v, |v|, i, j);
    if LastRound(w, |w|, i, j).Some? then LastRound(w, |w|, i, j).value
    else if LastRound(v, |v|, i, j).Some? then LastRound(v, |v|, i, j).value
    else j
  }

  /** From `x` over pivots of nodes without a link to `i` to the first node that `i` has a link to. */
  ghost predicate Ladder(bws: Matrix, w: Matrix, i: nat, x: nat, s: seq<nat>)
    requires Square(w) && Square(bws) && |bws| == |w| && i < |w|
  {
    && s != [] && s[0] == x && (forall t | 0 <= t < |s| :: s[t] < |w|)
    && (forall t | 0 <= t < |s| - 1 :: bws[i][s[t]] == INF && Pivot(w, i, s[t], s[t + 1]))
    && bws[i][Last(s)] != INF
  }

  /** The chase in terms of walks: it ends where the only ladder from `x` ends. */
  lemma {:induction false} LadderEnds(bws: Matrix, w: Matrix, i: nat, x: nat)
    requires Loaded(bws, w) && i < |w| && x < |w| && Dist(w, |w|, i, x) < INF
    ensures exists s :: Ladder(bws, w, i, x, s)
    ensures forall s | Ladder(bws, w, i, x, s) :: Last(s) == FirstLink(bws, w, i, x)
    decreases Mark(w, i, x)
  {
    if bws[i][x] != INF {
      assert Ladder(bws, w, i, x, [x]);
    } else {
      LastRoundImproved(w, |w|, i, x);
      Recorded(w, i, x);
      var m := LastRound(w, |w|, i, x).value;
      LadderEnds(bws, w, i, m);
      var rest :| Ladder(bws, w, i, m, rest);
      LadderLonger(bws, w, i, x, rest);
      forall s | Ladder(bws, w, i, x, s) ensures Last(s) == FirstLink(bws, w, i, x) {
        LadderRest(bws, w, i, x, s);
      }
    }
  }

  lemma LadderLonger(bws: Matrix, w: Matrix, i: nat, x: nat, rest: seq<nat>)
    requires Weights(w) && Square(bws) && |bws| == |w| && i < |w| && x < |w| && bws[i][x] == INF
    requires LastRound(w, |w|, i, x).Some? && Ladder(bws, w, i, LastRound(w, |w|, i, x).value, rest)
    ensures Ladder(bws, w, i, x, [x] + rest)
  {
    RecordedPivot(w, i, x);
  }

  lemma LadderRest(bws: Matrix, w: Matrix, i: nat, x: nat, s: seq<nat>)
    requires Weights(w) && Square(bws) && |bws| == |w| && i < |w| && x < |w| && bws[i][x] == INF
    requires Ladder(bws, w, i, x, s)
    ensures |s| > 1 && LastRound(w, |w|, i, x) == Some(s[1]) && Ladder(bws, w, i, s[1], s[1..])
  {
    PivotRecorded(w, i, x, s[1]);
  }

  /** `x` is a direct neighbour of `i` on a lightest walk to `m`. */
  ghost predicate Towards(bws: Matrix, w: Matrix, i: nat, m: nat, x: nat)
    requires Square(bws) && Square(w) && |bws| == |w| && i < |w| && m < |w|
  {
    x < |w| && x != i && bws[i][x] != INF && OnLightest(w, i, x, m)
  }

  /** With a detour kept, the chase goes to the pivot `m` of the delays between `i` and `j`, and ends at a neighbour on
      a walk of least sending time to `m`. That neighbour is good for `j` exactly if the ladder of pivots from `m` ends
      at one that is. It is if all such neighbours are, or if `m` itself lies on a walk of least sending time to `j`;
      and it is not if no such neighbour is. */
  ghost predicate Detoured(bws: Matrix, v: Matrix, w: Matrix, i: nat, j: nat, m: nat, hop: nat)
    requires Square(bws) && Square(v) && Square(w) && |bws| == |v| == |w|
    requires i < |w| && j < |w| && m < |w| && hop < |w|
  {
    && Pivot(v, i, j, m) && OnLightest(v, i, m, j) && Towards(bws, w, i, m, hop)
    && (OnLightest(w, i, hop, j) <==> exists s :: Ladder(bws, w, i, m, s) && OnLightest(w, i, Last(s), j))
    && ((forall x | Towards(bws, w, i, m, x) :: OnLightest(w, i, x, j)) ==> OnLightest(w, i, hop, j))
    && (OnLightest(w, i, m, j) ==> OnLightest(w, i, hop, j))
    && (OnLightest(w, i, hop, j) ==> exists x :: Towards(bws, w, i, m, x) && OnLightest(w, i, x, j))
  }

  lemma DetourFollowed(bws: Matrix, v: Matrix, w: Matrix, i: nat, j: nat, m: nat, hop: nat)
    requires Loaded(bws, v) && Loaded(bws, w) && i < |w| && j < |w| && m < |w|
    requires LastRound(v, |v|, i, j) == Some(m) && Dist(w, |w|, i, m) < INF
    requires hop == FirstLink(bws, w, i, m) && Towards(bws, w, i, m, hop)
    ensures Detoured(bws, v, w, i, j, m, hop)
  {
    Recorded(v, i, j);
    RecordedPivot(v, i, j);
    LadderEnds(bws, w, i, m);
    Passing(w, i, hop, m, j);
  }

  /** After two passes that share the hop matrix the chase still ends at a direct neighbour, and it is known which
      one. It lies on a walk of least sending time to `j`, unless the first pass left a detour round the direct link
      to `j` that the second did not replace. */
  method FirstLinkTwoPasses(pd: array<seq<nat>>, td: array<seq<nat>>, nextBDPHop: array<seq<nat>>, bws: Matrix, i: nat,
                            j: nat)
    returns (link: nat, hop: nat)
    requires pd != nextBDPHop && td != nextBDPHop && pd != td && pd.Length == td.Length == nextBDPHop.Length
    requires Loaded(bws, pd[..]) && Loaded(bws, td[..]) && FreshHops(bws, nextBDPHop[..]) && ReachesAll(td[..], i)
    requires i < |bws| && j < |bws| && i != j
    modifies pd, td, nextBDPHop
    ensures hop < |bws| && hop != i && link == bws[i][hop] && link != INF
    ensures var v, w := old(pd[..]), old(td[..]); hop == FirstLink(bws, w, i, Start(v, w, i, j))
    ensures var v, w := old(pd[..]), old(td[..]); !DetourKept(bws, v, w, i, j) ==> OnLightest(w, i, hop, j)
    ensures var v, w := old(pd[..]), old(td[..]);
      DetourKept(bws, v, w, i, j) ==> Detoured(bws, v, w, i, j, Start(v, w, i, j), hop)
  {
    ghost var v, w, h0 := pd[..], td[..], nextBDPHop[..];
    Floyd.Floyd(pd, nextBDPHop);
    ghost var h1 := nextBDPHop[..];
    HopAfterPass(bws, v, h0, i, j);
    Floyd.Floyd(td, nextBDPHop);
    var hops := nextBDPHop[..];
    GuidedAfterPass(bws, w, h1, hops, i);
    Finite(w, i, j);
    HopAfterPass(bws, w, h1, i, j);
    Finite(w, i, hops[i][j]);
    Started(bws, v, w, h0, h1, i, j);
    link, hop := Chase(bws, hops, w, i, j);
    if DetourKept(bws, v, w, i, j) {
      Finite(w, i, Start(v, w, i, j));
      DetourFollowed(bws, v, w, i, j, Start(v, w, i, j), hop);
    } else {
      OnTheWay(w, h1, i, j, hop);
    }
  }

  /** What lies on a lightest walk to a node on a lightest walk to `j` lies on a lightest walk to `j`. */
  lemma Passing(w: Matrix, i: nat, x: nat, m: nat, j: nat)
    requires Weights(w) && i < |w| && x < |w| && m < |w| && j < |w| && OnLightest(w, i, x, m)
    ensures OnLightest(w, i, m, j) ==> OnLightest(w, i, x, j)
  {
    Triangle(w, x, m, j);
    Triangle(w, i, x, j);
  }

  /** What both passes have left for (i, j), given what they found. */
  lemma Started(bws: Matrix, v: Matrix, w: Matrix, h0: Matrix, h1: Matrix, i: nat, j: nat)
    requires Loaded(bws, v) && Loaded(bws, w) && FreshHops(bws, h0) && |bws| == |h0| && i < |w| && j < |w| && i != j
    requires Square(h1) && |h1| == |w| && h1[i][j] == Hop(v, h0, |v|, i, j) && Dist(w, |w|, i, j) < INF
    ensures bws[i][j] != INF || LastRound(w, |w|, i, j) != None ==> Hop(w, h1, |w|, i, j) == Start(v, w, i, j)
    ensures bws[i][j] == INF ==> LastRound(w, |w|, i, j) != None
    ensures DetourKept(bws, v, w, i, j) <==>
      bws[i][j] != INF && LastRound(v, |v|, i, j) != None && LastRound(w, |w|, i, j) == None
    ensures !DetourKept(bws, v, w, i, j) && LastRound(w, |w|, i, j) == None ==> h1[i][j] == j
  {
    LastRoundImproved(v, |v|, i, j);
    LastRoundImproved(w, |w|, i, j);
    ImprovedIsLess(v, |v|, i, j);
    ImprovedIsLess(w, |w|, i, j);
  }

  lemma {:induction false} ImprovedIsLess(w: Matrix, k: nat, i: nat, j: nat)
    requires Weights(w) && k <= |w| && i < |w| && j < |w|
    ensures LastRound(w, k, i, j) != None <==> Dist(w, k, i, j) < w[i][j]
  {
    DistBounds(w, k, i, j);
    if k > 0 {
      ImprovedIsLess(w, k - 1, i, j);
      DistBounds(w, k - 1, i, j);
    }
  }

  /** Where all links have the same delay, the pass over the delays finds no shorter way round a link. */
  lemma NoDetour(bws: Matrix, v: Matrix, w: Matrix, i: nat, j: nat, d: nat)
    requires Loaded(bws, v) && Square(w) && |w| == |v| && i < |v| && j < |v|
    requires forall x, y | 0 <= x < |v| && 0 <= y < |v| && x != y && bws[x][y] != INF :: v[x][y] == d
    ensures !DetourKept(bws, v, w, i, j)
  {
    if i != j && bws[i][j] != INF {
      Apart(v, |v|, i, j, d);
    }
  }
}
