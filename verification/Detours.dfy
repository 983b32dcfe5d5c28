/** A topology file on which the search for a first link misses the fastest one, because the pass over the delays has
    left a hop that the pass over the sending times keeps. */
module Detours {
  import opened Basics
  import opened Floyd
  import opened FloydPaths
  import opened HopChase
  import opened LinkGraph
  import opened MatrixLoading
  import opened FatTree

  /** Hosts 0 and 1 hang on switches 2 and 3, which a line of delay 10 joins, and two lines of delay 1 over switch 4. */
  function Lines(bw: nat): seq<Link> {
    [Link(0, 2, bw, 1), Link(1, 3, bw, 1), Link(2, 3, bw, 10), Link(2, 4, bw, 1), Link(3, 4, bw, 1)]
  }

  /** The pairs whose first link the program looks for: a switch, and a host or the edge switch of a rack. */
  predicate Asked(hosts: nat, hostsPerRack: nat, count: nat, i: nat, j: nat)
    requires hostsPerRack > 0
  {
    hosts <= i < count && j < hosts + hosts / hostsPerRack && i != j
  }

  /** From switch 2 to switch 3 the way over 4 has the shorter delay and the direct line the shorter sending time. The
      search ends at 4, which is not on a walk of least sending time. */
  lemma DetourSlower(m: Matrices, bw: nat, mtu: nat)
    requires 0 < bw && Filled(m, Lines(bw), 5, 5, mtu) && Loaded(m.bws, m.pd) && Loaded(m.bws, m.td)
    requires mtu * 8 / bw > 0
    ensures Asked(2, 1, 5, 2, 3)
    ensures DetourKept(m.bws, m.pd, m.td, 2, 3) && FirstLink(m.bws, m.td, 2, Start(m.pd, m.td, 2, 3)) == 4
    ensures !OnLightest(m.td, 2, 4, 3) && OnLightest(m.td, 2, 3, 3)
  {
    var t := mtu * 8 / bw;
    Delays(m, bw, mtu);
    DetourRecorded(m.pd);
    SendTimes(m, bw, mtu);
    NoneFaster(m.td, t);
    ImprovedIsLess(m.td, 5, 2, 3);
    ImprovedIsLess(m.pd, 5, 2, 3);
    DistBounds(m.td, 5, 3, 3);
  }

  lemma OnlyLine(m: Matrices, bw: nat, mtu: nat, k: nat, x: nat, y: nat)
    requires 0 < bw && Filled(m, Lines(bw), 5, 5, mtu) && k < 5 && Joins(Lines(bw)[k], x, y)
    ensures x < 5 && y < 5 && FromLine(m, Lines(bw)[k], mtu, x, y)
  {
    assert FilledAt(m, Lines(bw), 5, mtu, x, y);
    assert LastLine(Lines(bw), 5, x, y) == Some(k);
  }

  lemma NoLine(m: Matrices, bw: nat, mtu: nat, x: nat, y: nat)
    requires 0 < bw && Filled(m, Lines(bw), 5, 5, mtu) && x < 5 && y < 5 && x != y
    requires forall k: nat | k < 5 :: !Joins(Lines(bw)[k], x, y)
    ensures m.bws[x][y] == m.pd[x][y] == m.td[x][y] == INF
  {
    assert FilledAt(m, Lines(bw), 5, mtu, x, y);
  }

  lemma Delays(m: Matrices, bw: nat, mtu: nat)
    requires 0 < bw && Filled(m, Lines(bw), 5, 5, mtu)
    ensures var v := m.pd;
      && |v| == 5 && Square(v) && v[2][3] == 10 && v[2][4] == v[4][3] == v[2][0] == 1
      && v[2][1] == v[0][1] == v[0][3] == INF
  {
    OnlyLine(m, bw, mtu, 2, 2, 3);
    OnlyLine(m, bw, mtu, 3, 2, 4);
    OnlyLine(m, bw, mtu, 4, 4, 3);
    OnlyLine(m, bw, mtu, 0, 2, 0);
    NoLine(m, bw, mtu, 2, 1);
    NoLine(m, bw, mtu, 0, 1);
    NoLine(m, bw, mtu, 0, 3);
  }

  /** Only round 4 improves the delay from 2 to 3. */
  lemma DetourRecorded(v: Matrix)
    requires Weights(v) && |v| == 5 && v[2][3] == 10 && v[2][4] == v[4][3] == v[2][0] == 1
    requires v[2][1] == v[0][1] == v[0][3] == INF
    ensures Dist(v, 5, 2, 3) < v[2][3] && LastRound(v, 5, 2, 3) == Some(4)
  {
    assert Dist(v, 1, 2, 3) == 10;
    assert Dist(v, 1, 2, 1) == INF;
    assert Dist(v, 2, 2, 3) == 10;
    OwnRowAndColumn(v, 2, 3);
    OwnRowAndColumn(v, 3, 2);
    DistBounds(v, 4, 2, 4);
    DistBounds(v, 4, 4, 3);
    assert Improves(v, 4, 2, 3);
  }

  lemma SendTimes(m: Matrices, bw: nat, mtu: nat)
    requires 0 < bw && Filled(m, Lines(bw), 5, 5, mtu) && Weights(m.td)
    ensures var w, t := m.td, mtu * 8 / bw;
      && |w| == 5 && Square(w) && w[2][3] == t && m.bws[2][3] == m.bws[2][4] == bw
      && forall a, b | 0 <= a < 5 && 0 <= b < 5 && a != b :: w[a][b] >= t
  {
    OnlyLine(m, bw, mtu, 2, 2, 3);
    OnlyLine(m, bw, mtu, 3, 2, 4);
    forall a: nat, b: nat | a < 5 && b < 5 && a != b ensures m.td[a][b] >= mtu * 8 / bw {
      assert FilledAt(m, Lines(bw), 5, mtu, a, b);
    }
  }

  /** With equal sending times the direct line is faster than any way round. */
  lemma NoneFaster(w: Matrix, t: nat)
    requires Weights(w) && |w| == 5 && w[2][3] == t > 0
    requires forall a, b | 0 <= a < 5 && 0 <= b < 5 && a != b :: w[a][b] >= t
    ensures Dist(w, 5, 2, 3) == t && Dist(w, 5, 2, 4) >= t && Dist(w, 5, 4, 3) >= t
  {
    Apart(w, 5, 2, 3, t);
    Apart(w, 5, 2, 4, t);
    Apart(w, 5, 4, 3, t);
    DistBounds(w, 5, 2, 3);
  }

  /** Every node of the file can be reached from switch 2. */
  lemma LinesConnected(bw: nat)
    ensures Connected(Lines(bw), 5, 2)
  {
    forall x: nat | x < 5 ensures Joinable(Lines(bw), 5, 2, x) {
      var p := if x == 2 then [2] else if x == 1 then [2, 3, 1] else [2, x];
      var k := if x == 0 then 0 else if x == 4 then 3 else 2;
      assert x != 2 ==> Joins(Lines(bw)[k], p[0], p[1]);
      assert x == 1 ==> Joins(Lines(bw)[1], p[1], p[2]);
      assert LinkPath(Lines(bw), 5, 2, x, p);
    }
  }

  /** The program run on that file: it finds the link to 4. */
  method FindDetour(bw: nat, mtu: nat) returns (ghost m: Matrices, link: nat, hop: nat)
    requires 0 < bw < INF && 0 < mtu * 8 / bw && 5 * (mtu * 8 / bw) < INF
    ensures Filled(m, Lines(bw), 5, 5, mtu) && link == bw && hop == 4 && !OnLightest(m.td, 2, hop, 3)
  {
    LinesConnected(bw);
    assert SearchableWithin(Lines(bw), 5, mtu, 2, mtu * 8 / bw);
    m, link, hop := LoadAndFindLink(5, Lines(bw), mtu, 2, 3);
    DetourSlower(m, bw, mtu);
  }
}
