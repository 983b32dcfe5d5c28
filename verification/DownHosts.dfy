/** The hosts below every switch, as scratch/third.cc collects them while it reads the link lines once. */
module DownHosts {
  import opened Basics
  import FatTree

  type DownSets = map<nat, set<nat>>

  function Below(down: DownSets, v: nat): set<nat> {
    if v in down then down[v] else {}
  }

  /** Links that lead from host `h` up to `v`, each from the switch the one before leads to. */
  ghost predicate Chain(links: seq<FatTree.Link>, switches: set<nat>, h: nat, v: nat, q: seq<nat>) {
    && q != []
    && (forall i | 0 <= i < |q| :: q[i] < |links|)
    && links[q[0]].src == h && h !in switches
    && links[Last(q)].dst == v
    && (forall i | 0 < i < |q| :: links[q[i]].src == links[q[i - 1]].dst && links[q[i]].src in switches)
  }

  /** `h` is below `v`. */
  ghost predicate Chained(links: seq<FatTree.Link>, switches: set<nat>, h: nat, v: nat) {
    exists q :: Chain(links, switches, h, v, q)
  }

  /** A chain among the first `n` links that runs in the order of the file. */
  ghost predicate Climb(links: seq<FatTree.Link>, n: nat, switches: set<nat>, h: nat, v: nat, q: seq<nat>) {
    && Chain(links, switches, h, v, q)
    && (forall i, j | 0 <= i < j < |q| :: q[i] < q[j])
    && Last(q) < n
  }

  ghost predicate Climbs(links: seq<FatTree.Link>, n: nat, switches: set<nat>, h: nat, v: nat) {
    exists q :: Climb(links, n, switches, h, v, q)
  }

  /** `down` holds below each node the hosts with a chain among the first `n` links, in the order of the file. */
  ghost predicate Closed(links: seq<FatTree.Link>, n: nat, switches: set<nat>, down: DownSets) {
    forall v, h :: h in Below(down, v) <==> Climbs(links, n, switches, h, v)
  }

  /** The hosts below the lower end of a link: the host itself, or those below the switch. */
  function Brought(down: DownSets, switches: set<nat>, l: FatTree.Link): set<nat> {
    if l.src !in switches then {l.src} else Below(down, l.src)
  }

  method AddDown(down0: DownSets, switches: set<nat>, l: FatTree.Link) returns (down: DownSets)
    requires l.src < l.dst
    ensures forall v ::
      Below(down, v) == if v == l.dst then Below(down0, v) + Brought(down0, switches, l) else Below(down0, v)
  {
    down := down0;
    if l.src !in switches {
      if l.src !in Below(down, l.dst) {
        down := down[l.dst := Below(down, l.dst) + {l.src}];
      }
    } else {
      var left := Below(down, l.src);
      while left != {}
        invariant left <= Below(down0, l.src)
        invariant forall v ::
          Below(down, v) == if v == l.dst then Below(down0, v) + (Below(down0, l.src) - left) else Below(down0, v)
      {
        var it :| it in left;
        if it !in Below(down, l.dst) {
          down := down[l.dst := Below(down, l.dst) + {it}];
        }
        left := left - {it};
      }
    }
  }

  lemma OneMoreDown(links: seq<FatTree.Link>, n: nat, switches: set<nat>, down: DownSets, down': DownSets)
    requires n < |links| && Closed(links, n, switches, down)
    requires forall v ::
      Below(down', v) == if v == links[n].dst then Below(down, v) + Brought(down, switches, links[n])
      else Below(down, v)
    ensures Closed(links, n + 1, switches, down')
  {
    forall v: nat, h: nat ensures h in Below(down', v) <==> Climbs(links, n + 1, switches, h, v) {
      OneMoreClimb(links, n, switches, h, v);
    }
  }

  /** Where a chain that ends with line `n` comes from. */
  ghost predicate ClimbsTo(links: seq<FatTree.Link>, n: nat, switches: set<nat>, h: nat)
    requires n < |links|
  {
    if links[n].src !in switches then h == links[n].src else Climbs(links, n, switches, h, links[n].src)
  }

  /** A chain within one more line is an old chain or one that ends with the new line. */
  lemma OneMoreClimb(links: seq<FatTree.Link>, n: nat, switches: set<nat>, h: nat, v: nat)
    requires n < |links|
    ensures Climbs(links, n + 1, switches, h, v) <==>
            Climbs(links, n, switches, h, v) || (v == links[n].dst && ClimbsTo(links, n, switches, h))
  {
    if Climbs(links, n + 1, switches, h, v) {
      LastClimb(links, n, switches, h, v);
    }
    if Climbs(links, n, switches, h, v) {
      var q :| Climb(links, n, switches, h, v, q);
      assert Climb(links, n + 1, switches, h, v, q);
    }
    if v == links[n].dst && ClimbsTo(links, n, switches, h) {
      ClimbOn(links, n, switches, h);
    }
  }

  lemma LastClimb(links: seq<FatTree.Link>, n: nat, switches: set<nat>, h: nat, v: nat)
    requires n < |links| && Climbs(links, n + 1, switches, h, v)
    ensures Climbs(links, n, switches, h, v) || (v == links[n].dst && ClimbsTo(links, n, switches, h))
  {
    var q :| Climb(links, n + 1, switches, h, v, q);
    if Last(q) < n {
      assert Climb(links, n, switches, h, v, q);
    } else if |q| > 1 {
      assert Climb(links, n, switches, h, links[n].src, q[..|q| - 1]);
    }
  }

  lemma ClimbOn(links: seq<FatTree.Link>, n: nat, switches: set<nat>, h: nat)
    requires n < |links| && ClimbsTo(links, n, switches, h)
    ensures Climbs(links, n + 1, switches, h, links[n].dst)
  {
    if links[n].src !in switches {
      assert Climb(links, n + 1, switches, h, links[n].dst, [n]);
    } else {
      var q :| Climb(links, n, switches, h, links[n].src, q);
      assert Climb(links, n + 1, switches, h, links[n].dst, q + [n]);
    }
  }

  /** Every line hands on all hosts that the pass finds below its lower end, also those found after the line was
      read. */
  ghost predicate HandsOn(links: seq<FatTree.Link>, switches: set<nat>) {
    forall j, h | 0 <= j < |links| && links[j].src in switches && Climbs(links, |links|, switches, h, links[j].src) ::
      Climbs(links, |links|, switches, h, links[j].dst)
  }

  /** The single pass finds exactly the hosts below every node if and only if no line comes too early to hand on a
      host. */
  lemma OnePassExact(links: seq<FatTree.Link>, switches: set<nat>, down: DownSets)
    requires Closed(links, |links|, switches, down)
    ensures (forall v, h :: h in Below(down, v) <==> Chained(links, switches, h, v)) <==> HandsOn(links, switches)
  {
    if HandsOn(links, switches) {
      forall v: nat, h: nat ensures h in Below(down, v) <==> Chained(links, switches, h, v) {
        if q :| Chain(links, switches, h, v, q) {
          HandedUp(links, switches, h, v, q);
        }
      }
    }
    if forall v, h :: h in Below(down, v) <==> Chained(links, switches, h, v) {
      forall j, h | 0 <= j < |links| && links[j].src in switches && Climbs(links, |links|, switches, h, links[j].src)
        ensures Climbs(links, |links|, switches, h, links[j].dst)
      {
        ChainGrows(links, switches, h, j);
        assert h in Below(down, links[j].dst);
      }
    }
  }

  lemma {:induction false} HandedUp(links: seq<FatTree.Link>, switches: set<nat>, h: nat, v: nat, q: seq<nat>)
    requires HandsOn(links, switches) && Chain(links, switches, h, v, q)
    ensures Climbs(links, |links|, switches, h, v)
    decreases |q|
  {
    if |q| == 1 {
      assert Climb(links, |links|, switches, h, v, q);
    } else {
      var front := q[..|q| - 1];
      assert Chain(links, switches, h, links[Last(front)].dst, front);
      HandedUp(links, switches, h, links[Last(front)].dst, front);
      assert links[Last(q)].src == links[Last(front)].dst;
    }
  }

  /** All links into a switch come before all links out of it. */
  ghost predicate Ordered(links: seq<FatTree.Link>, switches: set<nat>) {
    forall i, j | 0 <= i < |links| && 0 <= j < |links| && links[i].dst == links[j].src && links[j].src in switches ::
      i < j
  }

  /** In a file so ordered, the single pass finds below each node exactly the hosts below it. */
  lemma OnePassSuffices(links: seq<FatTree.Link>, switches: set<nat>, down: DownSets)
    requires Closed(links, |links|, switches, down) && Ordered(links, switches)
    ensures forall v, h :: h in Below(down, v) <==> Chained(links, switches, h, v)
  {
    forall v: nat, h: nat ensures Climbs(links, |links|, switches, h, v) <==> Chained(links, switches, h, v) {
      if Chained(links, switches, h, v) {
        var q :| Chain(links, switches, h, v, q);
        RunsUp(links, switches, h, v, q);
        assert Climb(links, |links|, switches, h, v, q);
      }
    }
  }

  lemma {:induction false} RunsUp(links: seq<FatTree.Link>, switches: set<nat>, h: nat, v: nat, q: seq<nat>)
    requires Ordered(links, switches) && Chain(links, switches, h, v, q)
    ensures forall i, j | 0 <= i < j < |q| :: q[i] < q[j]
    decreases |q|
  {
    if |q| > 1 {
      var front := q[..|q| - 1];
      RunsUp(links, switches, h, links[Last(front)].dst, front);
      assert links[Last(front)].dst == links[Last(q)].src;
    }
  }

  /** A file in another order can miss a host: here the link out of the edge switch comes first, and the
      host under it never gets to the switch above. */
  lemma WrongOrderMisses()
    ensures var links, switches := [FatTree.Link(1, 2, 10, 1), FatTree.Link(0, 1, 10, 1)], {1, 2};
      Chained(links, switches, 0, 2) && !Climbs(links, 2, switches, 0, 2) && !HandsOn(links, switches)
  {
    var links, switches: set<nat> := [FatTree.Link(1, 2, 10, 1), FatTree.Link(0, 1, 10, 1)], {1, 2};
    assert Chain(links, switches, 0, 2, [1, 0]);
    OneMoreClimb(links, 1, switches, 0, 2);
    OneMoreClimb(links, 0, switches, 0, 2);
    OneMoreClimb(links, 0, switches, 0, 1);
    ClimbOn(links, 1, switches, 0);
    assert links[0].src in switches && links[0].dst == 2;
  }

  lemma ChainStarts(links: seq<FatTree.Link>, switches: set<nat>, i: nat)
    requires i < |links| && links[i].src !in switches
    ensures Chained(links, switches, links[i].src, links[i].dst)
  {
    assert Chain(links, switches, links[i].src, links[i].dst, [i]);
  }

  lemma ChainGrows(links: seq<FatTree.Link>, switches: set<nat>, h: nat, i: nat)
    requires i < |links| && links[i].src in switches && Chained(links, switches, h, links[i].src)
    ensures Chained(links, switches, h, links[i].dst)
  {
    var q :| Chain(links, switches, h, links[i].src, q);
    assert Chain(links, switches, h, links[i].dst, q + [i]);
  }

  lemma ChainEnds(links: seq<FatTree.Link>, switches: set<nat>, h: nat, v: nat) returns (i: nat)
    requires Chained(links, switches, h, v)
    ensures i < |links| && links[i].dst == v && h !in switches
    ensures links[i].src == h || (links[i].src in switches && Chained(links, switches, h, links[i].src))
  {
    var q :| Chain(links, switches, h, v, q);
    i := Last(q);
    if |q| > 1 {
      assert Chain(links, switches, h, links[i].src, q[..|q| - 1]);
    }
  }
}
