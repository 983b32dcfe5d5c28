/** What the generated fat-tree is as a graph: who is linked to whom, once, and how many links each node has. */
module FatTreeShape {
  import opened Basics
  import opened Division
  import opened FatTree

  /** First node id of each layer above the hosts, and the first id that is no node. */
  function EdgeBase(s: Shape): nat { s.Hosts() }

  function AggBase(s: Shape): nat { s.Hosts() + s.Edges() }

  function CoreBase(s: Shape): nat { s.Hosts() + s.Edges() + s.Edges() }

  function End(s: Shape): nat { CoreBase(s) + s.Cores() }

  /** The fat-tree by its layers: a host under its edge switch, an edge switch under the aggregation
      switches of its pod, an aggregation switch under the core switches of its class. */
  predicate Joined(s: Shape, u: nat, v: nat)
    requires s.h > 0
  {
    if u < EdgeBase(s) then
      v == EdgeBase(s) + Quot(u, s.h)
    else if u < AggBase(s) then
      AggBase(s) <= v < CoreBase(s) && Quot(v - AggBase(s), s.h) == Quot(u - EdgeBase(s), s.h)
    else if u < CoreBase(s) then
      CoreBase(s) <= v < End(s) && Quot(v - CoreBase(s), s.h) == Rem(u - AggBase(s), s.h)
    else
      false
  }

  /** Number `m` of block number `a`. */
  function Slot(a: nat, h: nat, m: nat): nat {
    a * h + m
  }

  /** Where the link from `u` to `v` stands in the file. */
  function Place(s: Shape, u: nat, v: nat): nat
    requires s.h > 0 && Joined(s, u, v)
  {
    if u < EdgeBase(s) then u
    else if u < AggBase(s) then s.Hosts() + Slot(u - EdgeBase(s), s.h, Rem(v - AggBase(s), s.h))
    else s.Hosts() + s.Hosts() + Slot(u - AggBase(s), s.h, Rem(v - CoreBase(s), s.h))
  }

  lemma {:induction false} EdgeRowAt(n: nat, e: nat, h: nat, r: nat, bw: nat, dl: nat, q: nat, m: nat)
    requires q < r && m < h
    ensures Slot(q, h, m) < |EdgeRows(n, e, h, r, bw, dl)|
    ensures EdgeRows(n, e, h, r, bw, dl)[Slot(q, h, m)] == Link(n + q, n + e + Slot(Quot(q, h), h, m), bw, dl)
  {
    EdgeRowsLength(n, e, h, r, bw, dl);
    EdgeRowsLength(n, e, h, r - 1, bw, dl);
    Within(q, r, h, m);
    if q < r - 1 {
      EdgeRowAt(n, e, h, r - 1, bw, dl, q, m);
    }
  }

  lemma {:induction false} EdgeRowsLength(n: nat, e: nat, h: nat, r: nat, bw: nat, dl: nat)
    requires h > 0
    ensures |EdgeRows(n, e, h, r, bw, dl)| == r * h
  {
    if r > 0 {
      EdgeRowsLength(n, e, h, r - 1, bw, dl);
      assert r * h == (r - 1) * h + h;
    }
  }

  lemma {:induction false} CoreRowAt(n: nat, e: nat, h: nat, r: nat, bw: nat, dl: nat, q: nat, m: nat)
    requires q < r && m < h
    ensures Slot(q, h, m) < |CoreRows(n, e, h, r, bw, dl)|
    ensures CoreRows(n, e, h, r, bw, dl)[Slot(q, h, m)] == Link(n + e + q, n + e + e + Slot(Rem(q, h), h, m), bw, dl)
  {
    CoreRowsLength(n, e, h, r, bw, dl);
    CoreRowsLength(n, e, h, r - 1, bw, dl);
    Within(q, r, h, m);
    if q < r - 1 {
      CoreRowAt(n, e, h, r - 1, bw, dl, q, m);
    }
  }

  lemma {:induction false} CoreRowsLength(n: nat, e: nat, h: nat, r: nat, bw: nat, dl: nat)
    requires h > 0
    ensures |CoreRows(n, e, h, r, bw, dl)| == r * h
  {
    if r > 0 {
      CoreRowsLength(n, e, h, r - 1, bw, dl);
      assert r * h == (r - 1) * h + h;
    }
  }

  /** As many links as the header declares. */
  lemma LinkCount(s: Shape, bw: nat, dl: nat)
    ensures |Links(s, bw, dl)| == 3 * s.Hosts() == Topology(s, bw, dl).header.links
  {
    if s.h > 0 {
      EdgeRowsLength(s.Hosts(), s.Edges(), s.h, s.Edges(), bw, dl);
      CoreRowsLength(s.Hosts(), s.Edges(), s.h, s.Edges(), bw, dl);
    }
  }

  /** Every line of the file joins two nodes that are to be joined, and stands at the place of its link. */
  lemma LinkAt(s: Shape, bw: nat, dl: nat, i: nat)
    requires s.h > 0 && i < 3 * s.Hosts()
    ensures i < |Links(s, bw, dl)|
    ensures var l := Links(s, bw, dl)[i];
      Joined(s, l.src, l.dst) && Place(s, l.src, l.dst) == i && l.bw == bw && l.dl == dl
  {
    LinkCount(s, bw, dl);
    EdgeRowsLength(s.Hosts(), s.Edges(), s.h, s.Edges(), bw, dl);
    var n := s.Hosts();
    if i < n {
      assert Links(s, bw, dl)[i] == HostLink(n, s.h, i, bw, dl);
    } else if i < n + n {
      EdgeLinkAt(s, bw, dl, i - n);
    } else {
      CoreLinkAt(s, bw, dl, i - n - n);
    }
  }

  lemma EdgeLinkAt(s: Shape, bw: nat, dl: nat, x: nat)
    requires s.h > 0 && x < s.Hosts()
    ensures var rows := EdgeRows(s.Hosts(), s.Edges(), s.h, s.Edges(), bw, dl);
      && x < |rows| && s.Hosts() <= rows[x].src < AggBase(s) && Joined(s, rows[x].src, rows[x].dst)
      && Place(s, rows[x].src, rows[x].dst) == s.Hosts() + x && rows[x].bw == bw && rows[x].dl == dl
  {
    var q, m := Quot(x, s.h), Rem(x, s.h);
    Recompose(x, s.h);
    QuotBelow(x, s.Edges(), s.h);
    EdgeRowAt(s.Hosts(), s.Edges(), s.h, s.Edges(), bw, dl, q, m);
    QuotBelow(q, s.p, s.h);
    Within(Quot(q, s.h), s.p, s.h, m);
    Compose(Quot(q, s.h), s.h, m);
  }

  lemma CoreLinkAt(s: Shape, bw: nat, dl: nat, x: nat)
    requires s.h > 0 && x < s.Hosts()
    ensures var rows := CoreRows(s.Hosts(), s.Edges(), s.h, s.Edges(), bw, dl);
      && x < |rows| && AggBase(s) <= rows[x].src < CoreBase(s) && Joined(s, rows[x].src, rows[x].dst)
      && Place(s, rows[x].src, rows[x].dst) == s.Hosts() + s.Hosts() + x && rows[x].bw == bw && rows[x].dl == dl
  {
    var q, m := Quot(x, s.h), Rem(x, s.h);
    Recompose(x, s.h);
    QuotBelow(x, s.Edges(), s.h);
    CoreRowAt(s.Hosts(), s.Edges(), s.h, s.Edges(), bw, dl, q, m);
    Within(Rem(q, s.h), s.h, s.h, m);
    Compose(Rem(q, s.h), s.h, m);
  }

  /** Conversely, every pair to be joined has its link, at its place. */
  lemma JoinedAt(s: Shape, bw: nat, dl: nat, u: nat, v: nat)
    requires s.h > 0 && Joined(s, u, v)
    ensures Place(s, u, v) < |Links(s, bw, dl)|
    ensures Links(s, bw, dl)[Place(s, u, v)] == Link(u, v, bw, dl)
  {
    if u >= AggBase(s) {
      JoinedCore(s.Hosts(), s.Edges(), s.h, bw, dl, u - AggBase(s), v - CoreBase(s));
      CorePart(s, bw, dl, Slot(u - AggBase(s), s.h, Rem(v - CoreBase(s), s.h)));
    } else if u >= EdgeBase(s) {
      JoinedAgg(s.Hosts(), s.Edges(), s.h, bw, dl, u - EdgeBase(s), v - AggBase(s));
      EdgePart(s, bw, dl, Slot(u - EdgeBase(s), s.h, Rem(v - AggBase(s), s.h)));
    } else {
      LinkCount(s, bw, dl);
    }
  }

  /** The second and the third part of the links. */
  lemma EdgePart(s: Shape, bw: nat, dl: nat, x: nat)
    requires s.h > 0 && x < |EdgeRows(s.Hosts(), s.Edges(), s.h, s.Edges(), bw, dl)|
    ensures s.Hosts() + x < |Links(s, bw, dl)|
    ensures Links(s, bw, dl)[s.Hosts() + x] == EdgeRows(s.Hosts(), s.Edges(), s.h, s.Edges(), bw, dl)[x]
  {}

  lemma CorePart(s: Shape, bw: nat, dl: nat, x: nat)
    requires s.h > 0 && x < |CoreRows(s.Hosts(), s.Edges(), s.h, s.Edges(), bw, dl)|
    ensures s.Hosts() + s.Hosts() + x < |Links(s, bw, dl)|
    ensures Links(s, bw, dl)[s.Hosts() + s.Hosts() + x] == CoreRows(s.Hosts(), s.Edges(), s.h, s.Edges(), bw, dl)[x]
  {
    EdgeRowsLength(s.Hosts(), s.Edges(), s.h, s.Edges(), bw, dl);
  }

  lemma JoinedAgg(n: nat, e: nat, h: nat, bw: nat, dl: nat, q: nat, a: nat)
    requires h > 0 && q < e && Quot(a, h) == Quot(q, h)
    ensures Slot(q, h, Rem(a, h)) < |EdgeRows(n, e, h, e, bw, dl)|
    ensures EdgeRows(n, e, h, e, bw, dl)[Slot(q, h, Rem(a, h))] == Link(n + q, n + e + a, bw, dl)
  {
    Split(a, h);
    EdgeRowAt(n, e, h, e, bw, dl, q, Rem(a, h));
  }

  lemma JoinedCore(n: nat, e: nat, h: nat, bw: nat, dl: nat, a: nat, c: nat)
    requires h > 0 && a < e && Quot(c, h) == Rem(a, h)
    ensures Slot(a, h, Rem(c, h)) < |CoreRows(n, e, h, e, bw, dl)|
    ensures CoreRows(n, e, h, e, bw, dl)[Slot(a, h, Rem(c, h))] == Link(n + e + a, n + e + e + c, bw, dl)
  {
    Split(c, h);
    CoreRowAt(n, e, h, e, bw, dl, a, Rem(c, h));
  }

  lemma Split(t: nat, h: nat)
    requires h > 0
    ensures Slot(Quot(t, h), h, Rem(t, h)) == t
  {
    Recompose(t, h);
  }

  /** The links of the file are those of the fat-tree, no pair of nodes twice, each from the lower id to the higher. */
  lemma LinksExact(s: Shape, bw: nat, dl: nat)
    requires s.h > 0
    ensures forall u: nat, v: nat :: Link(u, v, bw, dl) in Links(s, bw, dl) <==> Joined(s, u, v)
    ensures forall i, j | 0 <= i < j < |Links(s, bw, dl)| ::
      (Links(s, bw, dl)[i].src, Links(s, bw, dl)[i].dst) != (Links(s, bw, dl)[j].src, Links(s, bw, dl)[j].dst)
    ensures forall l | l in Links(s, bw, dl) :: l.src < l.dst < End(s) && l.bw == bw && l.dl == dl
  {
    var links := Links(s, bw, dl);
    LinkCount(s, bw, dl);
    forall i: nat | i < |links|
      ensures Joined(s, links[i].src, links[i].dst) && Place(s, links[i].src, links[i].dst) == i && links[i].bw == bw
      && links[i].dl == dl {
      LinkAt(s, bw, dl, i);
    }
    forall u: nat, v: nat | Joined(s, u, v) ensures Link(u, v, bw, dl) in links {
      JoinedAt(s, bw, dl, u, v);
    }
    forall l | l in links ensures l.src < l.dst < End(s) {
      Upward(s, l.src, l.dst);
    }
  }

  lemma Upward(s: Shape, u: nat, v: nat)
    requires s.h > 0 && Joined(s, u, v)
    ensures u < v < End(s)
  {
    if u < EdgeBase(s) {
      QuotBelow(u, s.Edges(), s.h);
    }
  }

  function Linked(s: Shape, v: nat): set<nat>
    requires s.h > 0
  {
    set u: nat | u < End(s) && (Joined(s, u, v) || Joined(s, v, u))
  }

  /** The nodes numbered a * h .. a * h + h - 1 from `base` on. */
  function Block(base: nat, a: nat, h: nat): seq<nat> {
    Numbers(base + Slot(a, h, 0), h)
  }

  /** Every h-th node, `p` of them. */
  function Column(base: nat, m: nat, h: nat, p: nat): seq<nat> {
    seq(p, i requires i >= 0 => base + Slot(i, h, m))
  }

  /** The nodes `v` is linked to, written out: first those below, then those above. */
  function Listed(s: Shape, v: nat): seq<nat>
    requires s.h > 0
  {
    if v < EdgeBase(s) then
      [EdgeBase(s) + Quot(v, s.h)]
    else if v < AggBase(s) then
      Block(0, v - EdgeBase(s), s.h) + Block(AggBase(s), Quot(v - EdgeBase(s), s.h), s.h)
    else if v < CoreBase(s) then
      Block(EdgeBase(s), Quot(v - AggBase(s), s.h), s.h) + Block(CoreBase(s), Rem(v - AggBase(s), s.h), s.h)
    else
      Column(AggBase(s), Quot(v - CoreBase(s), s.h), s.h, s.p)
  }

  lemma BlockMembers(base: nat, a: nat, h: nat, x: nat)
    requires h > 0
    ensures x in Block(base, a, h) <==> x >= base && Quot(x - base, h) == a
  {
    var block := Block(base, a, h);
    if x >= base {
      Recompose(x - base, h);
      if Quot(x - base, h) == a {
        assert block[Rem(x - base, h)] == x;
      }
    }
    if x in block {
      var i :| 0 <= i < |block| && block[i] == x;
      Compose(a, h, i);
    }
  }

  lemma ColumnMembers(base: nat, m: nat, h: nat, p: nat, x: nat)
    requires m < h
    ensures x in Column(base, m, h, p) <==> x >= base && x - base < p * h && Rem(x - base, h) == m
  {
    var column := Column(base, m, h, p);
    if x >= base {
      Recompose(x - base, h);
      if x - base < p * h && Rem(x - base, h) == m {
        QuotBelow(x - base, p, h);
        assert column[Quot(x - base, h)] == x;
      }
    }
    if x in column {
      var i :| 0 <= i < |column| && column[i] == x;
      Compose(i, h, m);
      Within(i, p, h, m);
    }
  }

  lemma ColumnApart(base: nat, m: nat, h: nat, p: nat)
    requires m < h
    ensures forall i, j | 0 <= i < j < p :: Column(base, m, h, p)[i] != Column(base, m, h, p)[j]
  {
    forall i: nat, j: nat | i < j < p ensures Column(base, m, h, p)[i] != Column(base, m, h, p)[j] {
      Compose(i, h, m);
      Compose(j, h, m);
    }
  }

  lemma ListedMembers(s: Shape, v: nat, u: nat)
    requires s.h > 0 && v < End(s)
    ensures u in Listed(s, v) <==> u < End(s) && (Joined(s, u, v) || Joined(s, v, u))
  {
    if v < EdgeBase(s) {
      QuotBelow(v, s.Edges(), s.h);
    } else if v < AggBase(s) {
      ListedAtEdge(s, v, u);
    } else if v < CoreBase(s) {
      ListedAtAgg(s, v, u);
    } else {
      ListedAtCore(s, v, u);
    }
  }

  lemma ListedAtEdge(s: Shape, v: nat, u: nat)
    requires s.h > 0 && EdgeBase(s) <= v < AggBase(s)
    ensures u in Listed(s, v) <==> Joined(s, u, v) || Joined(s, v, u)
  {
    var q := v - EdgeBase(s);
    BlockMembers(0, q, s.h, u);
    BlockMembers(AggBase(s), Quot(q, s.h), s.h, u);
    QuotBelow(u, s.Edges(), s.h);
    QuotBelow(q, s.p, s.h);
    if u >= AggBase(s) {
      QuotBelow(u - AggBase(s), s.p, s.h);
    }
  }

  lemma ListedAtAgg(s: Shape, v: nat, u: nat)
    requires s.h > 0 && AggBase(s) <= v < CoreBase(s)
    ensures u in Listed(s, v) <==> Joined(s, u, v) || Joined(s, v, u)
  {
    var a := v - AggBase(s);
    BlockMembers(EdgeBase(s), Quot(a, s.h), s.h, u);
    BlockMembers(CoreBase(s), Rem(a, s.h), s.h, u);
    QuotBelow(a, s.p, s.h);
    QuotBelow(u, s.Edges(), s.h);
    if u >= EdgeBase(s) {
      QuotBelow(u - EdgeBase(s), s.p, s.h);
    }
    if u >= CoreBase(s) {
      QuotBelow(u - CoreBase(s), s.h, s.h);
    }
  }

  lemma ListedAtCore(s: Shape, v: nat, u: nat)
    requires s.h > 0 && CoreBase(s) <= v < End(s)
    ensures u in Listed(s, v) <==> Joined(s, u, v)
  {
    QuotBelow(v - CoreBase(s), s.h, s.h);
    QuotBelow(u, s.Edges(), s.h);
    ColumnMembers(AggBase(s), Quot(v - CoreBase(s), s.h), s.h, s.p, u);
  }

  lemma ListedApart(s: Shape, v: nat)
    requires s.h > 0 && v < End(s)
    ensures forall i, j | 0 <= i < j < |Listed(s, v)| :: Listed(s, v)[i] != Listed(s, v)[j]
  {
    if EdgeBase(s) <= v < AggBase(s) {
      Within(v - EdgeBase(s), s.Edges(), s.h, s.h - 1);
    } else if AggBase(s) <= v < CoreBase(s) {
      QuotBelow(v - AggBase(s), s.p, s.h);
      Within(Quot(v - AggBase(s), s.h), s.p, s.h, s.h - 1);
    } else if CoreBase(s) <= v {
      QuotBelow(v - CoreBase(s), s.h, s.h);
      ColumnApart(AggBase(s), Quot(v - CoreBase(s), s.h), s.h, s.p);
    }
  }

  /** In the fat-tree for an even k from 2 on, every host has one link and every switch of each layer exactly k. */
  lemma Degrees(k: nat, v: nat)
    requires k >= 2 && k % 2 == 0
    requires v < End(Shape(k, k / 2))
    ensures |Linked(Shape(k, k / 2), v)| == if v < Shape(k, k / 2).Hosts() then 1 else k
  {
    var s := Shape(k, k / 2);
    forall u: nat ensures u in Linked(s, v) <==> u in Listed(s, v) {
      ListedMembers(s, v, u);
    }
    ListedApart(s, v);
    SizeOf(Linked(s, v), Listed(s, v));
  }

  /** The products and sums that the nested generator computes, in its order; all ids and counters stay below them. */
  function Computed(k: nat): seq<nat> {
    var h := k / 2;
    [h * h, h * h * k, h * k, h * h * k + h * h + h * k + h * k, h * h + h * k + h * k,
     k * h * h, h * k * (k - h), h * h * k + k * h * h + h * k * (k - h)]
  }

  /** None of them is larger than the number of links, or 7 for k = 2, and all fit into 32 signed bits exactly up to k =
      1420. */
  lemma FitsInInt(k: nat)
    requires k >= 2 && k % 2 == 0
    ensures Computed(k)[7] == 3 * Shape(k, k / 2).Hosts() && Computed(k)[3] == End(Shape(k, k / 2))
    ensures forall x | x in Computed(k) :: x <= 3 * Shape(k, k / 2).Hosts() + 1
    ensures (forall x | x in Computed(k) :: x < 0x8000_0000) <==> k <= 1420
  {
    var h := k / 2;
    InTermsOfHalf(h);
    if h <= 710 {
      CubeMonotone(h, 710);
    } else {
      CubeMonotone(711, h);
    }
    MulMonotone(1, h, h);
    if h > 1 {
      MulMonotone(2, h, h * h);
    }
    assert 6 * Cube(h) in Computed(k) by { assert Computed(k)[7] == 6 * Cube(h); }
  }

  lemma InTermsOfHalf(h: nat)
    ensures Computed(2 * h) == [h * h, 2 * Cube(h), 2 * (h * h), 2 * Cube(h) + 5 * (h * h), 5 * (h * h), 2 * Cube(h),
                                2 * Cube(h), 6 * Cube(h)]
  {
    assert h * h * (2 * h) == 2 * Cube(h) && h * (2 * h) == 2 * (h * h);
    assert 2 * h * h * h == 2 * Cube(h) && h * (2 * h) * (2 * h - h) == 2 * Cube(h);
  }

  lemma CubeMonotone(a: nat, b: nat)
    requires a <= b
    ensures Cube(a) <= Cube(b)
  {
    MulMonotone(a * a, b * b, a);
    assert b * b * a == a * (b * b);
    MulMonotone(a, b, b * b);
  }

  function Cube(h: nat): nat { h * h * h }

}
