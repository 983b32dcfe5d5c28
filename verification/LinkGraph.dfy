/** The graph `nbr2if` as scratch/third.cc builds it line by line from the link lines of a topology file. */
module LinkGraph {
  import opened Basics
  import opened Topology
  import FatTree

  predicate Joins(l: FatTree.Link, a: nat, b: nat) {
    (l.src, l.dst) == (a, b) || (l.src, l.dst) == (b, a)
  }

  predicate Ends(l: FatTree.Link, a: nat) {
    a == l.src || a == l.dst
  }

  ghost predicate LinkBetween(links: seq<FatTree.Link>, n: nat, a: nat, b: nat)
    requires n <= |links|
  {
    exists i :: 0 <= i < n && Joins(links[i], a, b)
  }

  /** The last of the first `n` lines that joins `a` and `b`. */
  function LastLine(links: seq<FatTree.Link>, n: nat, a: nat, b: nat): (k: Option<nat>)
    requires n <= |links|
    ensures k.Some? ==> k.value < n && Joins(links[k.value], a, b) && forall i | k.value < i < n ::
      !Joins(links[i], a, b)
    ensures k.None? ==> forall i | 0 <= i < n :: !Joins(links[i], a, b)
  {
    if n == 0 then None else if Joins(links[n - 1], a, b) then Some(n - 1) else LastLine(links, n - 1, a, b)
  }

  /** How many devices node `a` has before line `k`: the loopback and one for each earlier line that ends at it. */
  function DevicesBefore(links: seq<FatTree.Link>, k: nat, a: nat): nat
    requires k <= |links|
  {
    if k == 0 then 1 else DevicesBefore(links, k - 1, a) + if Ends(links[k - 1], a) then 1 else 0
  }

  lemma {:induction false} DevicesGrow(links: seq<FatTree.Link>, k: nat, n: nat, a: nat)
    requires k < n <= |links| && Ends(links[k], a)
    ensures DevicesBefore(links, k, a) < DevicesBefore(links, n, a)
  {
    if k + 1 < n {
      DevicesGrow(links, k, n - 1, a);
    }
  }

  /** A link's interface; rates are given in Gbit per second. */
  function Wire(port: nat, l: FatTree.Link): Interface {
    Interface(port, true, l.dl, l.bw * 1_000_000_000)
  }

  /** The interface of `a` towards `b` is that of the last line that joins them. */
  ghost predicate Shows(links: seq<FatTree.Link>, n: nat, nbr: Links, a: nat, b: nat)
    requires n <= |links|
  {
    var k := LastLine(links, n, a, b);
    if a in nbr && b in nbr[a] then
      k.Some? && nbr[a][b] == Wire(DevicesBefore(links, k.value, a), links[k.value])
    else
      k.None?
  }

  /** The graph of the first `n` lines. */
  ghost predicate Graph(links: seq<FatTree.Link>, n: nat, nbr: Links) {
    n <= |links| && forall a: nat, b: nat :: Shows(links, n, nbr, a, b)
  }

  function Devices(ports: map<nat, nat>, a: nat): nat {
    if a in ports then ports[a] else 1
  }

  ghost predicate Counted(links: seq<FatTree.Link>, n: nat, ports: map<nat, nat>) {
    n <= |links| && forall a: nat :: Devices(ports, a) == DevicesBefore(links, n, a)
  }

  function Wired(nbr: Links, a: nat, b: nat, i: Interface): (r: Links)
    ensures forall x: nat, y: nat :: x in r && y in r[x] <==> (x in nbr && y in nbr[x]) || (x, y) == (a, b)
    ensures forall x: nat, y: nat | x in r && y in r[x] :: r[x][y] == if (x, y) == (a, b) then i else nbr[x][y]
  {
    var row: map<nat, Interface> := if a in nbr then nbr[a] else map[];
    nbr[a := row[b := i]]
  }

  /** The assignments at the end of the loop body, with the new port numbers of both nodes. */
  method AddLink(ghost links: seq<FatTree.Link>, ghost n: nat, l: FatTree.Link, nbr0: Links, ports0: map<nat, nat>)
    returns (nbr: Links, ports: map<nat, nat>)
    requires n < |links| && l == links[n] && l.src < l.dst
    requires Graph(links, n, nbr0) && Counted(links, n, ports0)
    ensures Graph(links, n + 1, nbr) && Counted(links, n + 1, ports)
  {
    var srcPort, dstPort := Devices(ports0, l.src), Devices(ports0, l.dst);
    ports := ports0[l.src := srcPort + 1];
    ports := ports[l.dst := dstPort + 1];
    nbr := Wired(nbr0, l.src, l.dst, Wire(srcPort, l));
    nbr := Wired(nbr, l.dst, l.src, Wire(dstPort, l));
    LineShown(links, n, l, nbr0, nbr);
    LineCounted(links, n, l, ports0);
  }

  lemma LineCounted(links: seq<FatTree.Link>, n: nat, l: FatTree.Link, ports: map<nat, nat>)
    requires n < |links| && l == links[n] && l.src < l.dst && Counted(links, n, ports)
    ensures Counted(links, n + 1, ports[l.src := Devices(ports, l.src) + 1][l.dst := Devices(ports, l.dst) + 1])
  {
    var m, ports' := n + 1, ports[l.src := Devices(ports, l.src) + 1][l.dst := Devices(ports, l.dst) + 1];
    forall a: nat ensures Devices(ports', a) == DevicesBefore(links, m, a) {
      assert Devices(ports, a) == DevicesBefore(links, n, a);
    }
  }

  lemma LineShown(links: seq<FatTree.Link>, n: nat, l: FatTree.Link, nbr: Links, nbr': Links)
    requires n < |links| && l == links[n] && l.src < l.dst && Graph(links, n, nbr)
    requires nbr' == Wired(Wired(nbr, l.src, l.dst, Wire(DevicesBefore(links, n, l.src), l)),
                           l.dst, l.src, Wire(DevicesBefore(links, n, l.dst), l))
    ensures Graph(links, n + 1, nbr')
  {
    var m := n + 1;
    forall a: nat, b: nat ensures Shows(links, m, nbr', a, b) {
      assert Shows(links, n, nbr, a, b);
    }
  }

  /** The lines before number `k` that end at `a`. */
  function LinesAt(links: seq<FatTree.Link>, k: nat, a: nat): set<nat>
    requires k <= |links|
  {
    set i: nat | i < k && (links[i].src == a || links[i].dst == a)
  }

  /** What the graph holds, line by line: unless a later line joins the same nodes, both ends have an interface with
      the delay of the line, its rate in bits per second, and as port number one more than earlier lines end there. */
  ghost predicate Interfaces(links: seq<FatTree.Link>, nbr: Links) {
    && (forall k: nat | k < |links| && LastOfItsNodes(links, k) ::
          && Faces(links, k, nbr, links[k].src, links[k].dst) && Faces(links, k, nbr, links[k].dst, links[k].src))
    && (forall a: nat, b: nat | a in nbr && b in nbr[a] :: LinkBetween(links, |links|, a, b))
  }

  ghost predicate LastOfItsNodes(links: seq<FatTree.Link>, k: nat)
    requires k < |links|
  {
    forall i | k < i < |links| ::
      && (links[i].src, links[i].dst) != (links[k].src, links[k].dst)
      && (links[i].src, links[i].dst) != (links[k].dst, links[k].src)
  }

  ghost predicate Faces(links: seq<FatTree.Link>, k: nat, nbr: Links, a: nat, b: nat)
    requires k < |links|
  {
    && a in nbr && b in nbr[a] && nbr[a][b].up && nbr[a][b].delay == links[k].dl
    && nbr[a][b].bw == links[k].bw * 1_000_000_000 && nbr[a][b].idx == 1 + |LinesAt(links, k, a)|
  }

  lemma {:induction false} DevicesCount(links: seq<FatTree.Link>, k: nat, a: nat)
    requires k <= |links|
    ensures DevicesBefore(links, k, a) == 1 + |LinesAt(links, k, a)|
  {
    if k == 0 {
      assert LinesAt(links, 0, a) == {};
    } else {
      DevicesCount(links, k - 1, a);
      assert LinesAt(links, k, a) == LinesAt(links, k - 1, a) + if Ends(links[k - 1], a) then {k - 1} else {};
    }
  }

  lemma GraphMeans(links: seq<FatTree.Link>, nbr: Links)
    requires Graph(links, |links|, nbr)
    ensures Interfaces(links, nbr)
  {
    forall k: nat | k < |links| && LastOfItsNodes(links, k)
      ensures Faces(links, k, nbr, links[k].src, links[k].dst)
      ensures Faces(links, k, nbr, links[k].dst, links[k].src) {
      FaceOf(links, k, nbr, links[k].src, links[k].dst);
      FaceOf(links, k, nbr, links[k].dst, links[k].src);
    }
    forall a: nat, b: nat | a in nbr && b in nbr[a] ensures LinkBetween(links, |links|, a, b) {
      assert Shows(links, |links|, nbr, a, b);
    }
  }

  lemma FaceOf(links: seq<FatTree.Link>, k: nat, nbr: Links, a: nat, b: nat)
    requires Graph(links, |links|, nbr) && k < |links| && LastOfItsNodes(links, k) && Joins(links[k], a, b)
    ensures Faces(links, k, nbr, a, b)
  {
    assert Shows(links, |links|, nbr, a, b);
    DevicesCount(links, k, a);
  }

  /** Links join known nodes and have a rate, lead both ways, and have ports of their own. */
  lemma GraphSound(links: seq<FatTree.Link>, count: nat, nbr: Links)
    requires Graph(links, |links|, nbr)
    requires forall l | l in links :: l.src < l.dst < count && l.bw > 0
    ensures WellFormed(nbr, Range(0, count)) && Symmetric(nbr) && PortsApart(nbr)
    ensures forall a: nat, b: nat :: Up(nbr, a, b) <==> LinkBetween(links, |links|, a, b)
  {
    forall a: nat, b: nat ensures Up(nbr, a, b) <==> LinkBetween(links, |links|, a, b) {
      assert Shows(links, |links|, nbr, a, b);
    }
    forall a: nat, b: nat | Up(nbr, a, b) ensures a < count && b < count && nbr[a][b].bw > 0 {
      assert Shows(links, |links|, nbr, a, b);
      assert links[LastLine(links, |links|, a, b).value] in links;
    }
    forall a: nat, b: nat, c: nat | a in nbr && b in nbr[a] && c in nbr[a] && b != c
      ensures nbr[a][b].idx != nbr[a][c].idx {
      PortOnce(links, nbr, a, b, c);
    }
  }

  lemma PortOnce(links: seq<FatTree.Link>, nbr: Links, a: nat, b: nat, c: nat)
    requires Graph(links, |links|, nbr) && a in nbr && b in nbr[a] && c in nbr[a] && b != c
    ensures nbr[a][b].idx != nbr[a][c].idx
  {
    assert Shows(links, |links|, nbr, a, b) && Shows(links, |links|, nbr, a, c);
    var k, m := LastLine(links, |links|, a, b).value, LastLine(links, |links|, a, c).value;
    if k < m {
      DevicesGrow(links, k, m, a);
    } else if m < k {
      DevicesGrow(links, m, k, a);
    }
  }
}
