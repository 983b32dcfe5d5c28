/** The two fat-tree generators, scratch/fat-tree-generator.cc with nested loops and
    mix/fat-tree-generator.cc with flattened ones, and the topology file both write. */
module FatTree {
  import opened Division

  /** One link line: two node ids, a rate and a delay. */
  datatype Link = Link(src: nat, dst: nat, bw: nat, dl: nat)

  datatype Header = Header(nodes: nat, switches: nat, hostsPerPod: nat, edges: nat, cores: nat, links: nat)

  datatype File = File(header: Header, switchIds: seq<nat>, links: seq<Link>)

  /** The nested generator turns odd k away, and divides by zero for k = 0. */
  datatype Outcome = Written(file: File) | Refused | DivisionByZero

  /** `p` pods of `h` edge switches with `h` hosts each, as many aggregation switches, and h * h core switches. */
  datatype Shape = Shape(p: nat, h: nat) {
    function Edges(): nat { p * h }

    function Hosts(): nat { Edges() * h }

    function Cores(): nat { h * h }
  }

  /** How the links run, by position within each of the three groups, with `n` hosts and `e` edge switches. */
  function HostLink(n: nat, h: nat, t: nat, bw: nat, dl: nat): Link
    requires h > 0
  {
    Link(t, n + Quot(t, h), bw, dl)
  }

  /** Links from one node to `h` consecutive ones. */
  function Fan(src: nat, first: nat, h: nat, bw: nat, dl: nat): seq<Link> {
    seq(h, m requires m >= 0 => Link(src, first + m, bw, dl))
  }

  /** The links of edge switches 0 .. r - 1 to the aggregation switches of their pods. */
  function EdgeRows(n: nat, e: nat, h: nat, r: nat, bw: nat, dl: nat): seq<Link>
    requires h > 0
  {
    if r == 0 then [] else EdgeRows(n, e, h, r - 1, bw, dl) + Fan(n + (r - 1), n + e + Quot(r - 1, h) * h, h, bw, dl)
  }

  /** The links of aggregation switches 0 .. r - 1 to the core switches of their class. */
  function CoreRows(n: nat, e: nat, h: nat, r: nat, bw: nat, dl: nat): seq<Link>
    requires h > 0
  {
    if r == 0 then []
    else CoreRows(n, e, h, r - 1, bw, dl) + Fan(n + e + (r - 1), n + e + e + Rem(r - 1, h) * h, h, bw, dl)
  }

  function HostLinks(n: nat, h: nat, bw: nat, dl: nat): seq<Link>
    requires h > 0
  {
    seq(n, t requires t >= 0 => HostLink(n, h, t, bw, dl))
  }

  function Links(s: Shape, bw: nat, dl: nat): seq<Link> {
    if s.h == 0 then []
    else
      HostLinks(s.Hosts(), s.h, bw, dl)
      + EdgeRows(s.Hosts(), s.Edges(), s.h, s.Edges(), bw, dl)
      + CoreRows(s.Hosts(), s.Edges(), s.h, s.Edges(), bw, dl)
  }

  function Numbers(from: nat, n: nat): seq<nat> {
    seq(n, i requires i >= 0 => from + i)
  }

  function Topology(s: Shape, bw: nat, dl: nat): File {
    var switches := s.Cores() + s.Edges() + s.Edges();
    File(Header(s.Hosts() + switches, switches, s.Cores(), s.Edges(), s.Cores(), 3 * s.Hosts()),
         Numbers(s.Hosts(), switches), Links(s, bw, dl))
  }

  /** The header of the file for k = 2 * h, in terms of h alone. */
  ghost predicate Counts(d: Header, h: nat) {
    && d.hostsPerPod == d.cores == h * h && d.edges == 2 * h * h && d.switches == 5 * h * h
    && d.nodes == 2 * h * h * h + 5 * h * h && d.links == 6 * h * h * h
  }

  lemma HeaderCounts(h: nat, bw: nat, dl: nat)
    ensures Counts(Topology(Shape(2 * h, h), bw, dl).header, h)
  {
    var s, e := Shape(2 * h, h), 2 * h * h;
    assert s.Edges() == e && s.Hosts() == e * h;
  }

  // ----- scratch/fat-tree-generator.cc

  method Nested(pod: nat, bw: nat, dl: nat) returns (r: Outcome)
    ensures r == if pod % 2 != 0 then Refused else if pod == 0 then DivisionByZero
      else Written(Topology(Shape(pod, pod / 2), bw, dl))
    ensures r.Written? ==> Counts(r.file.header, pod / 2)
  {
    HeaderCounts(pod / 2, bw, dl);
    if pod % 2 != 0 {
      return Refused;
    }
    var hostPerPod, core := (pod / 2) * (pod / 2), (pod / 2) * (pod / 2);
    var host := hostPerPod * pod;
    var aggPerPod, edgePerPod := pod / 2, pod / 2;
    var agg, edge := (pod / 2) * pod, (pod / 2) * pod;
    if edge == 0 {
      return DivisionByZero;
    }
    NestedSizes(pod, edgePerPod, host, edge);
    var hostPerEdge := Quot(host, edge);
    var nodes := host + core + agg + edge;
    var header :=
      Header(nodes, core + agg + edge, hostPerPod, edge, core,
             host + pod * edgePerPod * aggPerPod + agg * (pod - edgePerPod));
    var ids := Ids(host, nodes);
    var links := WriteHostLinks(host, hostPerEdge, bw, dl);
    links := NestedEdgeLinks(pod, edgePerPod, aggPerPod, host, edge, bw, dl, links);
    links := NestedCoreLinks(pod, edgePerPod, aggPerPod, host, edge, agg, bw, dl, links);
    return Written(File(header, ids, links));
  }

  lemma NestedSizes(k: nat, h: nat, host: nat, edge: nat)
    requires k == 2 * h > 0 && host == h * h * k && edge == h * k > 0
    ensures host == Shape(k, h).Hosts() && edge == Shape(k, h).Edges()
    ensures Quot(host, edge) == h && host + k * h * h + edge * (k - h) == 3 * host
  {
    assert host == h * edge;
    Compose(h, edge, 0);
    assert k * h * h == host;
    assert edge * h == host;
  }

  /** The loop over the host-edge links. */
  method WriteHostLinks(host: nat, hostPerEdge: nat, bw: nat, dl: nat) returns (links: seq<Link>)
    requires hostPerEdge > 0
    ensures links == HostLinks(host, hostPerEdge, bw, dl)
  {
    links := [];
    for i := 0 to host
      invariant links == HostLinks(host, hostPerEdge, bw, dl)[..i]
    {
      links := links + [Link(i, host + Quot(i, hostPerEdge), bw, dl)];
    }
  }

  /** The loop that writes the ids of all switches. */
  method Ids(host: nat, nodes: nat) returns (ids: seq<nat>)
    requires host <= nodes
    ensures ids == Numbers(host, nodes - host)
  {
    ids := [];
    for i := host to nodes
      invariant ids == Numbers(host, nodes - host)[..i - host]
    {
      ids := ids + [i];
    }
  }

  /** The innermost loops: one switch is linked to `h` consecutive ones. */
  method WriteFan(src: nat, first: nat, h: nat, bw: nat, dl: nat, before: seq<Link>) returns (links: seq<Link>)
    ensures links == before + Fan(src, first, h, bw, dl)
  {
    links := before;
    for k := 0 to h
      invariant links == before + Fan(src, first, h, bw, dl)[..k]
    {
      links := links + [Link(src, first + k, bw, dl)];
    }
  }

  /** The loops over the edge-aggregation links. */
  method NestedEdgeLinks(pod: nat, edgePerPod: nat, aggPerPod: nat, host: nat, edge: nat, bw: nat, dl: nat,
                         before: seq<Link>) returns (links: seq<Link>)
    requires edgePerPod == aggPerPod > 0 && edge == pod * edgePerPod
    ensures links == before + EdgeRows(host, edge, edgePerPod, edge, bw, dl)
  {
    links := before;
    for i := 0 to pod
      invariant links == before + EdgeRows(host, edge, edgePerPod, i * edgePerPod, bw, dl)
    {
      ghost var first := i * edgePerPod;
      links := PodEdgeLinks(host, edge, edgePerPod, aggPerPod, i * edgePerPod, i * aggPerPod, i, bw, dl, links, before);
      assert (i + 1) * edgePerPod == first + edgePerPod;
    }
  }

  lemma PodAndPlace(i: nat, h: nat, first: nat, j: nat)
    requires first == i * h && j < h
    ensures Quot(first + j, h) == i && Rem(first + j, h) == j
  {
    Compose(i, h, j);
  }

  /** The links of one pod; its first edge switch is number `first`. */
  method PodEdgeLinks(host: nat, edge: nat, edgePerPod: nat, aggPerPod: nat, first: nat, firstAgg: nat, ghost i: nat,
                      bw: nat, dl: nat, links0: seq<Link>, ghost before: seq<Link>)
    returns (links: seq<Link>)
    requires edgePerPod == aggPerPod > 0 && first == firstAgg == i * edgePerPod
    requires links0 == before + EdgeRows(host, edge, edgePerPod, first, bw, dl)
    ensures links == before + EdgeRows(host, edge, edgePerPod, first + edgePerPod, bw, dl)
  {
    links := links0;
    for j := 0 to edgePerPod
      invariant links == before + EdgeRows(host, edge, edgePerPod, first + j, bw, dl)
    {
      PodAndPlace(i, edgePerPod, first, j);
      links := WriteFan(host + first + j, host + edge + firstAgg, aggPerPod, bw, dl, links);
    }
  }

  /** The loops over the aggregation-core links. */
  method NestedCoreLinks(pod: nat, edgePerPod: nat, aggPerPod: nat, host: nat, edge: nat, agg: nat, bw: nat, dl: nat,
                         before: seq<Link>) returns (links: seq<Link>)
    requires edgePerPod == aggPerPod > 0 && pod - edgePerPod == edgePerPod && edge == agg == pod * edgePerPod
    ensures links == before + CoreRows(host, edge, edgePerPod, edge, bw, dl)
  {
    links := before;
    for i := 0 to pod
      invariant links == before + CoreRows(host, edge, edgePerPod, i * edgePerPod, bw, dl)
    {
      ghost var first := i * edgePerPod;
      links := PodCoreLinks(host, edge, agg, aggPerPod, pod - edgePerPod, i * aggPerPod, i, bw, dl, links, before);
      assert (i + 1) * edgePerPod == first + edgePerPod;
    }
  }

  /** The links of the aggregation switches of one pod, the first of which is number `first`. */
  method PodCoreLinks(host: nat, edge: nat, agg: nat, aggPerPod: nat, coresPerAgg: nat, first: nat, ghost i: nat,
                      bw: nat, dl: nat, links0: seq<Link>, ghost before: seq<Link>)
    returns (links: seq<Link>)
    requires coresPerAgg == aggPerPod > 0 && edge == agg && first == i * aggPerPod
    requires links0 == before + CoreRows(host, edge, aggPerPod, first, bw, dl)
    ensures links == before + CoreRows(host, edge, aggPerPod, first + aggPerPod, bw, dl)
  {
    links := links0;
    for j := 0 to aggPerPod
      invariant links == before + CoreRows(host, edge, aggPerPod, first + j, bw, dl)
    {
      PodAndPlace(i, aggPerPod, first, j);
      assert j * coresPerAgg == Rem(first + j, aggPerPod) * aggPerPod;
      links := WriteFan(host + edge + first + j, host + edge + agg + j * coresPerAgg, coresPerAgg, bw, dl, links);
    }
  }

  // ----- mix/fat-tree-generator.cc

  method Flattened(k: nat, bw: nat, dl: nat) returns (file: File)
    ensures file == Topology(Shape(k, k / 2), bw, dl)
  {
    var leafPerPod, spinePerPod := k / 2, k / 2;
    var leaf, spine := k * leafPerPod, k * spinePerPod;
    var core, host := (k / 2) * (k / 2), k / 2;
    var hostNum, swNum := host * leaf, leaf + spine + core;
    FlattenedSizes(k, k / 2, leaf, hostNum);
    var header := Header(hostNum + leaf + spine + core, swNum, leafPerPod * host, leaf, core,
                         core * k + (spinePerPod * leafPerPod) * k + host * leaf);
    var ids := FlattenedIds(hostNum, swNum);
    var links := [];
    if host > 0 {
      links := WriteHostLinks(hostNum, host, bw, dl);
      links := FlattenedEdgeLinks(hostNum, leaf, leafPerPod, spinePerPod, bw, dl, links);
      links := FlattenedCoreLinks(hostNum, leaf, spine, spinePerPod, core, bw, dl, links);
    }
    file := File(header, ids, links);
  }

  lemma FlattenedSizes(k: nat, h: nat, leaf: nat, hostNum: nat)
    requires leaf == k * h && hostNum == h * leaf
    ensures hostNum == Shape(k, h).Hosts() && leaf == Shape(k, h).Edges()
    ensures h * h * k + h * h * k + hostNum == 3 * hostNum
  {
    assert h * h * k == hostNum;
  }

  method FlattenedIds(hostNum: nat, swNum: nat) returns (ids: seq<nat>)
    ensures ids == Numbers(hostNum, swNum)
  {
    ids := [];
    var firstId := hostNum;
    for i := 0 to swNum
      invariant firstId == hostNum + i && ids == Numbers(hostNum, swNum)[..i]
    {
      ids := ids + [firstId];
      firstId := firstId + 1;
    }
  }

  /** The loop over the leaf-spine links; its inner loop runs over the spines of the leaf's pod. */
  method FlattenedEdgeLinks(hostNum: nat, leaf: nat, leafPerPod: nat, spinePerPod: nat, bw: nat, dl: nat,
                            before: seq<Link>) returns (links: seq<Link>)
    requires leafPerPod == spinePerPod > 0
    ensures links == before + EdgeRows(hostNum, leaf, spinePerPod, leaf, bw, dl)
  {
    links := before;
    for i := 0 to leaf
      invariant links == before + EdgeRows(hostNum, leaf, spinePerPod, i, bw, dl)
    {
      var leafPod := Quot(i, leafPerPod);
      var startIndex := leafPod * spinePerPod;
      links := WriteFanFrom(hostNum + i, hostNum + leaf, startIndex, startIndex + spinePerPod, bw, dl, links);
    }
  }

  /** The inner loops here count from a start index. */
  method WriteFanFrom(src: nat, base: nat, start: nat, stop: nat, bw: nat, dl: nat, before: seq<Link>)
    returns (links: seq<Link>)
    requires start <= stop
    ensures links == before + Fan(src, base + start, stop - start, bw, dl)
  {
    links := before;
    for j := start to stop
      invariant links == before + Fan(src, base + start, stop - start, bw, dl)[..j - start]
    {
      links := links + [Link(src, base + j, bw, dl)];
    }
  }

  /** The loop over the spine-core links; its inner loop runs over the cores of the spine's class. */
  method FlattenedCoreLinks(hostNum: nat, leaf: nat, spine: nat, spinePerPod: nat, core: nat, bw: nat, dl: nat,
                            before: seq<Link>) returns (links: seq<Link>)
    requires spinePerPod > 0 && core == spinePerPod * spinePerPod && spine == leaf
    ensures links == before + CoreRows(hostNum, leaf, spinePerPod, leaf, bw, dl)
  {
    links := before;
    Compose(spinePerPod, spinePerPod, 0);
    for i := 0 to spine
      invariant links == before + CoreRows(hostNum, leaf, spinePerPod, i, bw, dl)
    {
      var spineIdInPod := Rem(i, spinePerPod);
      var corePerClass := Quot(core, spinePerPod);
      var startIndex := corePerClass * spineIdInPod;
      assert startIndex == spineIdInPod * spinePerPod;
      links := WriteFanFrom(hostNum + leaf + i, hostNum + leaf + spine, startIndex, startIndex + corePerClass, bw, dl,
                            links);
    }
  }

  /** Run side by side, the two programs write the same file for every even k from 2 on, and for no other k. */
  method Both(k: nat, bw: nat, dl: nat) returns (nested: Outcome, flattened: File)
    ensures nested == Written(flattened) <==> k % 2 == 0 && k >= 2
    ensures k % 2 != 0 ==> nested == Refused
  {
    nested := Nested(k, bw, dl);
    flattened := Flattened(k, bw, dl);
  }
}
