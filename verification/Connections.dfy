/** Drawing the connections of a traffic pattern: generate_QP of scratch/third.cc. */
module Connections {
  import opened Basics
  import opened Division
  import opened Topology

  type Pair = (nat, nat)

  datatype Outcome = Drawn(pairs: seq<Pair>) | AssertionFailed | DivisionByZero

  /** Two hosts in different racks of `rack` hosts each. */
  predicate InterRack(hosts: nat, rack: nat, p: Pair) {
    rack > 0 && p.0 < hosts && p.1 < hosts && Quot(p.0, rack) != Quot(p.1, rack)
  }

  function Pairs(hosts: nat, rack: nat): (s: set<Pair>)
    ensures forall p: Pair :: p in s <==> InterRack(hosts, rack, p)
  {
    set a: nat, b: nat | a in Range(0, hosts) && b in Range(0, hosts) && InterRack(hosts, rack, (a, b)) :: (a, b)
  }

  /** The number of connections asked for, kept between 1 and `most` as the program does it: if there
      is no pair at all, asking for less than one connection still gives 1. */
  function Clamped(wanted: nat, most: nat): nat {
    if wanted > most then most else if wanted < 1 then 1 else wanted
  }

  /** Draws distinct connections between racks, as many as wanted if there are so many, at least one.
      Which ones is left to chance. */
  method GenerateQP(hosts: nat, flows: nat, perConnection: nat, rack: nat) returns (r: Outcome)
    ensures perConnection == 0 ==> r == Drawn([])
    ensures r == DivisionByZero <==> perConnection != 0 && rack == 0 && hosts > 0
    ensures perConnection != 0 && (rack != 0 || hosts == 0) ==>
      (r == AssertionFailed <==> Pairs(hosts, rack) == {} && Quot(flows, perConnection) < 1)
    ensures perConnection != 0 && r.Drawn? ==>
      && NoDuplicates(r.pairs) && (forall p | p in r.pairs :: InterRack(hosts, rack, p))
      && |r.pairs| == Clamped(Quot(flows, perConnection), |Pairs(hosts, rack)|)
      && |r.pairs| <= |Pairs(hosts, rack)| && (Pairs(hosts, rack) != {} ==> |r.pairs| >= 1)
      && (1 <= flows / perConnection <= |Pairs(hosts, rack)| ==> |r.pairs| == flows / perConnection)
      && (flows / perConnection > |Pairs(hosts, rack)| ==> |r.pairs| == |Pairs(hosts, rack)|)
      && (flows / perConnection < 1 ==> |r.pairs| == 1)
  {
    if perConnection == 0 {
      return Drawn([]);
    }
    if rack == 0 && hosts > 0 {
      return DivisionByZero;
    }
    var all := AllPairs(hosts, rack);
    SizeOf(Pairs(hosts, rack), all);
    var wanted := Quot(flows, perConnection);
    assert wanted == flows / perConnection by { AreOperators(flows, perConnection); }
    if wanted > |all| {
      wanted := |all|;
    } else if wanted < 1 {
      wanted := 1;
    }
    if wanted < |all| / 2 {
      var qps := Pick(all, wanted);
      return Drawn(qps);
    } else {
      var left := Thin(all, wanted);
      if |left| != wanted {
        return AssertionFailed;
      }
      return Drawn(left);
    }
  }

  method AllPairs(hosts: nat, rack: nat) returns (all: seq<Pair>)
    requires rack > 0 || hosts == 0
    ensures NoDuplicates(all) && forall p: Pair :: p in all <==> InterRack(hosts, rack, p)
  {
    all := [];
    for sender := 0 to hosts
      invariant NoDuplicates(all)
      invariant forall p: Pair :: p in all <==> p.0 < sender && InterRack(hosts, rack, p)
    {
      for receiver := 0 to hosts
        invariant NoDuplicates(all)
        invariant forall p: Pair ::
          p in all <==> InterRack(hosts, rack, p) && (p.0 < sender || (p.0 == sender && p.1 < receiver))
      {
        if Quot(sender, rack) != Quot(receiver, rack) {
          all := all + [(sender, receiver)];
        }
      }
    }
  }

  function Without<T>(s: seq<T>, i: nat): seq<T>
    requires i < |s|
  {
    s[..i] + s[i + 1..]
  }

  /** Moves randomly chosen pairs over until there are enough. */
  method Pick(all0: seq<Pair>, wanted: nat) returns (qps: seq<Pair>)
    requires NoDuplicates(all0) && wanted <= |all0|
    ensures NoDuplicates(qps) && |qps| == wanted
    ensures forall p | p in qps :: p in all0
  {
    var all := all0;
    qps := [];
    while |qps| < wanted
      invariant |qps| + |all| == |all0| && |qps| <= wanted
      invariant NoDuplicates(qps) && NoDuplicates(all)
      invariant forall p | p in qps :: p in all0 && p !in all
      invariant forall p | p in all :: p in all0
    {
      var curr: nat :| curr < |all|;
      assert all[curr] in all && all[curr] !in qps;
      qps := qps + [all[curr]];
      all := Without(all, curr);
    }
  }

  /** Removes randomly chosen pairs until few enough are left. */
  method Thin(all0: seq<Pair>, wanted: nat) returns (all: seq<Pair>)
    requires NoDuplicates(all0)
    ensures NoDuplicates(all) && |all| == if |all0| <= wanted then |all0| else wanted
    ensures forall p | p in all :: p in all0
  {
    all := all0;
    while |all| > wanted
      invariant |all| >= wanted || all == all0
      invariant NoDuplicates(all) && |all| <= |all0| && forall p | p in all :: p in all0
    {
      var curr: nat :| curr < |all|;
      all := Without(all, curr);
    }
  }
}
