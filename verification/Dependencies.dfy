/** Dependency pairs, the chains and cycles they form, and who has a cycle upstream. */
module Dependencies {
  import opened Basics

  /** Elements are only compared for equality. */
  type Element = nat

  /** A list of (parent, child) pairs. */
  type Pairs = seq<(Element, Element)>

  ghost predicate Chain(pairs: Pairs, q: seq<Element>) {
    forall t | 0 <= t < |q| - 1 :: (q[t], q[t + 1]) in pairs
  }

  ghost predicate Cycle(pairs: Pairs, q: seq<Element>) {
    |q| >= 2 && Chain(pairs, q) && q[0] == q[|q| - 1]
  }

  ghost predicate Cyclic(pairs: Pairs) {
    exists q :: Cycle(pairs, q)
  }

  /** Some cycle leads to `x`. */
  ghost predicate CycleAbove(pairs: Pairs, x: Element) {
    exists c, q :: Leads(pairs, c, q, x)
  }

  ghost predicate Leads(pairs: Pairs, c: seq<Element>, q: seq<Element>, x: Element) {
    Cycle(pairs, c) && Chain(pairs, q) && q != [] && q[0] == c[0] && q[|q| - 1] == x
  }

  lemma OnOwnCycle(pairs: Pairs, c: seq<Element>)
    requires Cycle(pairs, c)
    ensures CycleAbove(pairs, c[0])
  {
    assert Leads(pairs, c, [c[0]], c[0]);
  }

  function Mentioned(pairs: Pairs): set<Element> {
    if pairs == [] then {} else Mentioned(pairs[..|pairs| - 1]) + {pairs[|pairs| - 1].0, pairs[|pairs| - 1].1}
  }

  lemma {:induction false} PairMentioned(pairs: Pairs, p: Element, c: Element)
    requires (p, c) in pairs
    ensures p in Mentioned(pairs) && c in Mentioned(pairs)
  {
    if pairs[|pairs| - 1] != (p, c) {
      assert pairs == pairs[..|pairs| - 1] + [pairs[|pairs| - 1]];
      PairMentioned(pairs[..|pairs| - 1], p, c);
    }
  }

  /** Every element listed comes after all of its parents. */
  ghost predicate ParentsFirst(pairs: Pairs, order: seq<Element>) {
    forall i, p | 0 <= i < |order| && (p, order[i]) in pairs :: p in order[..i]
  }

  ghost predicate HasParentIn(pairs: Pairs, s: set<Element>, x: Element) {
    exists p :: p in s && (p, x) in pairs
  }

  /** Every element of `s` has a parent in `s`. */
  ghost predicate Stuck(pairs: Pairs, s: set<Element>) {
    forall x {:trigger HasParentIn(pairs, s, x)} | x in s :: HasParentIn(pairs, s, x)
  }

  /** Walking up from parent to parent within a finite set must come round, so a cycle leads to every member. */
  lemma {:induction false} StuckBelowCycle(pairs: Pairs, s: set<Element>, q: seq<Element>)
    requires Stuck(pairs, s) && q != [] && Chain(pairs, q) && NoDuplicates(q) && forall x | x in q :: x in s
    ensures CycleAbove(pairs, q[|q| - 1])
    decreases |s| - |q|
  {
    NoDuplicatesFit(q, s);
    assert q[0] in q && HasParentIn(pairs, s, q[0]);
    var p :| p in s && (p, q[0]) in pairs;
    if p in q {
      var t :| 0 <= t < |q| && q[t] == p;
      var c := [p] + q[..t + 1];
      assert Leads(pairs, c, q[t..], q[|q| - 1]);
    } else {
      NoDuplicatesFit([p] + q, s);
      StuckBelowCycle(pairs, s, [p] + q);
    }
  }

  lemma EarlierPlace(pairs: Pairs, order: seq<Element>, t: nat, p: Element) returns (u: nat)
    requires ParentsFirst(pairs, order) && t < |order| && (p, order[t]) in pairs
    ensures u < t && order[u] == p
  {
    u :| 0 <= u < t && order[..t][u] == p;
  }

  /** A chain that ends in an ordered list climbs it position by position. */
  lemma {:induction false} ChainClimbs(pairs: Pairs, order: seq<Element>, q: seq<Element>, i: nat) returns (j: nat)
    requires ParentsFirst(pairs, order) && Chain(pairs, q) && q != [] && i < |order| && q[|q| - 1] == order[i]
    ensures j + |q| - 1 <= i && order[j] == q[0]
  {
    if |q| == 1 {
      j := i;
    } else {
      var p := q[|q| - 2];
      var m := EarlierPlace(pairs, order, i, p);
      j := ChainClimbs(pairs, order, q[..|q| - 1], m);
    }
  }

  /** No cycle leads to an element of an ordered list. */
  lemma OrderedNotBelowCycle(pairs: Pairs, order: seq<Element>, x: Element)
    requires ParentsFirst(pairs, order) && NoDuplicates(order) && x in order
    ensures !CycleAbove(pairs, x)
  {
    if CycleAbove(pairs, x) {
      var c, q :| Leads(pairs, c, q, x);
      var i :| 0 <= i < |order| && order[i] == x;
      var j := ChainClimbs(pairs, order, q, i);
      var m := ChainClimbs(pairs, order, c, j);
    }
  }
}
