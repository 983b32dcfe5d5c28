/** What the matrices left by Floyd mean: shortest path weights, and intermediate nodes that lead to a first link. */
module FloydPaths {
  import opened Basics
  import opened Floyd

  ghost predicate Walk(w: Matrix, i: nat, j: nat, p: seq<nat>) {
    && Square(w) && p != [] && p[0] == i && Last(p) == j
    && forall t | 0 <= t < |p| :: p[t] < |w|
  }

  ghost function Weight(w: Matrix, p: seq<nat>): nat
    requires Square(w) && forall t | 0 <= t < |p| :: p[t] < |w|
  {
    if |p| <= 1 then 0 else Weight(w, p[..|p| - 1]) + w[p[|p| - 2]][p[|p| - 1]]
  }

  lemma {:induction false} WeightSplit(w: Matrix, p: seq<nat>, t: nat)
    requires Square(w) && (forall s | 0 <= s < |p| :: p[s] < |w|) && t < |p|
    ensures Weight(w, p) == Weight(w, p[..t + 1]) + Weight(w, p[t..])
  {
    if t == |p| - 1 {
      assert p[..t + 1] == p;
    } else {
      var front := p[..|p| - 1];
      WeightSplit(w, front, t);
      assert front[..t + 1] == p[..t + 1];
      assert p[t..][..|p[t..]| - 1] == front[t..];
    }
  }

  /** Two walks that meet make one, and their weights add up. */
  lemma Concat(w: Matrix, a: seq<nat>, b: seq<nat>) returns (p: seq<nat>)
    requires a != [] && b != [] && Walk(w, a[0], Last(a), a) && Walk(w, b[0], Last(b), b) && Last(a) == b[0]
    ensures p == a + b[1..] && Walk(w, a[0], Last(b), p) && Weight(w, p) == Weight(w, a) + Weight(w, b)
  {
    p := a + b[1..];
    assert p[..|a|] == a && p[|a| - 1..] == b;
    WeightSplit(w, p, |a| - 1);
  }

  /** A walk whose inner nodes are below k. */
  ghost predicate Inside(w: Matrix, k: nat, p: seq<nat>) {
    p != [] && Walk(w, p[0], Last(p), p) && forall t | 0 < t < |p| - 1 :: p[t] < k
  }

  /** Some walk has exactly the weight that Floyd records after k rounds, and its inner nodes are below k. */
  lemma {:induction false} Attained(w: Matrix, k: nat, i: nat, j: nat) returns (p: seq<nat>)
    requires Weights(w) && k <= |w| && i < |w| && j < |w|
    ensures Walk(w, i, j, p) && Inside(w, k, p) && Weight(w, p) == Dist(w, k, i, j)
  {
    if k == 0 {
      p := [i, j];
      assert [i, j][..1] == [i];
    } else if Improves(w, k - 1, i, j) {
      var a := Attained(w, k - 1, i, k - 1);
      var b := Attained(w, k - 1, k - 1, j);
      p := Concat(w, a, b);
    } else {
      p := Attained(w, k - 1, i, j);
    }
  }

  /** Such a walk avoids k - 1 inside or splits there. */
  lemma Splits(w: Matrix, k: nat, p: seq<nat>) returns (t: nat)
    requires Inside(w, k, p) && 0 < k
    ensures t == 0 ==> Inside(w, k - 1, p)
    ensures t > 0 ==> t < |p| - 1 && p[t] == k - 1 && Inside(w, k - 1, p[..t + 1]) && Inside(w, k, p[t..])
  {
    t := FirstInside(p, k - 1);
  }

  /** No walk whose inner nodes are below k is lighter than what Floyd records after k rounds. */
  lemma {:induction false} Minimal(w: Matrix, k: nat, p: seq<nat>)
    requires Weights(w) && k <= |w| && Inside(w, k, p)
    ensures Dist(w, k, p[0], Last(p)) <= Weight(w, p)
    decreases k, |p|
  {
    if |p| == 1 {
      DistBounds(w, k, p[0], p[0]);
    } else if k == 0 {
      assert p[..1] == [p[0]];
    } else {
      var t := Splits(w, k, p);
      if t == 0 {
        Minimal(w, k - 1, p);
      } else {
        Minimal(w, k - 1, p[..t + 1]);
        Minimal(w, k, p[t..]);
        Around(w, k, p, t);
      }
    }
  }

  lemma Around(w: Matrix, k: nat, p: seq<nat>, t: nat)
    requires Weights(w) && 0 < k <= |w| && p != [] && Walk(w, p[0], Last(p), p) && t < |p| && p[t] == k - 1
    requires Dist(w, k - 1, p[0], k - 1) <= Weight(w, p[..t + 1]) && Dist(w, k, k - 1, Last(p)) <= Weight(w, p[t..])
    ensures Dist(w, k, p[0], Last(p)) <= Weight(w, p)
  {
    OwnRowAndColumn(w, k - 1, Last(p));
    WeightSplit(w, p, t);
  }

  /** The first position strictly inside `p` that holds `x`, or 0 if there is none. */
  lemma FirstInside(p: seq<nat>, x: nat) returns (t: nat)
    ensures t == 0 ==> forall s | 0 < s < |p| - 1 :: p[s] != x
    ensures t > 0 ==> t < |p| - 1 && p[t] == x && forall s | 0 < s < t :: p[s] != x
  {
    t := 1;
    while t < |p| - 1 && p[t] != x
      invariant t > 0 && forall s | 0 < s < t && s < |p| - 1 :: p[s] != x
    {
      t := t + 1;
    }
    t := if t < |p| - 1 then t else 0;
  }

  /** A walk along links only. */
  ghost predicate LinkWalk(w: Matrix, i: nat, j: nat, p: seq<nat>) {
    Walk(w, i, j, p) && forall t | 0 <= t < |p| - 1 :: w[p[t]][p[t + 1]] < INF
  }

  lemma {:induction false} LightWalkUsesLinks(w: Matrix, p: seq<nat>)
    requires Square(w) && (forall t | 0 <= t < |p| :: p[t] < |w|) && Weight(w, p) < INF
    ensures forall t | 0 <= t < |p| - 1 :: w[p[t]][p[t + 1]] < INF
  {
    if |p| > 1 {
      LightWalkUsesLinks(w, p[..|p| - 1]);
      assert forall t | 0 <= t < |p| - 2 :: w[p[t]][p[t + 1]] == w[p[..|p| - 1][t]][p[..|p| - 1][t + 1]];
    }
  }

  /** The finished matrix holds the weight of a lightest walk along links, cut off at INF. */
  lemma Exact(w: Matrix, i: nat, j: nat)
    requires Weights(w) && i < |w| && j < |w|
    ensures Dist(w, |w|, i, j) <= INF
    ensures forall p | LinkWalk(w, i, j, p) :: Dist(w, |w|, i, j) <= Weight(w, p)
    ensures Dist(w, |w|, i, j) < INF ==> exists p :: LinkWalk(w, i, j, p) && Weight(w, p) == Dist(w, |w|, i, j)
  {
    DistBounds(w, |w|, i, j);
    forall p | LinkWalk(w, i, j, p) ensures Dist(w, |w|, i, j) <= Weight(w, p) {
      Minimal(w, |w|, p);
    }
    var p := Attained(w, |w|, i, j);
    if Dist(w, |w|, i, j) < INF {
      LightWalkUsesLinks(w, p);
    }
  }

  lemma Triangle(w: Matrix, i: nat, m: nat, j: nat)
    requires Weights(w) && i < |w| && m < |w| && j < |w|
    ensures Dist(w, |w|, i, j) <= Dist(w, |w|, i, m) + Dist(w, |w|, m, j)
  {
    var a := Attained(w, |w|, i, m);
    var b := Attained(w, |w|, m, j);
    var p := Concat(w, a, b);
    Minimal(w, |w|, p);
  }

  lemma {:induction false} NeverRises(w: Matrix, k: nat, k': nat, i: nat, j: nat)
    requires Weights(w) && k <= k' <= |w| && i < |w| && j < |w|
    ensures Dist(w, k', i, j) <= Dist(w, k, i, j)
    ensures Dist(w, k', i, j) == Dist(w, k, i, j) ==> LastRound(w, k', i, j) == LastRound(w, k, i, j)
  {
    if k < k' {
      NeverRises(w, k, k' - 1, i, j);
    }
  }

  lemma {:induction false} LastRoundImproved(w: Matrix, k: nat, i: nat, j: nat)
    requires Weights(w) && k <= |w| && i < |w| && j < |w|
    ensures LastRound(w, k, i, j) == None ==> Dist(w, k, i, j) == w[i][j]
    ensures LastRound(w, k, i, j) != None ==>
      var m := LastRound(w, k, i, j).value;
      m < k && Improves(w, m, i, j) && Dist(w, k, i, j) == Dist(w, m, i, m) + Dist(w, m, m, j)
  {
    if k > 0 {
      LastRoundImproved(w, k - 1, i, j);
    }
  }

  /** A recorded intermediate node m lies on a lightest walk, is neither end of it, and if an intermediate
      node is recorded for the way from i to m as well, that one is smaller than m. */
  lemma Recorded(w: Matrix, i: nat, j: nat)
    requires Weights(w) && i < |w| && j < |w| && LastRound(w, |w|, i, j) != None
    ensures var m := LastRound(w, |w|, i, j).value;
      && m < |w| && m != i && m != j
      && Dist(w, |w|, i, j) == Dist(w, |w|, i, m) + Dist(w, |w|, m, j)
      && (LastRound(w, |w|, i, m) != None ==> LastRound(w, |w|, i, m).value < m)
  {
    LastRoundImproved(w, |w|, i, j);
    var m := LastRound(w, |w|, i, j).value;
    DistBounds(w, m, i, j);
    DistBounds(w, m, j, j);
    NeverRises(w, m, |w|, i, m);
    NeverRises(w, m, |w|, m, j);
    Triangle(w, i, m, j);
    LastRoundImproved(w, m, i, m);
  }

  /** `m` is the smallest bound on the inner nodes of a lightest walk from `i` to `j`: one lightest walk has no inner
      node beyond it, and every lightest walk has one that is not below it. */
  ghost predicate Pivot(w: Matrix, i: nat, j: nat, m: nat)
    requires Square(w) && i < |w| && j < |w|
  {
    m < |w| && LightestWithin(w, m + 1, i, j) && !LightestWithin(w, m, i, j)
  }

  /** Some lightest walk has all its inner nodes below `k`. */
  ghost predicate LightestWithin(w: Matrix, k: nat, i: nat, j: nat)
    requires Square(w) && i < |w| && j < |w|
  {
    exists p :: LightestInside(w, k, i, j, p)
  }

  ghost predicate LightestInside(w: Matrix, k: nat, i: nat, j: nat, p: seq<nat>)
    requires Square(w) && i < |w| && j < |w|
  {
    Walk(w, i, j, p) && Inside(w, k, p) && Weight(w, p) == Dist(w, |w|, i, j)
  }

  lemma Wider(w: Matrix, k: nat, k': nat, i: nat, j: nat, p: seq<nat>)
    requires Square(w) && i < |w| && j < |w| && k <= k' && LightestInside(w, k, i, j, p)
    ensures LightestInside(w, k', i, j, p)
  {}

  lemma PivotLeast(w: Matrix, i: nat, j: nat, a: nat, b: nat)
    requires Square(w) && i < |w| && j < |w| && Pivot(w, i, j, a) && Pivot(w, i, j, b)
    ensures a <= b
  {
    if b < a {
      var p :| LightestInside(w, b + 1, i, j, p);
      Wider(w, b + 1, a, i, j, p);
    }
  }

  /** A direct entry that is lightest has no pivot. */
  lemma DirectNoPivot(w: Matrix, i: nat, j: nat, m: nat)
    requires Square(w) && i < |w| && j < |w| && Dist(w, |w|, i, j) == w[i][j]
    ensures !Pivot(w, i, j, m)
  {
    assert [i, j][..1] == [i];
    assert LightestInside(w, m, i, j, [i, j]);
  }

  /** The intermediate node recorded for a pair is its pivot, and none is recorded where there is none. */
  lemma PivotRecorded(w: Matrix, i: nat, j: nat, m: nat)
    requires Weights(w) && i < |w| && j < |w|
    ensures LastRound(w, |w|, i, j) == Some(m) <==> Pivot(w, i, j, m)
  {
    var last := LastRound(w, |w|, i, j);
    if last.Some? {
      RecordedPivot(w, i, j);
      if Pivot(w, i, j, m) {
        PivotLeast(w, i, j, m, last.value);
        PivotLeast(w, i, j, last.value, m);
      }
    } else {
      LastRoundImproved(w, |w|, i, j);
      DirectNoPivot(w, i, j, m);
    }
  }

  lemma RecordedPivot(w: Matrix, i: nat, j: nat)
    requires Weights(w) && i < |w| && j < |w| && LastRound(w, |w|, i, j).Some?
    ensures Pivot(w, i, j, LastRound(w, |w|, i, j).value)
  {
    LastRoundImproved(w, |w|, i, j);
    var m := LastRound(w, |w|, i, j).value;
    var p := Attained(w, m + 1, i, j);
    assert LightestInside(w, m + 1, i, j, p);
    if LightestWithin(w, m, i, j) {
      var q :| LightestInside(w, m, i, j, q);
      Minimal(w, m, q);
    }
  }

  /** Where every entry between different nodes is at least `t`, no walk between different nodes is lighter. */
  lemma {:induction false} Apart(w: Matrix, k: nat, x: nat, y: nat, t: nat)
    requires Square(w) && k <= |w| && x < |w| && y < |w| && x != y
    requires forall a, b | 0 <= a < |w| && 0 <= b < |w| && a != b :: w[a][b] >= t
    ensures Dist(w, k, x, y) >= t
  {
    if k > 0 {
      Apart(w, k - 1, x, y, t);
      if x != k - 1 {
        Apart(w, k - 1, x, k - 1, t);
      } else {
        Apart(w, k - 1, k - 1, y, t);
      }
    }
  }
}
