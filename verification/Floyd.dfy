/** All-pairs shortest paths in place, and the search for the first link of a path (scratch/third.cc). */
module Floyd {
  import opened Basics

  /** The entry of two nodes that no link joins. */
  const INF: nat := 0x3fff_ffff

  /** Sums are taken modulo 2^32, as the program's are. */
  function Add32(a: nat, b: nat): nat {
    (a + b) % 0x1_0000_0000
  }

  type Matrix = seq<seq<nat>>

  predicate Square(w: Matrix) {
    forall i | 0 <= i < |w| :: |w[i]| == |w|
  }

  /** A matrix as the topology file fills it: zero on the diagonal, nothing above INF. */
  predicate Weights(w: Matrix) {
    && Square(w)
    && (forall i | 0 <= i < |w| :: w[i][i] == 0)
    && (forall i, j | 0 <= i < |w| && 0 <= j < |w| :: w[i][j] <= INF)
  }

  /** The entry for (i, j) after the rounds for intermediate nodes 0 .. k - 1. */
  ghost function Dist(w: Matrix, k: nat, i: nat, j: nat): nat
    requires Square(w) && k <= |w| && i < |w| && j < |w|
  {
    if k == 0 then w[i][j]
    else
      var around := Dist(w, k - 1, i, k - 1) + Dist(w, k - 1, k - 1, j);
      if around < Dist(w, k - 1, i, j) then around else Dist(w, k - 1, i, j)
  }

  ghost predicate Improves(w: Matrix, k: nat, i: nat, j: nat)
    requires Square(w) && k < |w| && i < |w| && j < |w|
  {
    Dist(w, k, i, k) + Dist(w, k, k, j) < Dist(w, k, i, j)
  }

  /** The last of the rounds 0 .. k - 1 that improved the entry for (i, j). */
  ghost function LastRound(w: Matrix, k: nat, i: nat, j: nat): Option<nat>
    requires Square(w) && k <= |w| && i < |w| && j < |w|
  {
    if k == 0 then None else if Improves(w, k - 1, i, j) then Some(k - 1) else LastRound(w, k - 1, i, j)
  }

  /** The hop entry after k rounds that started from the hop matrix `h`. */
  ghost function Hop(w: Matrix, h: Matrix, k: nat, i: nat, j: nat): nat
    requires Square(w) && Square(h) && |h| == |w| && k <= |w| && i < |w| && j < |w|
  {
    var last := LastRound(w, k, i, j);
    if last.Some? then last.value else h[i][j]
  }

  lemma {:induction false} DistBounds(w: Matrix, k: nat, i: nat, j: nat)
    requires Weights(w) && k <= |w| && i < |w| && j < |w|
    ensures Dist(w, k, i, i) == 0 && Dist(w, k, i, j) <= w[i][j] <= INF
  {
    if k > 0 {
      DistBounds(w, k - 1, i, j);
      DistBounds(w, k - 1, i, i);
    }
  }

  /** Round k leaves its own row and column alone, so updating in place does no harm. */
  lemma OwnRowAndColumn(w: Matrix, k: nat, i: nat)
    requires Weights(w) && k < |w| && i < |w|
    ensures Dist(w, k + 1, i, k) == Dist(w, k, i, k) && Dist(w, k + 1, k, i) == Dist(w, k, k, i)
  {
    DistBounds(w, k, k, i);
  }

  /** The assignment a[i][j] = x on a vector of rows. */
  method Assign(a: array<seq<nat>>, i: nat, j: nat, x: nat)
    requires i < a.Length && j < |a[i]|
    modifies a
    ensures a[..] == Put(old(a[..]), i, j, x)
  {
    a[i] := a[i][j := x];
  }

  /** The body of the innermost loop. */
  method Relax(G: array<seq<nat>>, nextHop: array<seq<nat>>, ghost w: Matrix, ghost h: Matrix, k: nat, i: nat, j: nat)
    requires G != nextHop && Cells(w, h, G[..], nextHop[..], k, i, j) && k < |w| && i < |w| && j < |w|
    modifies G, nextHop
    ensures Cells(w, h, G[..], nextHop[..], k, i, j + 1)
  {
    CellStep(w, h, G[..], nextHop[..], k, i, j);
    if Add32(G[i][k], G[k][j]) < G[i][j] {
      Assign(G, i, j, Add32(G[i][k], G[k][j]));
      Assign(nextHop, i, j, k);
    }
  }

  method Floyd(G: array<seq<nat>>, nextHop: array<seq<nat>>)
    requires G != nextHop && G.Length == nextHop.Length
    requires Weights(G[..]) && Square(nextHop[..])
    modifies G, nextHop
    ensures Square(G[..]) && Square(nextHop[..])
    ensures forall i, j | 0 <= i < G.Length && 0 <= j < G.Length :: G[i][j] == Dist(old(G[..]), G.Length, i, j)
    ensures forall i, j | 0 <= i < G.Length && 0 <= j < G.Length ::
      nextHop[i][j] == Hop(old(G[..]), old(nextHop[..]), G.Length, i, j)
  {
    var n := G.Length;
    ghost var w, h := G[..], nextHop[..];
    for k := 0 to n
      invariant Cells(w, h, G[..], nextHop[..], k, 0, 0)
    {
      for i := 0 to n
        invariant Cells(w, h, G[..], nextHop[..], k, i, 0)
      {
        for j := 0 to n
          invariant Cells(w, h, G[..], nextHop[..], k, i, j)
        {
          Relax(G, nextHop, w, h, k, i, j);
        }
      }
    }
  }

  function Put(m: Matrix, i: nat, j: nat, x: nat): Matrix
    requires i < |m| && j < |m[i]|
  {
    var row: seq<nat> := m[i][j := x];
    m[i := row]
  }

  /** The new contents of the cell (i, j); the 32-bit sum does not wrap around. */
  lemma NewCell(w: Matrix, h: Matrix, g: Matrix, next: Matrix, k: nat, i: nat, j: nat)
    requires Cells(w, h, g, next, k, i, j) && k < |w| && i < |w| && j < |w|
    ensures Add32(g[i][k], g[k][j]) == g[i][k] + g[k][j]
    ensures var better := g[i][k] + g[k][j] < g[i][j];
      Cell(w, h, if better then g[i][k] + g[k][j] else g[i][j], if better then k else next[i][j], k + 1, i, j)
  {
    assert Cell(w, h, g[i][j], next[i][j], k, i, j);
    assert Dist(w, k, i, k) == g[i][k] by { OwnRowAndColumn(w, k, i); }
    assert Dist(w, k, k, j) == g[k][j] by { OwnRowAndColumn(w, k, j); }
    DistBounds(w, k, i, k);
    DistBounds(w, k, k, j);
  }

  /** One turn of the innermost loop. */
  lemma CellStep(w: Matrix, h: Matrix, g: Matrix, next: Matrix, k: nat, i: nat, j: nat)
    requires Cells(w, h, g, next, k, i, j) && k < |w| && i < |w| && j < |w|
    ensures Add32(g[i][k], g[k][j]) == g[i][k] + g[k][j]
    ensures g[i][k] + g[k][j] < g[i][j] ==>
      Cells(w, h, Put(g, i, j, g[i][k] + g[k][j]), Put(next, i, j, k), k, i, j + 1)
    ensures g[i][k] + g[k][j] >= g[i][j] ==> Cells(w, h, g, next, k, i, j + 1)
  {
    NewCell(w, h, g, next, k, i, j);
    var better := g[i][k] + g[k][j] < g[i][j];
    var g' := if better then Put(g, i, j, g[i][k] + g[k][j]) else g;
    var next' := if better then Put(next, i, j, k) else next;
    forall a, b | 0 <= a < |w| && 0 <= b < |w|
      ensures Cell(w, h, g'[a][b], next'[a][b], if a < i || (a == i && b < j + 1) then k + 1 else k, a, b)
    {
      if a != i || b != j {
        assert Cell(w, h, g[a][b], next[a][b], if a < i || (a == i && b < j) then k + 1 else k, a, b);
      }
    }
  }

  /** In round k, the cells before (i, j) hold the entries of the next round, the others still those of this one. */
  ghost predicate Cells(w: Matrix, h: Matrix, g: Matrix, next: Matrix, k: nat, i: nat, j: nat) {
    && |w| == |h| == |g| == |next| && Square(g) && Square(next) && Weights(w) && Square(h)
    && k <= |w| && i <= |w| && j <= |w| && (k == |w| ==> i == j == 0)
    && forall a, b | 0 <= a < |w| && 0 <= b < |w| ::
      Cell(w, h, g[a][b], next[a][b], if a < i || (a == i && b < j) then k + 1 else k, a, b)
  }

  ghost predicate Cell(w: Matrix, h: Matrix, d: nat, hop: nat, k: nat, a: nat, b: nat)
    requires Square(w) && Square(h) && |h| == |w| && k <= |w| && a < |w| && b < |w|
  {
    d == Dist(w, k, a, b) && hop == Hop(w, h, k, a, b)
  }
}
