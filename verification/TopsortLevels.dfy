/** The functions topsort_levels and topsort_levels_core of bindings/python/topsort.py. */
module TopsortLevels {
  import opened Basics
  import opened Dependencies
  import opened Topsort

  ghost predicate ChainTo(pairs: Pairs, q: seq<Element>, x: Element) {
    q != [] && Chain(pairs, q) && q[|q| - 1] == x
  }

  /** The longest chain of dependencies that ends at `x` has `n` links. */
  ghost predicate Depth(pairs: Pairs, x: Element, n: nat) {
    && (exists q :: ChainTo(pairs, q, x) && |q| == n + 1)
    && (forall q | ChainTo(pairs, q, x) :: |q| <= n + 1)
  }

  /** The elements that have been emitted once `n` levels have been. */
  ghost function Upto(pairs: Pairs, all: set<Element>, n: nat): set<Element> {
    if n == 0 then {} else set x | x in all && ParentsIn(pairs, Upto(pairs, all, n - 1), x)
  }

  ghost predicate ParentsIn(pairs: Pairs, s: set<Element>, x: Element) {
    forall p | (p, x) in pairs :: p in s
  }

  lemma {:induction false} UptoGrows(pairs: Pairs, all: set<Element>, n: nat)
    ensures Upto(pairs, all, n) <= Upto(pairs, all, n + 1) <= all
  {
    if n > 0 {
      UptoGrows(pairs, all, n - 1);
      assert forall x | ParentsIn(pairs, Upto(pairs, all, n - 1), x) :: ParentsIn(pairs, Upto(pairs, all, n), x);
    }
  }

  /** A chain that ends among the first n levels starts among the first n + 1 - |q|, so it has at most n elements. */
  lemma {:induction false} ChainsAreShort(pairs: Pairs, all: set<Element>, n: nat, q: seq<Element>)
    requires Chain(pairs, q) && q != [] && q[|q| - 1] in Upto(pairs, all, n)
    ensures |q| <= n && q[0] in Upto(pairs, all, n + 1 - |q|)
  {
    if |q| > 1 {
      var front := q[..|q| - 1];
      assert (front[|front| - 1], q[|q| - 1]) in pairs;
      assert ParentsIn(pairs, Upto(pairs, all, n - 1), q[|q| - 1]);
      ChainsAreShort(pairs, all, n - 1, front);
    }
  }

  /** An element not among the first n levels ends a chain of n + 1 elements. */
  lemma {:induction false} LongChain(pairs: Pairs, all: set<Element>, n: nat, x: Element) returns (q: seq<Element>)
    requires Mentioned(pairs) <= all && x in all && x !in Upto(pairs, all, n)
    ensures ChainTo(pairs, q, x) && |q| == n + 1
  {
    if n == 0 {
      q := [x];
    } else {
      assert !ParentsIn(pairs, Upto(pairs, all, n - 1), x);
      var p :| (p, x) in pairs && p !in Upto(pairs, all, n - 1);
      PairMentioned(pairs, p, x);
      var front := LongChain(pairs, all, n - 1, p);
      q := front + [x];
    }
  }

  /** The elements new at level n are exactly those whose longest chain has n links. */
  lemma LevelIsDepth(pairs: Pairs, all: set<Element>, n: nat, x: Element)
    requires Mentioned(pairs) <= all && x in all
    ensures x in Upto(pairs, all, n + 1) && x !in Upto(pairs, all, n) <==> Depth(pairs, x, n)
  {
    if x in Upto(pairs, all, n + 1) && x !in Upto(pairs, all, n) {
      var q := LongChain(pairs, all, n, x);
      forall q' | ChainTo(pairs, q', x) ensures |q'| <= n + 1 {
        ChainsAreShort(pairs, all, n + 1, q');
      }
    }
    if Depth(pairs, x, n) {
      var q :| ChainTo(pairs, q, x) && |q| == n + 1;
      if x in Upto(pairs, all, n) {
        ChainsAreShort(pairs, all, n, q);
      }
      if x !in Upto(pairs, all, n + 1) {
        var q' := LongChain(pairs, all, n + 1, x);
      }
    }
  }

  /** No cycle leads to an element that is emitted at some level. */
  lemma EmittedNotBelowCycle(pairs: Pairs, all: set<Element>, n: nat, x: Element)
    requires x in Upto(pairs, all, n)
    ensures !CycleAbove(pairs, x)
  {
    if c, q :| Leads(pairs, c, q, x) {
      ChainsAreShort(pairs, all, n, q);
      NotOnCycle(pairs, all, n + 1 - |q|, c);
    }
  }

  lemma {:induction false} NotOnCycle(pairs: Pairs, all: set<Element>, n: nat, c: seq<Element>)
    requires Cycle(pairs, c)
    ensures c[0] !in Upto(pairs, all, n)
  {
    if c[0] in Upto(pairs, all, n) {
      ChainsAreShort(pairs, all, n, c);
      NotOnCycle(pairs, all, n + 1 - |c|, c);
    }
  }

  /** When a level comes out empty, exactly the elements below a cycle are left. */
  lemma LeftBelowCycle(pairs: Pairs, all: set<Element>, n: nat)
    requires Mentioned(pairs) <= all && Upto(pairs, all, n + 1) == Upto(pairs, all, n)
    ensures forall x | x in all :: x in Upto(pairs, all, n) <==> !CycleAbove(pairs, x)
  {
    var left := all - Upto(pairs, all, n);
    forall x | x in left ensures HasParentIn(pairs, left, x) {
      assert !ParentsIn(pairs, Upto(pairs, all, n), x);
      var p :| (p, x) in pairs && p !in Upto(pairs, all, n);
      PairMentioned(pairs, p, x);
    }
    forall x | x in all ensures x in Upto(pairs, all, n) <==> !CycleAbove(pairs, x) {
      if x in Upto(pairs, all, n) {
        EmittedNotBelowCycle(pairs, all, n, x);
      } else {
        StuckBelowCycle(pairs, left, [x]);
      }
    }
  }

  /** The list `level` holds, each once, the elements at depth n. */
  ghost predicate LevelAt(pairs: Pairs, all: set<Element>, n: nat, level: seq<Element>) {
    && level != [] && NoDuplicates(level)
    && forall x :: x in level <==> x in all && Depth(pairs, x, n)
  }

  lemma LevelFound(pairs: Pairs, all: set<Element>, n: nat, numParents: map<Element, nat>, level: seq<Element>)
    requires Mentioned(pairs) <= all && Counted(pairs, all, Upto(pairs, all, n), numParents)
    requires NoDuplicates(level) && forall x :: x in level <==> x in numParents && numParents[x] == 0
    ensures Elements(level) == Upto(pairs, all, n + 1) - Upto(pairs, all, n)
    ensures level != [] ==> LevelAt(pairs, all, n, level)
  {
    UptoGrows(pairs, all, n);
    forall x | x in all && x !in Upto(pairs, all, n)
      ensures x in level <==> x in Upto(pairs, all, n + 1)
    {
      CountIntoZero(pairs, Upto(pairs, all, n), x);
      assert ParentsIn(pairs, Upto(pairs, all, n), x) <==> CountInto(pairs, Upto(pairs, all, n), x) == 0;
    }
    forall x | x in all ensures x in level <==> Depth(pairs, x, n) {
      LevelIsDepth(pairs, all, n, x);
    }
  }

  /** While a level is struck off, its members are not among the children counted down. */
  ghost predicate Striking(pairs: Pairs, all: set<Element>, n: nat, level: seq<Element>, a: nat,
                           numParents: map<Element, nat>, children: map<Element, seq<Element>>)
  {
    && a <= |level| && NoDuplicates(level) && Mentioned(pairs) <= all
    && Elements(level) == Upto(pairs, all, n + 1) - Upto(pairs, all, n)
    && Counted(pairs, all, Upto(pairs, all, n) + Elements(level[..a]), numParents)
    && Listed(pairs, Upto(pairs, all, n) + Elements(level[..a]), children)
  }

  /** One member of a level is struck off: its children lose a parent each. */
  method Strike(ghost pairs: Pairs, ghost all: set<Element>, ghost n: nat, level: seq<Element>, a: nat,
                numParents: map<Element, nat>, children: map<Element, seq<Element>>)
    returns (numParents': map<Element, nat>, children': map<Element, seq<Element>>)
    requires a < |level| && Striking(pairs, all, n, level, a, numParents, children)
    ensures Striking(pairs, all, n, level, a + 1, numParents', children')
    ensures NoneEmpty(children) ==> NoneEmpty(children')
  {
    var parent := level[a];
    ghost var done := Upto(pairs, all, n) + Elements(level[..a]);
    numParents', children' := numParents - {parent}, children - {parent};
    assert parent in level && Elements(level[..a + 1]) == Elements(level[..a]) + {parent};
    ghost var kids := ChildrenOf(pairs, parent);
    if parent in children {
      var list := children[parent];
      for m := 0 to |list|
        invariant list == kids && Counting(pairs, all, done, parent, numParents', kids, m)
      {
        ChildOutside(pairs, all, n, level, a, list[m]);
        ChildCounted(pairs, all, done, parent, numParents', kids, m);
        CountDown(pairs, all, done, parent, numParents', kids, m);
        numParents' := numParents'[list[m] := numParents'[list[m]] - 1];
      }
    }
    Settled(pairs, all, done, parent, numParents', kids);
    assert done + {parent} == Upto(pairs, all, n) + Elements(level[..a + 1]);
  }

  /** A child of a member of a level is in no level up to that one. */
  lemma ChildOutside(pairs: Pairs, all: set<Element>, n: nat, level: seq<Element>, a: nat, c: Element)
    requires a < |level| && Mentioned(pairs) <= all && c in ChildrenOf(pairs, level[a])
    requires Elements(level) == Upto(pairs, all, n + 1) - Upto(pairs, all, n)
    ensures c in all && c !in Upto(pairs, all, n) && c !in Elements(level) && c !in Elements(level[..a])
      && c != level[a]
  {
    UptoGrows(pairs, all, n);
    ChildrenMembers(pairs, level[a], c);
    PairMentioned(pairs, level[a], c);
    assert level[a] in Elements(level);
    assert !ParentsIn(pairs, Upto(pairs, all, n), c);
  }

  lemma ChildCounted(pairs: Pairs, all: set<Element>, done: set<Element>, parent: Element,
                     numParents: map<Element, nat>, kids: seq<Element>, m: nat)
    requires Counting(pairs, all, done, parent, numParents, kids, m) && m < |kids| && kids[m] in numParents
    ensures numParents[kids[m]] > 0
  {
    CountPrefix(kids, m, kids[m]);
    CountPrefix(kids, m + 1, kids[m]);
    CountDrops(pairs, done, parent, kids[m]);
  }

  /** The generator as the list of what it yields, with the tables it raises CycleError with if it does. */
  datatype Outcome = Outcome(levels: seq<seq<Element>>, numParents: map<Element, nat>,
                             children: map<Element, seq<Element>>)
  {
    predicate Failed() {
      numParents != map[]
    }
  }

  method TopsortLevelsCore(numParents0: map<Element, nat>, children0: map<Element, seq<Element>>, ghost pairs: Pairs,
                           ghost all: set<Element>) returns (r: Outcome)
    requires Mentioned(pairs) <= all && Counted(pairs, all, {}, numParents0) && Listed(pairs, {}, children0)
    ensures forall n | 0 <= n < |r.levels| :: LevelAt(pairs, all, n, r.levels[n])
    ensures forall x | x in all :: (exists n :: 0 <= n < |r.levels| && x in r.levels[n]) <==> !CycleAbove(pairs, x)
    ensures forall x :: x in r.numParents <==> x in all && CycleAbove(pairs, x)
    ensures r.Failed() <==> Cyclic(pairs)
    ensures NoneEmpty(children0) ==> Leftovers(pairs, all, all - r.numParents.Keys, r.numParents, r.children)
  {
    var numParents, children := numParents0, children0;
    var levels: seq<seq<Element>> := [];
    var level := WithoutParents(numParents);
    FirstLevel(pairs, all, level, numParents, children);
    while level != []
      invariant Emitting(pairs, all, levels, level, numParents, children)
      invariant NoneEmpty(children0) ==> NoneEmpty(children)
      decreases |numParents.Keys|
    {
      StartStriking(pairs, all, levels, level, numParents, children);
      numParents, children := StrikeAll(pairs, all, |levels|, level, numParents, children);
      var next := WithoutParents(numParents);
      Yielded(pairs, all, levels, level, next, numParents, children);
      levels, level := levels + [level], next;
    }
    Finished(pairs, all, levels, numParents, children);
    if NoneEmpty(children) {
      LevelTables(pairs, all, levels, numParents, children);
    }
    r := Outcome(levels, numParents, children);
  }

  /** What the loop of the generator keeps true: `levels` have been yielded and `level` comes next, unless it is
      empty. */
  ghost predicate Emitting(pairs: Pairs, all: set<Element>, levels: seq<seq<Element>>, level: seq<Element>,
                           numParents: map<Element, nat>, children: map<Element, seq<Element>>)
  {
    && Counted(pairs, all, Upto(pairs, all, |levels|), numParents)
    && Listed(pairs, Upto(pairs, all, |levels|), children)
    && (forall n | 0 <= n < |levels| :: LevelAt(pairs, all, n, levels[n]))
    && NoDuplicates(level)
    && Elements(level) == Upto(pairs, all, |levels| + 1) - Upto(pairs, all, |levels|)
    && (level != [] ==> LevelAt(pairs, all, |levels|, level))
  }

  lemma FirstLevel(pairs: Pairs, all: set<Element>, level: seq<Element>, numParents: map<Element, nat>,
                   children: map<Element, seq<Element>>)
    requires Mentioned(pairs) <= all && Counted(pairs, all, {}, numParents) && Listed(pairs, {}, children)
    requires NoDuplicates(level) && forall x :: x in level <==> x in numParents && numParents[x] == 0
    ensures Emitting(pairs, all, [], level, numParents, children)
  {
    LevelFound(pairs, all, 0, numParents, level);
  }

  lemma Yielded(pairs: Pairs, all: set<Element>, levels: seq<seq<Element>>, level: seq<Element>, next: seq<Element>,
                numParents: map<Element, nat>, children: map<Element, seq<Element>>)
    requires Mentioned(pairs) <= all && LevelAt(pairs, all, |levels|, level)
    requires forall n | 0 <= n < |levels| :: LevelAt(pairs, all, n, levels[n])
    requires Counted(pairs, all, Upto(pairs, all, |levels| + 1), numParents)
      && Listed(pairs, Upto(pairs, all, |levels| + 1), children)
    requires NoDuplicates(next) && forall x :: x in next <==> x in numParents && numParents[x] == 0
    ensures Emitting(pairs, all, levels + [level], next, numParents, children)
  {
    LevelFound(pairs, all, |levels| + 1, numParents, next);
  }

  lemma StartStriking(pairs: Pairs, all: set<Element>, levels: seq<seq<Element>>, level: seq<Element>,
                      numParents: map<Element, nat>, children: map<Element, seq<Element>>)
    requires Mentioned(pairs) <= all && Emitting(pairs, all, levels, level, numParents, children)
    ensures Striking(pairs, all, |levels|, level, 0, numParents, children)
  {
    assert Upto(pairs, all, |levels|) + Elements(level[..0]) == Upto(pairs, all, |levels|);
  }

  method StrikeAll(ghost pairs: Pairs, ghost all: set<Element>, ghost n: nat, level: seq<Element>,
                   numParents: map<Element, nat>, children: map<Element, seq<Element>>)
    returns (numParents': map<Element, nat>, children': map<Element, seq<Element>>)
    requires level != [] && Striking(pairs, all, n, level, 0, numParents, children)
    ensures Counted(pairs, all, Upto(pairs, all, n + 1), numParents')
      && Listed(pairs, Upto(pairs, all, n + 1), children')
    ensures |numParents'.Keys| < |numParents.Keys|
    ensures NoneEmpty(children) ==> NoneEmpty(children')
  {
    numParents', children' := numParents, children;
    for a := 0 to |level|
      invariant Striking(pairs, all, n, level, a, numParents', children')
      invariant NoneEmpty(children) ==> NoneEmpty(children')
    {
      numParents', children' := Strike(pairs, all, n, level, a, numParents', children');
    }
    assert level[..|level|] == level;
    UptoGrows(pairs, all, n);
    assert Upto(pairs, all, n) + Elements(level) == Upto(pairs, all, n + 1);
    assert level[0] in Elements(level);
    assert numParents'.Keys < numParents.Keys;
    Smaller(numParents'.Keys, numParents.Keys);
  }

  lemma LevelTables(pairs: Pairs, all: set<Element>, levels: seq<seq<Element>>, numParents: map<Element, nat>,
                    children: map<Element, seq<Element>>)
    requires Emitting(pairs, all, levels, [], numParents, children) && NoneEmpty(children)
    ensures Leftovers(pairs, all, all - numParents.Keys, numParents, children)
  {
    UptoGrows(pairs, all, |levels|);
    assert all - numParents.Keys == Upto(pairs, all, |levels|);
    LeftoverTables(pairs, all, all - numParents.Keys, numParents, children);
  }

  lemma Smaller(s: set<Element>, t: set<Element>)
    requires s < t
    ensures |s| < |t|
  {
    assert t == s + (t - s);
  }

  lemma Finished(pairs: Pairs, all: set<Element>, levels: seq<seq<Element>>, numParents: map<Element, nat>,
                 children: map<Element, seq<Element>>)
    requires Mentioned(pairs) <= all && Emitting(pairs, all, levels, [], numParents, children)
    ensures forall x | x in all :: (exists n :: 0 <= n < |levels| && x in levels[n]) <==> !CycleAbove(pairs, x)
    ensures forall x :: x in numParents <==> x in all && CycleAbove(pairs, x)
    ensures numParents != map[] <==> Cyclic(pairs)
  {
    UptoGrows(pairs, all, |levels|);
    assert forall x | x in Upto(pairs, all, |levels| + 1) && x !in Upto(pairs, all, |levels|) :: x in Elements([]);
    LeftBelowCycle(pairs, all, |levels|);
    forall x | x in all ensures (exists n :: 0 <= n < |levels| && x in levels[n]) <==> x in Upto(pairs, all, |levels|) {
      InSomeLevel(pairs, all, levels, |levels|, x);
    }
    CyclicOnlyBelow(pairs);
    assert numParents != map[] <==> exists x :: x in numParents;
  }

  ghost predicate Emitted(levels: seq<seq<Element>>, k: nat, x: Element)
    requires k <= |levels|
  {
    exists n :: 0 <= n < k && x in levels[n]
  }

  lemma {:induction false} InSomeLevel(pairs: Pairs, all: set<Element>, levels: seq<seq<Element>>, k: nat, x: Element)
    requires Mentioned(pairs) <= all && x in all && k <= |levels|
    requires forall n | 0 <= n < |levels| :: LevelAt(pairs, all, n, levels[n])
    ensures x in Upto(pairs, all, k) <==> Emitted(levels, k, x)
  {
    if k > 0 {
      InSomeLevel(pairs, all, levels, k - 1, x);
      UptoGrows(pairs, all, k - 1);
      LevelIsDepth(pairs, all, k - 1, x);
      assert LevelAt(pairs, all, k - 1, levels[k - 1]);
    }
  }

  method TopsortLevels(pairs: Pairs) returns (r: Outcome)
    ensures forall n | 0 <= n < |r.levels| :: LevelAt(pairs, Mentioned(pairs), n, r.levels[n])
    ensures forall x | x in Mentioned(pairs) ::
      (exists n :: 0 <= n < |r.levels| && x in r.levels[n]) <==> !CycleAbove(pairs, x)
    ensures forall x :: x in r.numParents <==> x in Mentioned(pairs) && CycleAbove(pairs, x)
    ensures r.Failed() <==> Cyclic(pairs)
    ensures Leftovers(pairs, Mentioned(pairs), Mentioned(pairs) - r.numParents.Keys, r.numParents, r.children)
  {
    var numParents, children := CountParents(pairs);
    r := TopsortLevelsCore(numParents, children, pairs, Mentioned(pairs));
  }
}
