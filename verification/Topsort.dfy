/** The function topsort of bindings/python/topsort.py: Kahn's algorithm on counted parents. */
module Topsort {
  import opened Basics
  import opened Dependencies

  /** How many pairs lead to `c` from a parent that is not in `done`. */
  function CountInto(pairs: Pairs, done: set<Element>, c: Element): nat {
    if pairs == [] then 0
    else
      var last := pairs[|pairs| - 1];
      CountInto(pairs[..|pairs| - 1], done, c) + if last.1 == c && last.0 !in done then 1 else 0
  }

  /** The children of `p` in the order of their pairs. */
  function ChildrenOf(pairs: Pairs, p: Element): seq<Element> {
    if pairs == [] then []
    else
      var last := pairs[|pairs| - 1];
      ChildrenOf(pairs[..|pairs| - 1], p) + if last.0 == p then [last.1] else []
  }

  function Count(s: seq<Element>, x: Element): nat {
    if s == [] then 0 else Count(s[..|s| - 1], x) + if s[|s| - 1] == x then 1 else 0
  }

  lemma {:induction false} CountZero(s: seq<Element>, x: Element)
    ensures Count(s, x) > 0 <==> x in s
  {
    if s != [] {
      CountZero(s[..|s| - 1], x);
      assert s == s[..|s| - 1] + [s[|s| - 1]];
    }
  }

  lemma {:induction false} CountIntoZero(pairs: Pairs, done: set<Element>, c: Element)
    ensures CountInto(pairs, done, c) > 0 <==> exists p :: p !in done && (p, c) in pairs
  {
    if pairs != [] {
      var front, last := pairs[..|pairs| - 1], pairs[|pairs| - 1];
      CountIntoZero(front, done, c);
      assert pairs == front + [last];
      if last.1 == c && last.0 !in done {
        assert (last.0, c) in pairs;
      }
    }
  }

  lemma {:induction false} ChildrenMembers(pairs: Pairs, p: Element, c: Element)
    ensures c in ChildrenOf(pairs, p) <==> (p, c) in pairs
  {
    if pairs != [] {
      ChildrenMembers(pairs[..|pairs| - 1], p, c);
      assert pairs == pairs[..|pairs| - 1] + [pairs[|pairs| - 1]];
    }
  }

  /** Once `p` is done, the count of `c` drops by the number of pairs (p, c), duplicates included. */
  lemma {:induction false} CountDrops(pairs: Pairs, done: set<Element>, p: Element, c: Element)
    requires p !in done
    ensures CountInto(pairs, done, c) == CountInto(pairs, done + {p}, c) + Count(ChildrenOf(pairs, p), c)
  {
    if pairs != [] {
      var front, last := pairs[..|pairs| - 1], pairs[|pairs| - 1];
      CountDrops(front, done, p, c);
      if last.0 == p {
        assert ChildrenOf(pairs, p) == ChildrenOf(front, p) + [last.1];
        assert ChildrenOf(pairs, p)[..|ChildrenOf(pairs, p)| - 1] == ChildrenOf(front, p);
      } else {
        assert ChildrenOf(pairs, p) == ChildrenOf(front, p) + [];
        assert ChildrenOf(pairs, p) == ChildrenOf(front, p);
      }
    }
  }

  /** The parent counts say what the pairs say once the elements in `done` are taken out. */
  ghost predicate Counted(pairs: Pairs, all: set<Element>, done: set<Element>, numParents: map<Element, nat>) {
    && numParents.Keys == all - done
    && forall c | c in numParents :: numParents[c] == CountInto(pairs, done, c)
  }

  /** The lists of children say what the pairs say; an element without children may or may not have an empty list. */
  ghost predicate Listed(pairs: Pairs, done: set<Element>, children: map<Element, seq<Element>>) {
    && (forall p | p in children :: p !in done && children[p] == ChildrenOf(pairs, p))
    && (forall p | p !in children && p !in done :: ChildrenOf(pairs, p) == [])
  }

  predicate NoneEmpty(children: map<Element, seq<Element>>) {
    forall p | p in children :: children[p] != []
  }

  /** The first loop of topsort and topsort_levels. */
  method CountParents(pairs: Pairs) returns (numParents: map<Element, nat>, children: map<Element, seq<Element>>)
    ensures Counted(pairs, Mentioned(pairs), {}, numParents) && Listed(pairs, {}, children) && NoneEmpty(children)
  {
    numParents, children := map[], map[];
    for i := 0 to |pairs|
      invariant Counted(pairs[..i], Mentioned(pairs[..i]), {}, numParents) && Listed(pairs[..i], {}, children)
      invariant NoneEmpty(children)
    {
      var (parent, child) := pairs[i];
      assert pairs[..i + 1] == pairs[..i] + [(parent, child)];
      CountPair(pairs[..i], numParents, parent, child);
      ListPair(pairs[..i], children, parent, child);
      if parent !in numParents {
        numParents := numParents[parent := 0];
      }
      if child !in numParents {
        numParents := numParents[child := 0];
      }
      numParents := numParents[child := numParents[child] + 1];
      children := children[parent := (if parent in children then children[parent] else []) + [child]];
    }
    assert pairs[..|pairs|] == pairs;
  }

  lemma CountPair(pairs: Pairs, numParents: map<Element, nat>, parent: Element, child: Element)
    requires Counted(pairs, Mentioned(pairs), {}, numParents)
    ensures
      var one: map<Element, nat> := if parent in numParents then numParents else numParents[parent := 0];
      var two: map<Element, nat> := if child in one then one else one[child := 0];
      Counted(pairs + [(parent, child)], Mentioned(pairs + [(parent, child)]), {}, two[child := two[child] + 1])
  {
    var more := pairs + [(parent, child)];
    assert more[..|more| - 1] == pairs;
    Unmentioned(pairs, parent);
    Unmentioned(pairs, child);
  }

  lemma ListPair(pairs: Pairs, children: map<Element, seq<Element>>, parent: Element, child: Element)
    requires Listed(pairs, {}, children)
    ensures
      Listed(pairs + [(parent, child)], {},
             children[parent := (if parent in children then children[parent] else []) + [child]])
  {
    var more := pairs + [(parent, child)];
    assert more[..|more| - 1] == pairs;
    forall p
      ensures ChildrenOf(more, p) == if p == parent then ChildrenOf(pairs, p) + [child] else ChildrenOf(pairs, p)
    {
      assert ChildrenOf(pairs, p) + [] == ChildrenOf(pairs, p);
    }
  }

  lemma Unmentioned(pairs: Pairs, x: Element)
    ensures x !in Mentioned(pairs) ==> CountInto(pairs, {}, x) == 0
  {
    CountIntoZero(pairs, {}, x);
    if CountInto(pairs, {}, x) > 0 {
      var p :| (p, x) in pairs;
      PairMentioned(pairs, p, x);
    }
  }

  datatype Outcome =
    | Sorted(answer: seq<Element>)
    | CycleError(answer: seq<Element>, numParents: map<Element, nat>, children: map<Element, seq<Element>>)

  ghost function Elements(s: seq<Element>): set<Element> {
    set x | x in s
  }

  /** What holds before `answer[i]` is taken: the elements from place i on are those without a parent left. */
  ghost predicate Pending(pairs: Pairs, answer: seq<Element>, i: nat, numParents: map<Element, nat>) {
    && i <= |answer| && NoDuplicates(answer) && ParentsFirst(pairs, answer)
      && (forall x | x in answer :: x in Mentioned(pairs))
    && (forall x :: x in answer[i..] <==> x in numParents && numParents[x] == 0)
  }

  /** The counts while the children `kids` of `parent` are worked through, up to number m. */
  ghost predicate Counting(pairs: Pairs, all: set<Element>, done: set<Element>, parent: Element,
                           numParents: map<Element, nat>, kids: seq<Element>, m: nat)
  {
    && m <= |kids| && kids == ChildrenOf(pairs, parent) && parent !in done
    && numParents.Keys == all - done - {parent}
    && (forall c | c in numParents :: numParents[c] + Count(kids[..m], c) == CountInto(pairs, done, c))
  }

  lemma {:induction false} CountPrefix(s: seq<Element>, m: nat, x: Element)
    requires m <= |s|
    ensures Count(s[..m], x) <= Count(s, x)
    ensures m < |s| ==> Count(s[..m + 1], x) == Count(s[..m], x) + if s[m] == x then 1 else 0
    decreases |s| - m
  {
    if m < |s| {
      assert s[..m + 1][..m] == s[..m];
      CountPrefix(s, m + 1, x);
    } else {
      assert s[..m] == s;
    }
  }

  /** A child still to be looked at has not been placed yet and has a parent left to be counted down. */
  lemma ChildWaits(pairs: Pairs, answer: seq<Element>, i: nat, numParents: map<Element, nat>, kids: seq<Element>,
                   m: nat)
    requires i < |answer| && NoDuplicates(answer) && ParentsFirst(pairs, answer) && m < |kids|
    requires Counting(pairs, Mentioned(pairs), Elements(answer[..i]), answer[i], numParents, kids, m)
    ensures kids[m] in numParents && numParents[kids[m]] > 0
  {
    var c := kids[m];
    ChildrenMembers(pairs, answer[i], c);
    PairMentioned(pairs, answer[i], c);
    CountPrefix(kids, m, c);
    CountPrefix(kids, m + 1, c);
    CountDrops(pairs, Elements(answer[..i]), answer[i], c);
  }

  /** Counting down one child keeps the counts, and a child counted down to zero has all parents placed. */
  lemma CountDown(pairs: Pairs, all: set<Element>, done: set<Element>, parent: Element, numParents: map<Element, nat>,
                  kids: seq<Element>, m: nat)
    requires Counting(pairs, all, done, parent, numParents, kids, m) && m < |kids|
    requires kids[m] in numParents && numParents[kids[m]] > 0
    ensures Counting(pairs, all, done, parent, numParents[kids[m] := numParents[kids[m]] - 1], kids, m + 1)
    ensures numParents[kids[m]] == 1 ==> forall p | (p, kids[m]) in pairs :: p in done + {parent}
  {
    var c := kids[m];
    forall x | x in numParents ensures Count(kids[..m + 1], x) == Count(kids[..m], x) + if x == c then 1 else 0 {
      CountPrefix(kids, m, x);
    }
    CountPrefix(kids, m + 1, c);
    CountDrops(pairs, done, parent, c);
    CountIntoZero(pairs, done + {parent}, c);
  }

  /** The innermost loop: the children of answer[i] lose a parent each, and those with none left join the answer. */
  method CountDownAll(ghost pairs: Pairs, answer: seq<Element>, ghost i: nat, numParents: map<Element, nat>,
                      kids: seq<Element>)
    returns (answer': seq<Element>, numParents': map<Element, nat>)
    requires i < |answer| && NoDuplicates(answer) && ParentsFirst(pairs, answer)
    requires Counting(pairs, Mentioned(pairs), Elements(answer[..i]), answer[i], numParents, kids, 0)
    requires Pending(pairs, answer, i + 1, numParents)
    ensures answer <= answer' && Pending(pairs, answer', i + 1, numParents') && numParents'.Keys == numParents.Keys
    ensures answer'[..i + 1] == answer[..i + 1]
      && Counted(pairs, Mentioned(pairs), Elements(answer[..i + 1]), numParents')
  {
    answer', numParents' := answer, numParents;
    ghost var done, parent := Elements(answer[..i]), answer[i];
    for m := 0 to |kids|
      invariant answer <= answer' && Pending(pairs, answer', i + 1, numParents') && numParents'.Keys == numParents.Keys
      invariant Counting(pairs, Mentioned(pairs), done, parent, numParents', kids, m)
    {
      var child := kids[m];
      SamePrefix(answer, answer', i);
      ChildWaits(pairs, answer', i, numParents', kids, m);
      CountDown(pairs, Mentioned(pairs), done, parent, numParents', kids, m);
      Joins(pairs, answer', i, numParents', child);
      numParents' := numParents'[child := numParents'[child] - 1];
      if numParents'[child] == 0 {
        answer' := answer' + [child];
      }
    }
    SamePrefix(answer, answer', i);
    Settled(pairs, Mentioned(pairs), done, parent, numParents', kids);
    assert Elements(answer[..i + 1]) == done + {parent};
  }

  lemma SamePrefix(s: seq<Element>, t: seq<Element>, i: nat)
    requires s <= t && i < |s|
    ensures s[..i] == t[..i] && s[i] == t[i]
  {}

  /** A child whose last parent has been placed may follow at the end of the answer. */
  lemma Joins(pairs: Pairs, answer: seq<Element>, i: nat, numParents: map<Element, nat>, c: Element)
    requires Pending(pairs, answer, i + 1, numParents) && c in numParents && numParents[c] > 0 && c in Mentioned(pairs)
    requires forall x | x in numParents :: x !in answer[..i + 1]
    requires numParents[c] == 1 ==> forall p | (p, c) in pairs :: p in Elements(answer[..i]) + {answer[i]}
    ensures Pending(pairs, if numParents[c] == 1 then answer + [c]
                    else answer, i + 1, numParents[c := numParents[c] - 1])
  {
    if numParents[c] == 1 {
      var more := answer + [c];
      assert more[i + 1..] == answer[i + 1..] + [c];
      assert answer == answer[..i + 1] + answer[i + 1..];
      ParentsBefore(pairs, answer, c);
    }
  }

  lemma ParentsBefore(pairs: Pairs, answer: seq<Element>, c: Element)
    requires ParentsFirst(pairs, answer) && forall p | (p, c) in pairs :: p in answer
    ensures ParentsFirst(pairs, answer + [c])
  {
    var more := answer + [c];
    forall t, p | 0 <= t < |more| && (p, more[t]) in pairs ensures p in more[..t] {
      assert more[..t] == answer[..t];
    }
  }

  lemma Settled(pairs: Pairs, all: set<Element>, done: set<Element>, parent: Element, numParents: map<Element, nat>,
                kids: seq<Element>)
    requires Counting(pairs, all, done, parent, numParents, kids, |kids|)
    ensures Counted(pairs, all, done + {parent}, numParents)
  {
    assert kids[..|kids|] == kids;
    forall c | c in numParents ensures numParents[c] == CountInto(pairs, done + {parent}, c) {
      CountDrops(pairs, done, parent, c);
    }
  }

  lemma Unlisted(pairs: Pairs, answer: seq<Element>, i: nat, children: map<Element, seq<Element>>)
    requires i < |answer| && Listed(pairs, Elements(answer[..i]), children)
    ensures Listed(pairs, Elements(answer[..i + 1]), children - {answer[i]})
    ensures answer[i] !in children ==> children - {answer[i]} == children
  {
    assert Elements(answer[..i + 1]) == Elements(answer[..i]) + {answer[i]};
  }

  /** The list comprehension that collects everything without a parent, in some order. */
  method WithoutParents(numParents: map<Element, nat>) returns (answer: seq<Element>)
    ensures NoDuplicates(answer) && forall x :: x in answer <==> x in numParents && numParents[x] == 0
  {
    answer := [];
    var rest := numParents.Keys;
    while rest != {}
      invariant rest <= numParents.Keys && NoDuplicates(answer)
      invariant forall x :: x in answer <==> x in numParents && x !in rest && numParents[x] == 0
    {
      var x :| x in rest;
      rest := rest - {x};
      if numParents[x] == 0 {
        answer := answer + [x];
      }
    }
  }

  lemma RootsPending(pairs: Pairs, numParents: map<Element, nat>, answer: seq<Element>)
    requires Counted(pairs, Mentioned(pairs), {}, numParents)
    requires NoDuplicates(answer) && forall x :: x in answer <==> x in numParents && numParents[x] == 0
    ensures Pending(pairs, answer, 0, numParents)
  {
    assert answer[0..] == answer;
    forall i, p | 0 <= i < |answer| ensures (p, answer[i]) !in pairs {
      assert answer[i] in answer;
      CountIntoZero(pairs, {}, answer[i]);
    }
  }

  /** Taking answer[i] out of the counts is where its children start to be counted down. */
  lemma Taken(pairs: Pairs, answer: seq<Element>, i: nat, numParents: map<Element, nat>)
    requires i < |answer| && Pending(pairs, answer, i, numParents)
      && Counted(pairs, Mentioned(pairs), Elements(answer[..i]), numParents)
    ensures answer[i] in numParents && answer[i] !in Elements(answer[..i])
      && |(numParents - {answer[i]}).Keys| < |numParents.Keys|
    ensures Pending(pairs, answer, i + 1, numParents - {answer[i]})
    ensures Counting(pairs, Mentioned(pairs), Elements(answer[..i]), answer[i], numParents - {answer[i]},
                     ChildrenOf(pairs, answer[i]), 0)
  {
    assert answer[i..] == [answer[i]] + answer[i + 1..];
    assert answer[i] in answer[i..];
  }

  /** What the loop over the growing answer keeps true. */
  ghost predicate Kahn(pairs: Pairs, answer: seq<Element>, i: nat, numParents: map<Element, nat>,
                       children: map<Element, seq<Element>>)
  {
    && Pending(pairs, answer, i, numParents)
    && Counted(pairs, Mentioned(pairs), Elements(answer[..i]), numParents)
    && Listed(pairs, Elements(answer[..i]), children)
  }

  /** One turn of that loop: answer[i] is struck off and its children are counted down. */
  method Place(ghost pairs: Pairs, answer: seq<Element>, i: nat, numParents: map<Element, nat>,
               children: map<Element, seq<Element>>)
    returns (answer': seq<Element>, numParents': map<Element, nat>, children': map<Element, seq<Element>>)
    requires i < |answer| && Kahn(pairs, answer, i, numParents, children)
    ensures Kahn(pairs, answer', i + 1, numParents', children') && children' == children - {answer[i]}
    ensures |numParents'.Keys| < |numParents.Keys|
  {
    var parent := answer[i];
    Taken(pairs, answer, i, numParents);
    Unlisted(pairs, answer, i, children);
    numParents' := numParents - {parent};
    children' := children - {parent};
    if parent in children {
      answer', numParents' := CountDownAll(pairs, answer, i, numParents', children[parent]);
    } else {
      answer' := answer;
      assert ChildrenOf(pairs, parent) == [];
      Settled(pairs, Mentioned(pairs), Elements(answer[..i]), parent, numParents', []);
      assert Elements(answer[..i + 1]) == Elements(answer[..i]) + {parent};
    }
  }

  /** The numbers of the pairs that lead to `c` from an element outside `done`. */
  function Into(pairs: Pairs, done: set<Element>, c: Element): set<nat> {
    set i: nat | i < |pairs| && pairs[i].1 == c && pairs[i].0 !in done
  }

  lemma {:induction false} CountIntoCounts(pairs: Pairs, done: set<Element>, c: Element)
    ensures CountInto(pairs, done, c) == |Into(pairs, done, c)|
  {
    if pairs == [] {
      assert Into(pairs, done, c) == {};
    } else {
      var n, front := |pairs| - 1, pairs[..|pairs| - 1];
      CountIntoCounts(front, done, c);
      assert Into(pairs, done, c) ==
        Into(front, done, c) + if pairs[n].1 == c && pairs[n].0 !in done then {n} else {};
    }
  }

  /** `idx` lists the numbers of the pairs with parent `p` in ascending order, and `kids` their children. */
  ghost predicate Picks(pairs: Pairs, p: Element, kids: seq<Element>, idx: seq<nat>) {
    && |idx| == |kids|
    && (forall t | 0 <= t < |idx| :: idx[t] < |pairs| && pairs[idx[t]] == (p, kids[t]))
    && (forall t, u | 0 <= t < u < |idx| :: idx[t] < idx[u])
    && (forall i: nat | i < |pairs| && pairs[i].0 == p :: i in idx)
  }

  lemma {:induction false} ChildrenPicked(pairs: Pairs, p: Element) returns (idx: seq<nat>)
    ensures Picks(pairs, p, ChildrenOf(pairs, p), idx)
  {
    if pairs == [] {
      idx := [];
    } else {
      var n, front := |pairs| - 1, pairs[..|pairs| - 1];
      var before := ChildrenPicked(front, p);
      idx := before + if pairs[n].0 == p then [n] else [];
      forall i: nat | i < |pairs| && pairs[i].0 == p ensures i in idx {
        assert i < n ==> front[i] == pairs[i] && i in before;
      }
    }
  }

  /** The tables that a failed sort hands out when the elements of `done` are dealt with: of every other element how
      many pairs still lead to it, and of every parent among these its children, one for each pair, in the order of
      the pairs. */
  ghost predicate Leftovers(pairs: Pairs, all: set<Element>, done: set<Element>, numParents: map<Element, nat>,
                            children: map<Element, seq<Element>>)
  {
    && numParents.Keys == all - done
    && (forall x | x in numParents :: numParents[x] == |Into(pairs, done, x)|)
    && (forall p :: p in children <==> p !in done && exists i :: 0 <= i < |pairs| && pairs[i].0 == p)
    && (forall p | p in children :: ListsChildren(pairs, p, children[p]))
  }

  ghost predicate ListsChildren(pairs: Pairs, p: Element, kids: seq<Element>) {
    exists idx :: Picks(pairs, p, kids, idx)
  }

  lemma LeftoverTables(pairs: Pairs, all: set<Element>, done: set<Element>, numParents: map<Element, nat>,
                       children: map<Element, seq<Element>>)
    requires Counted(pairs, all, done, numParents) && Listed(pairs, done, children) && NoneEmpty(children)
    ensures Leftovers(pairs, all, done, numParents, children)
  {
    forall x | x in numParents ensures numParents[x] == |Into(pairs, done, x)| {
      CountIntoCounts(pairs, done, x);
    }
    forall p ensures p in children <==> p !in done && exists i :: 0 <= i < |pairs| && pairs[i].0 == p {
      HasChildren(pairs, p);
    }
    forall p | p in children ensures ListsChildren(pairs, p, children[p]) {
      var idx := ChildrenPicked(pairs, p);
    }
  }

  lemma HasChildren(pairs: Pairs, p: Element)
    ensures ChildrenOf(pairs, p) != [] <==> exists i :: 0 <= i < |pairs| && pairs[i].0 == p
  {
    var idx := ChildrenPicked(pairs, p);
    if ChildrenOf(pairs, p) != [] {
      assert pairs[idx[0]].0 == p;
    }
  }

  method Topsort(pairs: Pairs) returns (r: Outcome)
    ensures NoDuplicates(r.answer) && ParentsFirst(pairs, r.answer)
    ensures r.Sorted? <==> !Cyclic(pairs)
    ensures r.Sorted? ==> Elements(r.answer) == Mentioned(pairs)
    ensures r.CycleError? ==> forall x | x in Mentioned(pairs) ::
      (x in r.answer <==> !CycleAbove(pairs, x)) && (x in r.numParents <==> CycleAbove(pairs, x))
    ensures r.CycleError? ==> Leftovers(pairs, Mentioned(pairs), Elements(r.answer), r.numParents, r.children)
  {
    var numParents, children := CountParents(pairs);
    var answer := WithoutParents(numParents);
    RootsPending(pairs, numParents, answer);
    var i := 0;
    while i < |answer|
      invariant i <= |answer| && Kahn(pairs, answer, i, numParents, children) && NoneEmpty(children)
      decreases |numParents.Keys|
    {
      answer, numParents, children := Place(pairs, answer, i, numParents, children);
      i := i + 1;
    }
    Leftover(pairs, answer, numParents, children);
    assert answer[..|answer|] == answer;
    LeftoverTables(pairs, Mentioned(pairs), Elements(answer), numParents, children);
    if numParents != map[] {
      r := CycleError(answer, numParents, children);
    } else {
      r := Sorted(answer);
    }
  }

  /** When nothing is pending, what is left in the counts is what lies below a cycle. */
  lemma Leftover(pairs: Pairs, answer: seq<Element>, numParents: map<Element, nat>,
                 children: map<Element, seq<Element>>)
    requires Kahn(pairs, answer, |answer|, numParents, children)
    ensures forall x | x in Mentioned(pairs) ::
      (x in answer <==> !CycleAbove(pairs, x)) && (x in numParents <==> CycleAbove(pairs, x))
    ensures numParents == map[] <==> !Cyclic(pairs)
    ensures numParents == map[] ==> Elements(answer) == Mentioned(pairs)
  {
    assert answer[..|answer|] == answer;
    AllStuck(pairs, answer, numParents);
    forall x | x in Mentioned(pairs)
      ensures (x in answer <==> !CycleAbove(pairs, x)) && (x in numParents <==> CycleAbove(pairs, x))
    {
      if x in answer {
        OrderedNotBelowCycle(pairs, answer, x);
      } else {
        StuckBelowCycle(pairs, numParents.Keys, [x]);
      }
    }
    CyclicOnlyBelow(pairs);
  }

  lemma AllStuck(pairs: Pairs, answer: seq<Element>, numParents: map<Element, nat>)
    requires Pending(pairs, answer, |answer|, numParents)
      && Counted(pairs, Mentioned(pairs), Elements(answer), numParents)
    ensures Stuck(pairs, numParents.Keys)
  {
    forall x | x in numParents ensures HasParentIn(pairs, numParents.Keys, x) {
      assert x !in answer[|answer|..];
      CountIntoZero(pairs, Elements(answer), x);
      var p :| p !in Elements(answer) && (p, x) in pairs;
      PairMentioned(pairs, p, x);
    }
  }

  lemma CyclicOnlyBelow(pairs: Pairs)
    ensures Cyclic(pairs) <==> exists x :: x in Mentioned(pairs) && CycleAbove(pairs, x)
  {
    if c :| Cycle(pairs, c) {
      OnOwnCycle(pairs, c);
      PairMentioned(pairs, c[0], c[1]);
    }
    if x :| x in Mentioned(pairs) && CycleAbove(pairs, x) {
      var c, q :| Leads(pairs, c, q, x);
    }
  }
}
