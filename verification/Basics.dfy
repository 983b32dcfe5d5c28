/** What the other modules share about lists and sets. */
module Basics {

  datatype Option<T> = None | Some(value: T)

  function Last(s: seq<nat>): nat
    requires s != []
  {
    s[|s| - 1]
  }

  /** The numbers from `lo` up to but not including `hi`. */
  function Range(lo: nat, hi: nat): (r: set<nat>)
    requires lo <= hi
    ensures |r| == hi - lo && forall x :: x in r <==> lo <= x < hi
    decreases hi - lo
  {
    if lo == hi then {} else Range(lo, hi - 1) + {hi - 1}
  }

  ghost predicate NoDuplicates<T>(s: seq<T>) {
    forall i, j | 0 <= i < j < |s| :: s[i] != s[j]
  }

  lemma {:induction false} NoDuplicatesFit<T>(s: seq<T>, all: set<T>)
    requires NoDuplicates(s) && forall x | x in s :: x in all
    ensures |s| <= |all|
  {
    if s != [] {
      var front, last := s[..|s| - 1], s[|s| - 1];
      assert s == front + [last];
      NoDuplicatesFit(front, all - {last});
    }
  }

  lemma {:induction false} SizeOf<T>(s: set<T>, f: seq<T>)
    requires NoDuplicates(f) && forall x :: x in s <==> x in f
    ensures |s| == |f|
  {
    if f == [] {
      assert s == {};
    } else {
      var last := f[|f| - 1];
      SizeOf(s - {last}, f[..|f| - 1]);
    }
  }
}
