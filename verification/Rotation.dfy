/** The function is_rotated of bindings/python/rad_util.py, and rotation as an equivalence of lists. */
module Rotation {

  /** The list `s` turned so that its element number k comes first. */
  function Turned<T>(s: seq<T>, k: nat): seq<T>
    requires k <= |s|
  {
    s[k..] + s[..k]
  }

  ghost predicate Rotated<T>(s: seq<T>, t: seq<T>) {
    exists k: nat :: k <= |s| && t == Turned(s, k)
  }

  lemma Reflexive<T>(s: seq<T>)
    ensures Rotated(s, s)
  {
    assert Turned(s, 0) == s;
  }

  lemma Symmetric<T>(s: seq<T>, t: seq<T>)
    requires Rotated(s, t)
    ensures Rotated(t, s)
  {
    var k: nat :| k <= |s| && t == Turned(s, k);
    assert Turned(t, |s| - k) == s;
  }

  lemma Transitive<T>(s: seq<T>, t: seq<T>, u: seq<T>)
    requires Rotated(s, t) && Rotated(t, u)
    ensures Rotated(s, u)
  {
    var k: nat :| k <= |s| && t == Turned(s, k);
    var m: nat :| m <= |t| && u == Turned(t, m);
    TurnedTwice(s, k, m);
  }

  lemma TurnedAt<T>(s: seq<T>, k: nat, i: nat)
    requires k <= |s| && i < |s|
    ensures Turned(s, k)[i] == s[if i + k < |s| then i + k else i + k - |s|]
  {}

  lemma TurnedTwice<T>(s: seq<T>, k: nat, m: nat)
    requires k <= |s| && m <= |s|
    ensures Turned(Turned(s, k), m) == Turned(s, if k + m <= |s| then k + m else k + m - |s|)
  {
    var t, n := Turned(s, k), if k + m <= |s| then k + m else k + m - |s|;
    forall i: nat | i < |s| ensures Turned(t, m)[i] == Turned(s, n)[i] {
      TurnedAt(t, m, i);
      TurnedAt(s, k, if i + m < |s| then i + m else i + m - |s|);
      TurnedAt(s, n, i);
    }
  }

  /** The answer, or the error that comes of looking for the first element of an empty list. */
  datatype Answer = Known(rotated: bool) | IndexError

  method IsRotated<T(==)>(seq1: seq<T>, seq2: seq<T>) returns (r: Answer)
    ensures r == IndexError <==> seq1 == [] && seq2 == []
    ensures r.Known? ==> (r.rotated <==> Rotated(seq1, seq2))
  {
    if |seq1| != |seq2| {
      return Known(false);
    }
    if |seq2| == 0 {
      return IndexError;
    }
    var startIndexes: seq<nat> := [];
    var headItem := seq2[0];
    for index1 := 0 to |seq1|
      invariant forall k :: k in startIndexes <==> 0 <= k < index1 && seq1[k] == headItem
      invariant forall m | 0 <= m < |startIndexes| :: startIndexes[m] < |seq1|
    {
      if seq1[index1] == headItem {
        startIndexes := startIndexes + [index1];
      }
    }
    var doubleSeq1 := seq1 + seq1;
    for n := 0 to |startIndexes|
      invariant forall m | 0 <= m < n :: Turned(seq1, startIndexes[m]) != seq2
    {
      var index1 := startIndexes[n];
      assert doubleSeq1[index1..index1 + |seq1|] == Turned(seq1, index1);
      if doubleSeq1[index1..index1 + |seq1|] == seq2 {
        return Known(true);
      }
    }
    NoStart(seq1, seq2, startIndexes);
    return Known(false);
  }

  lemma NoStart<T>(s: seq<T>, t: seq<T>, starts: seq<nat>)
    requires |s| == |t| > 0
    requires forall k :: k in starts <==> 0 <= k < |s| && s[k] == t[0]
    requires forall m | 0 <= m < |starts| :: starts[m] <= |s| && Turned(s, starts[m]) != t
    ensures !Rotated(s, t)
  {
    forall k: nat | k <= |s| ensures t != Turned(s, k) {
      var k' := if k == |s| then 0 else k;
      assert Turned(s, k') == Turned(s, k) && Turned(s, k')[0] == s[k'];
      if s[k'] == t[0] {
        assert k' in starts;
      }
    }
  }
}
