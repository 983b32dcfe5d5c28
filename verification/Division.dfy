/** Division of naturals by repeated subtraction, which reasons better than the operators it equals. */
module Division {

  function Quot(t: nat, h: nat): nat
    requires h > 0
  {
    if t < h then 0 else 1 + Quot(t - h, h)
  }

  function Rem(t: nat, h: nat): (r: nat)
    requires h > 0
    ensures r < h
  {
    if t < h then t else Rem(t - h, h)
  }

  lemma {:induction false} Recompose(t: nat, h: nat)
    requires h > 0
    ensures Quot(t, h) * h + Rem(t, h) == t
  {
    if t >= h {
      Recompose(t - h, h);
    }
  }

  lemma {:induction false} Compose(a: nat, h: nat, m: nat)
    requires m < h
    ensures Quot(a * h + m, h) == a && Rem(a * h + m, h) == m
  {
    if a > 0 {
      assert a * h == (a - 1) * h + h;
      Compose(a - 1, h, m);
    }
  }

  lemma {:induction false} MulMonotone(a: nat, b: nat, h: nat)
    requires a <= b
    ensures a * h <= b * h
  {
    if a < b {
      MulMonotone(a, b - 1, h);
      assert b * h == (b - 1) * h + h;
    }
  }

  /** A pair (a, m) with a < n and m < h has its place below n * h. */
  lemma Within(a: nat, n: nat, h: nat, m: nat)
    requires a < n && m < h
    ensures a * h + m < n * h
  {
    MulMonotone(a + 1, n, h);
    assert (a + 1) * h == a * h + h;
  }

  /** A quotient below `n` means a number below n * h. */
  lemma QuotBelow(t: nat, n: nat, h: nat)
    requires h > 0
    ensures Quot(t, h) < n <==> t < n * h
  {
    Recompose(t, h);
    if Quot(t, h) < n {
      Within(Quot(t, h), n, h, Rem(t, h));
    } else {
      MulMonotone(n, Quot(t, h), h);
    }
  }

  /** They are the operators of the language. */
  lemma AreOperators(t: nat, h: nat)
    requires h > 0
    ensures Quot(t, h) == t / h && Rem(t, h) == t % h
  {
    Recompose(t, h);
    DivisionUnique(t, h, Quot(t, h), Rem(t, h));
  }

  lemma DivisionUnique(t: nat, h: nat, q: nat, r: nat)
    requires h > 0 && r < h && t == q * h + r
    ensures q == t / h && r == t % h
  {
    var q', r' := t / h, t % h;
    assert t == q' * h + r' && 0 <= r' < h;
    if q < q' {
      MulMonotone(q + 1, q', h);
    } else if q' < q {
      MulMonotone(q' + 1, q, h);
    }
  }
}
