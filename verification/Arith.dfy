/** Products, quotients, remainders and powers of two. */
module Arith {
  lemma MulStep(a: nat, b: nat, n: nat)
    requires a < b
    ensures a * n + n <= b * n
  {
    assert b * n == a * n + n + (b - a - 1) * n;
  }

  lemma MulLe(a: nat, x: nat, y: nat)
    requires x <= y
    ensures a * x <= a * y
  {
  }

  /** Two ways to cut the same length into whole words and a rest of 1 to n bytes are one. */
  lemma SameCut(n: nat, a: nat, x: nat, b: nat, y: nat)
    requires a * n + x == b * n + y && 1 <= x <= n && 1 <= y <= n
    ensures a == b && x == y
  {
    if a < b {
      MulStep(a, b, n);
    } else if b < a {
      MulStep(b, a, n);
    }
  }

  /** Quotient and remainder, named so that proofs can do without their definitions. */
  function Quot(x: nat, m: nat): (q: nat)
    requires m > 0
  {
    x / m
  }

  function Wrap(x: nat, m: nat): (r: nat)
    requires m > 0
    ensures r < m
  {
    x % m
  }

  lemma QuotWrap(x: nat, m: nat)
    requires m > 0
    ensures x == Quot(x, m) * m + Wrap(x, m)
  {
  }

  lemma DivModUnique(n: nat, m: nat, i: nat)
    requires i < n
    ensures (m * n + i) / n == m && (m * n + i) % n == i
    ensures Quot(m * n + i, n) == m && Wrap(m * n + i, n) == i
  {
    var x := m * n + i;
    assert x / n * n + x % n == x;
    SameCut(n, x / n, x % n + 1, m, i + 1);
  }

  lemma WrapSmall(x: nat, m: nat)
    requires x < m
    ensures Wrap(x, m) == x && Quot(x, m) == 0
  {
    DivModUnique(m, 0, x);
  }

  lemma WrapMultiple(x: nat, q: nat, m: nat)
    requires m > 0
    ensures Wrap(x + q * m, m) == Wrap(x, m)
    ensures Quot(x + q * m, m) == Quot(x, m) + q
  {
    hide Wrap, Quot;
    QuotWrap(x, m);
    var k, r := Quot(x, m), Wrap(x, m);
    Collect(k, q, m);
    DivModUnique(m, k + q, r);
  }

  lemma Collect(k: nat, q: nat, m: nat)
    ensures k * m + q * m == (k + q) * m
  {
  }

  /** Wrapping before an addition changes nothing. */
  lemma WrapAdd(a: nat, b: nat, m: nat)
    requires m > 0
    ensures Wrap(Wrap(a, m) + b, m) == Wrap(a + b, m)
  {
    hide Wrap, Quot;
    QuotWrap(a, m);
    WrapMultiple(Wrap(a, m) + b, Quot(a, m), m);
  }

  lemma QuotBelow(x: nat, a: nat, b: nat)
    requires b > 0 && x < a * b
    ensures Quot(x, b) < a
  {
    hide Wrap, Quot;
    QuotWrap(x, b);
    var q := Quot(x, b);
    if a <= q {
      MulLe(b, a, q);
    }
  }

  function Pow2(k: nat): (p: nat)
    ensures p > 0
  {
    if k == 0 then 1 else 2 * Pow2(k - 1)
  }

  lemma {:induction false} Pow2Sum(a: nat, b: nat)
    ensures Pow2(a + b) == Pow2(a) * Pow2(b)
  {
    if a != 0 {
      Pow2Sum(a - 1, b);
      assert Pow2(a + b) == 2 * Pow2(a - 1 + b);
      assert 2 * (Pow2(a - 1) * Pow2(b)) == (2 * Pow2(a - 1)) * Pow2(b);
    }
  }

  lemma {:induction false} Pow2Mono(a: nat, b: nat)
    requires a <= b
    ensures Pow2(a) <= Pow2(b)
    ensures a < b ==> 2 * Pow2(a) <= Pow2(b)
    decreases b
  {
    if a < b {
      Pow2Mono(a, b - 1);
    }
  }
}
