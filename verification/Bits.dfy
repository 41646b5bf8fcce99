/** Bitwise operations on unsigned numbers, and bit slices. */
module Bits {
  import opened Arith

  function Or(a: nat, b: nat): nat
    decreases a + b
  {
    if a == 0 && b == 0 then 0
    else (if a % 2 == 1 || b % 2 == 1 then 1 else 0) + 2 * Or(a / 2, b / 2)
  }

  function And(a: nat, b: nat): nat {
    if a == 0 then 0
    else (if a % 2 == 1 && b % 2 == 1 then 1 else 0) + 2 * And(a / 2, b / 2)
  }

  function Shr(x: nat, k: nat): nat {
    Quot(x, Pow2(k))
  }

  /** A left shift that loses nothing. */
  function Raise(x: nat, k: nat): nat {
    x * Pow2(k)
  }

  /** Bits `lo` to `lo + len - 1`. */
  function Cut(x: nat, lo: nat, len: nat): (r: nat)
    ensures r < Pow2(len)
  {
    Wrap(Shr(x, lo), Pow2(len))
  }

  lemma {:induction false} OrZero(b: nat)
    ensures Or(0, b) == b
  {
    if b != 0 {
      OrZero(b / 2);
    }
  }

  lemma Halves(a: nat, b: nat)
    ensures Or(2 * a, 2 * b) == 2 * Or(a, b) && Or(2 * a + 1, 2 * b) == 1 + 2 * Or(a, b)
  {
  }

  /** Numbers that share no bits: one below 2^k, one a multiple of it. */
  lemma {:induction false} OrApart(a: nat, b: nat, k: nat)
    requires a < Pow2(k)
    ensures Or(a, Raise(b, k)) == a + Raise(b, k)
    decreases k
  {
    if k == 0 {
      OrZero(b);
    } else {
      var m := Raise(b, k - 1);
      assert Raise(b, k) == 2 * m;
      OrApart(a / 2, b, k - 1);
      Halves(a / 2, m);
    }
  }

  lemma RaiseAdd(b: nat, c: nat, k: nat, j: nat)
    ensures Raise(b, k) + Raise(c, k + j) == Raise(b + Raise(c, j), k)
  {
    Pow2Sum(k, j);
    Spread(b, c, Pow2(k), Pow2(j));
  }

  lemma Spread(b: nat, c: nat, m: nat, n: nat)
    ensures b * m + c * (m * n) == (b + c * n) * m
  {
  }

  lemma RaiseBelow(a: nat, b: nat, k: nat, w: nat)
    requires k <= w && a < Pow2(k) && b < Pow2(w - k)
    ensures a + Raise(b, k) < Pow2(w)
  {
    var m, n := Pow2(k), Pow2(w - k);
    Pow2Sum(k, w - k);
    hide Pow2;
    MulStep(b, n, m);
  }

  lemma {:induction false} AndOfHalves(x: nat, m: nat, b: nat)
    requires b < 2
    ensures And(x, 2 * m + b) == x % 2 * b + 2 * And(x / 2, m)
  {
  }

  /** A mask of ones keeps the remainder. */
  lemma {:induction false} AndLow(x: nat, k: nat)
    ensures And(x, Pow2(k) - 1) == Wrap(x, Pow2(k))
    decreases k
  {
    if k == 0 {
      AndNothing(x);
    } else {
      AndLow(x / 2, k - 1);
      AndOfHalves(x, Pow2(k - 1) - 1, 1);
      HalfWrap(x, Pow2(k - 1));
    }
  }

  lemma {:induction false} AndNothing(x: nat)
    ensures And(x, 0) == 0
  {
    if x != 0 {
      AndNothing(x / 2);
    }
  }

  lemma HalfWrap(x: nat, m: nat)
    requires m > 0
    ensures Wrap(x, 2 * m) == x % 2 + 2 * Wrap(x / 2, m) && Quot(x, 2 * m) == Quot(x / 2, m)
  {
    hide Wrap, Quot;
    var h := x / 2;
    QuotWrap(h, m);
    assert x == Quot(h, m) * (2 * m) + (x % 2 + 2 * Wrap(h, m)) by {
      assert Quot(h, m) * (2 * m) == 2 * (Quot(h, m) * m);
    }
    DivModUnique(2 * m, Quot(h, m), x % 2 + 2 * Wrap(h, m));
  }

  /** A mask of ones from bit k on clears the bits below. */
  lemma {:induction false} AndHigh(x: nat, k: nat, w: nat)
    requires k <= w && x < Pow2(w)
    ensures Pow2(k) <= Pow2(w) && And(x, Pow2(w) - Pow2(k)) == Shr(x, k) * Pow2(k)
    decreases w
  {
    Pow2Mono(k, w);
    if k == 0 {
      AndLow(x, w);
      WrapSmall(x, Pow2(w));
    } else {
      AndHigh(x / 2, k - 1, w - 1);
      hide And, Wrap, Quot;
      HighStep(x, Pow2(k - 1), Pow2(w - 1));
    }
  }

  lemma HighStep(x: nat, m: nat, n: nat)
    requires 0 < m <= n && And(x / 2, n - m) == Quot(x / 2, m) * m
    ensures And(x, 2 * n - 2 * m) == Quot(x, 2 * m) * (2 * m)
  {
    hide And, Wrap, Quot;
    AndOfHalves(x, n - m, 0);
    HalfWrap(x, m);
    Double(Quot(x / 2, m), m);
  }

  lemma Double(q: nat, m: nat)
    ensures q * (2 * m) == 2 * (q * m)
  {
  }

  /** A slice of a + b bits is its low a bits and the b bits above them. */
  lemma CutJoin(x: nat, a: nat, b: nat)
    ensures Cut(x, 0, a + b) == Cut(x, 0, a) + Raise(Cut(x, a, b), a)
    ensures Shr(x, a + b) == Shr(Shr(x, a), b)
  {
    hide Wrap, Quot, Pow2;
    var q := Quot(x, Pow2(a));
    CutAll(x);
    QuotWrap(x, Pow2(a));
    QuotWrap(q, Pow2(b));
    Pow2Sum(a, b);
    Regroup(x, q, Wrap(x, Pow2(a)), Pow2(a), Quot(q, Pow2(b)), Wrap(q, Pow2(b)), Pow2(b));
  }

  lemma CutAll(x: nat)
    ensures Shr(x, 0) == x
  {
  }

  lemma Distribute(a: nat, b: nat, m: nat, n: nat)
    ensures (a * n + b) * m == a * (m * n) + b * m
    ensures (b + 1) * m == b * m + m
  {
    assert a * n * m == a * (m * n);
  }

  lemma Commute(a: nat, b: nat)
    ensures a * b == b * a
  {
  }

  lemma Regroup(x: nat, q: nat, r: nat, m: nat, q': nat, r': nat, n: nat)
    requires r < m && r' < n && x == q * m + r && q == q' * n + r'
    ensures m * n > 0 && Wrap(x, m * n) == r + r' * m && Quot(x, m * n) == q'
  {
    hide Wrap, Quot;
    Distribute(q', r', m, n);
    MulLe(m, r' + 1, n);
    Commute(m, n);
    Commute(m, r' + 1);
    Commute(m, r');
    DivModUnique(m * n, q', r + r' * m);
  }

  /** Reading back a number packed in front of another. */
  lemma Unpack(a: nat, b: nat, k: nat)
    requires a < Pow2(k)
    ensures Cut(a + Raise(b, k), 0, k) == a && Shr(a + Raise(b, k), k) == b
  {
    hide Wrap, Quot, Pow2;
    CutAll(a + Raise(b, k));
    DivModUnique(Pow2(k), b, a);
  }

  lemma ShrBelow(x: nat, k: nat, w: nat)
    requires k <= w
    ensures Shr(x, k) < Pow2(w - k) <==> x < Pow2(w)
  {
    hide Wrap, Quot, Pow2;
    Pow2Sum(k, w - k);
    QuotWrap(x, Pow2(k));
    var q := Quot(x, Pow2(k));
    if q < Pow2(w - k) {
      MulStep(q, Pow2(w - k), Pow2(k));
    } else {
      MulLe(Pow2(k), Pow2(w - k), q);
    }
  }
}
