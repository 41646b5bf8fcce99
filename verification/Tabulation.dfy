/** The hash functions of hash_table.cpp: for every bit of the key a random value is taken from a
    table, and the values are XORed. */
module Tabulation {
  import opened Arith
  import opened Bits
  import opened CuckooTable

  const KEY_SIZE: nat := 64

  function Xor(a: nat, b: nat): nat
    decreases a + b
  {
    if a == 0 && b == 0 then 0
    else (if a % 2 != b % 2 then 1 else 0) + 2 * Xor(a / 2, b / 2)
  }

  /** XOR needs no more bits than its operands. */
  lemma {:induction false} XorBelow(a: nat, b: nat, k: nat)
    requires a < Pow2(k) && b < Pow2(k)
    ensures Xor(a, b) < Pow2(k)
    decreases k
  {
    if k != 0 {
      XorBelow(a / 2, b / 2, k - 1);
    }
  }

  function KeyBit(key: Key, k: nat): bool {
    key as nat / Pow2(k) % 2 == 1
  }

  /** The tabulation table, and the address width of a table. */
  datatype Randoms = Randoms(bits: nat, table: (nat, bool, nat) -> nat) {
    /** TABLE_SIZE. */
    function Size(): pos {
      Pow2(bits)
    }

    /** The random value for bit `k` of the key, cut to the address width. */
    function Random(i: nat, key: Key, k: nat): nat {
      Wrap(table(i, KeyBit(key, k), k), Size())
    }

    function Xored(i: nat, key: Key, k: nat): (hash: nat)
      ensures hash < Size()
    {
      if k == 0 then 0 else
        XorBelow(Xored(i, key, k - 1), Random(i, key, k - 1), bits);
        Xor(Xored(i, key, k - 1), Random(i, key, k - 1))
    }

    /** Table and key to address, as the table uses it. */
    function Hash(): Hashing {
      Hashing(Size(), (i, key) => Xored(i, key, KEY_SIZE))
    }
  }

  lemma HashIs(r: Randoms, i: nat, key: Key)
    ensures r.Hash().At(i, key) == r.Xored(i, key, KEY_SIZE)
  {
    WrapSmall(r.Xored(i, key, KEY_SIZE), r.Size());
  }

  // ----- The bits of a hash -----

  /** Bit `j` of a number. */
  predicate Bit(x: nat, j: nat) {
    x / Pow2(j) % 2 == 1
  }

  lemma BitNext(x: nat, j: nat)
    requires j > 0
    ensures Bit(x, j) == Bit(x / 2, j - 1)
  {
    var m := Pow2(j - 1);
    HalfQuot(x, m);
  }

  lemma HalfQuot(x: nat, m: nat)
    requires m > 0
    ensures x / (2 * m) == x / 2 / m
  {
    var h := x / 2;
    var q, r := h / m, h % m;
    assert h == q * m + r;
    assert x == q * (2 * m) + (2 * r + x % 2) by {
      assert q * (2 * m) == 2 * (q * m);
    }
    DivModUnique(2 * m, q, 2 * r + x % 2);
  }

  lemma BitZero(x: nat)
    ensures Bit(x, 0) <==> x % 2 == 1
  {
    assert Pow2(0) == 1;
  }

  lemma XorHalves(a: nat, b: nat)
    ensures Xor(a, b) % 2 == (if a % 2 != b % 2 then 1 else 0) && Xor(a, b) / 2 == Xor(a / 2, b / 2)
  {
  }

  lemma {:induction false} XorBit(a: nat, b: nat, j: nat)
    ensures Bit(Xor(a, b), j) <==> Bit(a, j) != Bit(b, j)
    decreases j
  {
    hide *;
    XorHalves(a, b);
    if j == 0 {
      BitZero(a);
      BitZero(b);
      BitZero(Xor(a, b));
    } else {
      BitNext(a, j);
      BitNext(b, j);
      BitNext(Xor(a, b), j);
      XorBit(a / 2, b / 2, j - 1);
    }
  }

  lemma {:induction false} WrapBit(x: nat, bits: nat, j: nat)
    requires j < bits
    ensures Bit(Wrap(x, Pow2(bits)), j) == Bit(x, j)
    decreases bits
  {
    hide Bit, Wrap;
    HalfWrap(x, Pow2(bits - 1));
    if j == 0 {
      BitZero(x);
      BitZero(Wrap(x, Pow2(bits)));
    } else {
      BitNext(x, j);
      BitNext(Wrap(x, Pow2(bits)), j);
      WrapBit(x / 2, bits - 1, j - 1);
    }
  }

  /** The random value that bit `k` of the key selects has bit `j` set. */
  predicate Selected(r: Randoms, i: nat, key: Key, j: nat, k: nat) {
    Bit(r.table(i, Bit(key as nat, k), k), j)
  }

  ghost function SelectedBelow(r: Randoms, i: nat, key: Key, j: nat, n: nat): set<nat> {
    set k: nat | k < n && Selected(r, i, key, j, k)
  }

  lemma {:induction false} XoredBit(r: Randoms, i: nat, key: Key, j: nat, n: nat)
    requires j < r.bits
    ensures Bit(r.Xored(i, key, n), j) <==> |SelectedBelow(r, i, key, j, n)| % 2 == 1
    decreases n
  {
    hide *;
    if n == 0 {
      NothingXored(r, i, key, j);
    } else {
      var k := n - 1;
      XoredBit(r, i, key, j, k);
      XoredNext(r, i, key, k);
      XorBit(r.Xored(i, key, k), r.Random(i, key, k), j);
      RandomBit(r, i, key, j, k);
      SelectedNext(r, i, key, j, k);
    }
  }

  lemma NothingXored(r: Randoms, i: nat, key: Key, j: nat)
    ensures !Bit(r.Xored(i, key, 0), j) && SelectedBelow(r, i, key, j, 0) == {}
  {
    WrapSmall(0, Pow2(j));
  }

  lemma XoredNext(r: Randoms, i: nat, key: Key, k: nat)
    ensures r.Xored(i, key, k + 1) == Xor(r.Xored(i, key, k), r.Random(i, key, k))
  {
  }

  lemma RandomBit(r: Randoms, i: nat, key: Key, j: nat, k: nat)
    requires j < r.bits
    ensures Bit(r.Random(i, key, k), j) <==> Selected(r, i, key, j, k)
  {
    hide Wrap;
    WrapBit(r.table(i, KeyBit(key, k), k), r.bits, j);
  }

  lemma SelectedNext(r: Randoms, i: nat, key: Key, j: nat, k: nat)
    ensures |SelectedBelow(r, i, key, j, k + 1)|
            == |SelectedBelow(r, i, key, j, k)| + if Selected(r, i, key, j, k) then 1 else 0
  {
    hide Selected;
    var before := SelectedBelow(r, i, key, j, k);
    assert k !in before;
    assert SelectedBelow(r, i, key, j, k + 1) == before + if Selected(r, i, key, j, k) then {k} else {};
  }

  /** Bit `j` of the address of a key in table `i` is the parity of the number of its 64 bits whose random value,
      chosen by the value of the bit, has bit `j` set. */
  lemma HashBit(r: Randoms, i: nat, key: Key, j: nat)
    requires j < r.bits
    ensures r.Hash().At(i, key) < Pow2(r.bits)
    ensures Bit(r.Hash().At(i, key), j) <==> |set k: nat | k < 64 && Selected(r, i, key, j, k)| % 2 == 1
  {
    HashIs(r, i, key);
    XoredBit(r, i, key, j, KEY_SIZE);
  }
}
