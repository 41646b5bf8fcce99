/** CRC-32 as section 3.2.9 of IEEE 802.3 defines it: the remainder of a long division of polynomials over GF(2),
    which is what the registers of compute_crc32 compute byte by byte. */
module CrcDivision {
  import opened Words
  import opened Crc32

  // ----- Long division -----

  /** The polynomial is x^32 + x^26 + x^23 + x^22 + x^16 + x^12 + x^11 + x^10 + x^8 + x^7 + x^5 + x^4 + x^2 + x + 1. */
  predicate Coefficient(degree: nat) {
    degree in {32, 26, 23, 22, 16, 12, 11, 10, 8, 7, 5, 4, 2, 1, 0}
  }

  /** Coefficients stand from the highest degree down: subtract the divisor from the front. */
  function Subtracted(s: seq<bool>): (r: seq<bool>)
    requires |s| > 32
    ensures |r| == |s|
  {
    seq(|s|, i requires 0 <= i < |s| => if i <= 32 then s[i] != Coefficient(32 - i) else s[i])
  }

  /** The remainder of the division by the polynomial, by hand: as long as the dividend has degree 32 or more,
      subtract the divisor where the leading coefficient is set, and drop that coefficient. */
  function Remainder(s: seq<bool>): (r: seq<bool>)
    ensures |r| <= 32
    decreases |s|
  {
    if |s| <= 32 then s else Remainder((if s[0] then Subtracted(s) else s)[1..])
  }

  function Zeros(k: nat): (r: seq<bool>)
    ensures |r| == k && forall i :: 0 <= i < k ==> !r[i]
  {
    seq(k, i => false)
  }

  /** The coefficients of `s`, of which the first ones are added to those of `a`. */
  function Plus(a: seq<bool>, s: seq<bool>): (r: seq<bool>)
    requires |a| <= |s|
    ensures |r| == |s|
  {
    seq(|s|, i requires 0 <= i < |s| => if i < |a| then a[i] != s[i] else s[i])
  }

  // ----- Bits, the first one sent first -----

  predicate Odd(c: Crc) {
    c & 1 == 1
  }

  function Half(c: Crc): Crc {
    c >> 1
  }

  predicate RegBit(c: Crc, i: nat) {
    if i == 0 then Odd(c) else RegBit(Half(c), i - 1)
  }

  /** A register, from the bit shifted out first. */
  function RegBits(c: Crc): (r: seq<bool>)
    ensures |r| == 32
  {
    seq(32, i requires 0 <= i < 32 => RegBit(c, i))
  }

  predicate ByteBit(b: Byte, i: nat) {
    if i == 0 then b & 1 == 1 else ByteBit(b >> 1, i - 1)
  }

  /** A byte, from its lowest bit. */
  function ByteBits(b: Byte): (r: seq<bool>)
    ensures |r| == 8
  {
    seq(8, i requires 0 <= i < 8 => ByteBit(b, i))
  }

  function MessageBits(bytes: seq<Byte>): (r: seq<bool>)
    ensures |r| == 8 * |bytes|
  {
    if bytes == [] then [] else MessageBits(bytes[..|bytes| - 1]) + ByteBits(bytes[|bytes| - 1])
  }

  // ----- One step of the register -----

  lemma OddXor(a: Crc, b: Crc)
    ensures Odd(a ^ b) == (Odd(a) != Odd(b))
  {
  }

  lemma HalfXor(a: Crc, b: Crc)
    ensures Half(a ^ b) == Half(a) ^ Half(b)
  {
  }

  lemma {:induction false} XorRegBit(a: Crc, b: Crc, i: nat)
    ensures RegBit(a ^ b, i) == (RegBit(a, i) != RegBit(b, i))
    decreases i
  {
    hide *;
    RegBitIs(a, i);
    RegBitIs(b, i);
    RegBitIs(a ^ b, i);
    OddXor(a, b);
    if i > 0 {
      HalfXor(a, b);
      XorRegBit(Half(a), Half(b), i - 1);
    }
  }

  lemma RegBitIs(c: Crc, i: nat)
    ensures RegBit(c, i) == if i == 0 then Odd(c) else RegBit(Half(c), i - 1)
  {
    hide Odd, Half;
  }

  lemma RegBitFour(c: Crc, i: nat)
    ensures RegBit(c, i + 4) == RegBit(Half(Half(Half(Half(c)))), i)
  {
    hide Odd, Half;
    assert RegBit(c, i + 4) == RegBit(Half(c), i + 3) == RegBit(Half(Half(c)), i + 2)
        == RegBit(Half(Half(Half(c))), i + 1);
  }

  lemma FourHalves(c: Crc)
    ensures Half(Half(Half(Half(c)))) == c >> 4
  {
  }

  /** A register shifted once has its last bit clear. */
  lemma LastBitClear(c: Crc)
    ensures !RegBit(Half(c), 31)
  {
    hide Odd, Half;
    assert RegBit(Half(c), 31) == RegBit(c, 32);
    var a := c >> 4;
    var b := a >> 4;
    var d := b >> 4;
    var e := d >> 4;
    var f := e >> 4;
    var g := f >> 4;
    var h := g >> 4;
    var z := h >> 4;
    RegBitFour(c, 28);
    RegBitFour(a, 24);
    RegBitFour(b, 20);
    RegBitFour(d, 16);
    RegBitFour(e, 12);
    RegBitFour(f, 8);
    RegBitFour(g, 4);
    RegBitFour(h, 0);
    FourHalves(c);
    FourHalves(a);
    FourHalves(b);
    FourHalves(d);
    FourHalves(e);
    FourHalves(f);
    FourHalves(g);
    FourHalves(h);
    NothingLeft(c);
  }

  lemma NothingLeft(c: Crc)
    ensures !Odd(c >> 4 >> 4 >> 4 >> 4 >> 4 >> 4 >> 4 >> 4)
  {
  }

  lemma FourBits(c: Crc)
    ensures RegBit(c, 0) <==> c & 1 == 1
    ensures RegBit(c, 1) <==> c & 2 == 2
    ensures RegBit(c, 2) <==> c & 4 == 4
    ensures RegBit(c, 3) <==> c & 8 == 8
  {
    HalvesOdd(c);
    assert RegBit(c, 1) == RegBit(Half(c), 0);
    assert RegBit(c, 2) == RegBit(Half(c), 1) == RegBit(Half(Half(c)), 0);
    assert RegBit(c, 3) == RegBit(Half(c), 2) == RegBit(Half(Half(c)), 1) == RegBit(Half(Half(Half(c))), 0);
  }

  lemma HalvesOdd(c: Crc)
    ensures Odd(Half(c)) <==> c & 2 == 2
    ensures Odd(Half(Half(c))) <==> c & 4 == 4
    ensures Odd(Half(Half(Half(c)))) <==> c & 8 == 8
  {
  }

  lemma NextFour(c: Crc, d: Crc, i: nat)
    requires d == c >> 4
    ensures RegBit(c, i + 4) == RegBit(d, i)
  {
    hide RegBit;
    RegBitFour(c, i);
    FourHalves(c);
  }

  /** The constant of the code holds the coefficients below x^32, that of x^31 in its lowest bit. */
  lemma PolynomialBits(i: nat)
    requires i < 32
    ensures RegBit(0xEDB88320, i) <==> Coefficient(31 - i)
  {
    hide RegBit;
    if i < 4 {
      FourBits(0xEDB88320);
    } else {
      NextFour(0xEDB88320, 0x0EDB8832, i - 4);
      PolynomialLater(i);
    }
  }

  lemma PolynomialLater(i: nat)
    requires 4 <= i < 32
    ensures RegBit(0x0EDB8832, i - 4) <==> Coefficient(31 - i)
  {
    hide RegBit;
    if i < 8 {
      FourBits(0x0EDB8832);
    } else {
      NextFour(0x0EDB8832, 0x00EDB883, i - 8);
      if i < 12 {
        FourBits(0x00EDB883);
      } else {
        NextFour(0x00EDB883, 0x000EDB88, i - 12);
        if i < 16 {
          FourBits(0x000EDB88);
        } else {
          NextFour(0x000EDB88, 0x0000EDB8, i - 16);
          PolynomialLast(i);
        }
      }
    }
  }

  lemma PolynomialLast(i: nat)
    requires 16 <= i < 32
    ensures RegBit(0x0000EDB8, i - 16) <==> Coefficient(31 - i)
  {
    hide RegBit;
    if i < 20 {
      FourBits(0x0000EDB8);
    } else {
      NextFour(0x0000EDB8, 0x00000EDB, i - 20);
      if i < 24 {
        FourBits(0x00000EDB);
      } else {
        NextFour(0x00000EDB, 0x000000ED, i - 24);
        if i < 28 {
          FourBits(0x000000ED);
        } else {
          NextFour(0x000000ED, 0x0000000E, i - 28);
          FourBits(0x0000000E);
        }
      }
    }
  }

  lemma BitStepIs(c: Crc)
    ensures BitStep(c) == if Odd(c) then Half(c) ^ 0xEDB88320 else Half(c)
  {
    assert c & 1 == 0 || c & 1 == 1;
  }

  lemma StepBit(c: Crc, i: nat)
    requires i < 32
    ensures RegBit(BitStep(c), i) <==> (i < 31 && RegBit(c, i + 1)) != (RegBit(c, 0) && Coefficient(31 - i))
  {
    hide BitStep, Odd, Half, Coefficient;
    BitStepIs(c);
    PolynomialBits(i);
    XorRegBit(Half(c), 0xEDB88320, i);
    LastBitClear(c);
    assert RegBit(c, i + 1) == RegBit(Half(c), i);
  }

  // ----- The register is the remainder so far -----

  lemma DivideStep(c: Crc, rest: seq<bool>)
    requires |rest| >= 32
    ensures Remainder(Plus(RegBits(c), [false] + rest)) == Remainder(Plus(RegBits(BitStep(c)), rest))
  {
    hide BitStep, RegBit, Coefficient, Remainder;
    var t := Plus(RegBits(c), [false] + rest);
    var next := (if t[0] then Subtracted(t) else t)[1..];
    forall j | 0 <= j < |rest| ensures next[j] == Plus(RegBits(BitStep(c)), rest)[j] {
      if j < 32 {
        StepBit(c, j);
      }
    }
    assert next == Plus(RegBits(BitStep(c)), rest);
    RemainderNext(t);
  }

  lemma RemainderNext(s: seq<bool>)
    requires |s| > 32
    ensures Remainder(s) == Remainder((if s[0] then Subtracted(s) else s)[1..])
  {
  }

  lemma {:induction false} DivideSteps(c: Crc, k: nat, rest: seq<bool>)
    requires |rest| >= 32
    ensures Remainder(Plus(RegBits(c), Zeros(k) + rest)) == Remainder(Plus(RegBits(BitSteps(c, k)), rest))
    decreases k
  {
    hide BitStep, RegBits, Remainder, Plus;
    if k == 0 {
      assert Zeros(0) + rest == rest;
    } else {
      DivideSteps(c, k - 1, [false] + rest);
      assert Zeros(k) + rest == Zeros(k - 1) + ([false] + rest);
      DivideStep(BitSteps(c, k - 1), rest);
    }
  }

  lemma ByteHalf(b: Byte)
    ensures Half(b as Crc) == (b >> 1) as Crc && (Odd(b as Crc) <==> b & 1 == 1)
  {
  }

  lemma {:induction false} ByteRegBit(b: Byte, i: nat)
    ensures RegBit(b as Crc, i) == ByteBit(b, i)
    decreases i
  {
    hide Odd, Half;
    ByteHalf(b);
    if i != 0 {
      ByteRegBit(b >> 1, i - 1);
    }
  }

  lemma HighByteBits(b: Byte, i: nat)
    requires 8 <= i
    ensures !RegBit(b as Crc, i)
  {
    hide RegBit, Odd, Half;
    NextFour(b as Crc, (b as Crc) >> 4, i - 4);
    NextFour((b as Crc) >> 4, 0, i - 8) by {
      ByteShifted(b);
    }
    NoBits(i - 8);
  }

  lemma ByteShifted(b: Byte)
    ensures ((b as Crc) >> 4) >> 4 == 0
  {
  }

  lemma {:induction false} NoBits(i: nat)
    ensures !RegBit(0, i)
  {
    if i != 0 {
      assert Half(0) == 0;
      NoBits(i - 1);
    }
  }

  /** A byte is added to the front of the register before the eight steps. */
  lemma ByteIntoRegister(c: Crc, b: Byte, rest: seq<bool>)
    requires |rest| >= 32
    ensures Plus(RegBits(c), ByteBits(b) + rest) == Plus(RegBits(c ^ (b as Crc)), Zeros(8) + rest)
  {
    hide RegBit, ByteBit;
    var was, now := Plus(RegBits(c), ByteBits(b) + rest), Plus(RegBits(c ^ (b as Crc)), Zeros(8) + rest);
    forall i | 0 <= i < |was| ensures was[i] == now[i] {
      if i < 32 {
        AddedBit(c, b, i);
      }
    }
  }

  lemma AddedBit(c: Crc, b: Byte, i: nat)
    ensures RegBit(c ^ (b as Crc), i) == (RegBit(c, i) != (i < 8 && ByteBit(b, i)))
  {
    hide RegBit, ByteBit;
    XorRegBit(c, b as Crc, i);
    if i < 8 {
      ByteRegBit(b, i);
    } else {
      HighByteBits(b, i);
    }
  }

  lemma {:induction false} DivideBytes(c: Crc, bytes: seq<Byte>, rest: seq<bool>)
    requires |rest| >= 32
    ensures Remainder(Plus(RegBits(c), MessageBits(bytes) + rest)) == Remainder(Plus(RegBits(CrcOf(c, bytes)), rest))
    decreases |bytes|
  {
    hide *;
    if bytes == [] {
      NoBytes(c);
      assert MessageBits(bytes) + rest == rest;
    } else {
      var front, b := bytes[..|bytes| - 1], bytes[|bytes| - 1];
      LastByte(c, bytes);
      assert MessageBits(front) + ByteBits(b) + rest == MessageBits(front) + (ByteBits(b) + rest);
      DivideBytes(c, front, ByteBits(b) + rest);
      DivideByte(CrcOf(c, front), b, rest);
    }
  }

  lemma DivideByte(c: Crc, b: Byte, rest: seq<bool>)
    requires |rest| >= 32
    ensures Remainder(Plus(RegBits(c), ByteBits(b) + rest)) == Remainder(Plus(RegBits(ByteStep(c, b)), rest))
  {
    hide RegBits, Remainder, Plus, ByteBits, BitSteps;
    ByteIntoRegister(c, b, rest);
    DivideSteps(c ^ (b as Crc), 8, rest);
  }

  lemma NoBytes(c: Crc)
    ensures MessageBits([]) == [] && CrcOf(c, []) == c
  {
  }

  lemma LastByte(c: Crc, bytes: seq<Byte>)
    requires bytes != []
    ensures var front, b := bytes[..|bytes| - 1], bytes[|bytes| - 1];
      MessageBits(bytes) == MessageBits(front) + ByteBits(b) && CrcOf(c, bytes) == ByteStep(CrcOf(c, front), b)
  {
    hide ByteBits, ByteStep;
  }

  /** The register after any bytes: the remainder of the message, its first 32 coefficients changed by the register at
      the start, times x^32. */
  lemma CrcIsRemainder(c: Crc, bytes: seq<Byte>)
    ensures RegBits(CrcOf(c, bytes)) == Remainder(Plus(RegBits(c), MessageBits(bytes) + Zeros(32)))
  {
    hide RegBit, MessageBits, CrcOf;
    DivideBytes(c, bytes, Zeros(32));
    assert Plus(RegBits(CrcOf(c, bytes)), Zeros(32)) == RegBits(CrcOf(c, bytes));
  }

  // ----- Registers and their bits -----

  function Complement(s: seq<bool>): (r: seq<bool>)
    ensures |r| == |s|
  {
    seq(|s|, i requires 0 <= i < |s| => !s[i])
  }

  lemma FullBits(i: nat)
    requires i < 32
    ensures RegBit(0xFFFF_FFFF, i)
  {
    hide RegBit;
    if i < 4 {
      FourBits(0xFFFF_FFFF);
    } else {
      NextFour(0xFFFF_FFFF, 0x0FFF_FFFF, i - 4);
      if i < 8 {
        FourBits(0x0FFF_FFFF);
      } else {
        NextFour(0x0FFF_FFFF, 0x00FF_FFFF, i - 8);
        if i < 12 {
          FourBits(0x00FF_FFFF);
        } else {
          NextFour(0x00FF_FFFF, 0x000F_FFFF, i - 12);
          FullLater(i);
        }
      }
    }
  }

  lemma FullLater(i: nat)
    requires 12 <= i < 32
    ensures RegBit(0x000F_FFFF, i - 12)
  {
    hide RegBit;
    if i < 16 {
      FourBits(0x000F_FFFF);
    } else {
      NextFour(0x000F_FFFF, 0xFFFF, i - 16);
      if i < 20 {
        FourBits(0xFFFF);
      } else {
        NextFour(0xFFFF, 0x0FFF, i - 20);
        if i < 24 {
          FourBits(0x0FFF);
        } else {
          NextFour(0x0FFF, 0xFF, i - 24);
          if i < 28 {
            FourBits(0xFF);
          } else {
            NextFour(0xFF, 0x0F, i - 28);
            FourBits(0x0F);
          }
        }
      }
    }
  }

  lemma NotIsXor(c: Crc)
    ensures !c == c ^ 0xFFFF_FFFF
  {
  }

  lemma ComplementBits(c: Crc)
    ensures RegBits(!c) == Complement(RegBits(c))
    ensures RegBits(0xFFFF_FFFF) == Complement(Zeros(32))
  {
    hide RegBit;
    NotIsXor(c);
    forall i | 0 <= i < 32 ensures RegBit(0xFFFF_FFFF, i) && RegBit(!c, i) == !RegBit(c, i) {
      FullBits(i);
      XorRegBit(c, 0xFFFF_FFFF, i);
    }
  }

  ghost predicate Clear(c: Crc, n: nat) {
    forall i :: 0 <= i < n ==> !RegBit(c, i)
  }

  lemma AllClear(c: Crc, d: Crc, n: nat)
    requires Clear(c, n + 4) && d == c >> 4
    ensures c & 0xF == 0 && Clear(d, n)
  {
    hide RegBit;
    FourBits(c);
    LowFour(c);
    forall i | 0 <= i < n ensures !RegBit(d, i) {
      NextFour(c, d, i);
      assert !RegBit(c, i + 4);
    }
  }

  lemma LowFour(c: Crc)
    ensures c & 1 != 1 && c & 2 != 2 && c & 4 != 4 && c & 8 != 8 ==> c & 0xF == 0
  {
  }

  lemma ZeroRegister(c: Crc)
    requires Clear(c, 32)
    ensures c == 0
  {
    hide *;
    var c1 := c >> 4;
    var c2 := c1 >> 4;
    var c3 := c2 >> 4;
    var c4 := c3 >> 4;
    var c5 := c4 >> 4;
    var c6 := c5 >> 4;
    var c7 := c6 >> 4;
    AllClear(c, c1, 28);
    AllClear(c1, c2, 24);
    AllClear(c2, c3, 20);
    AllClear(c3, c4, 16);
    AllClear(c4, c5, 12);
    AllClear(c5, c6, 8);
    AllClear(c6, c7, 4);
    AllClear(c7, c7 >> 4, 0);
    NibblesClear(c);
  }

  lemma NibblesClear(c: Crc)
    requires c & 0xF == 0 && (c >> 4) & 0xF == 0 && (c >> 4 >> 4) & 0xF == 0 && (c >> 4 >> 4 >> 4) & 0xF == 0
    requires (c >> 4 >> 4 >> 4 >> 4) & 0xF == 0 && (c >> 4 >> 4 >> 4 >> 4 >> 4) & 0xF == 0
    requires (c >> 4 >> 4 >> 4 >> 4 >> 4 >> 4) & 0xF == 0 && (c >> 4 >> 4 >> 4 >> 4 >> 4 >> 4 >> 4) & 0xF == 0
    ensures c == 0
  {
  }

  /** The bits tell registers apart, so the remainder determines the CRC. */
  lemma BitsDetermine(a: Crc, b: Crc)
    requires RegBits(a) == RegBits(b)
    ensures a == b
  {
    SameBits(a, b, a ^ b);
    ZeroRegister(a ^ b);
    XorZero(a, b);
  }

  lemma SameBits(a: Crc, b: Crc, x: Crc)
    requires RegBits(a) == RegBits(b) && x == a ^ b
    ensures Clear(x, 32)
  {
    hide RegBit;
    forall i | 0 <= i < 32 ensures !RegBit(x, i) {
      XorRegBit(a, b, i);
      assert RegBits(a)[i] == RegBit(a, i) && RegBits(b)[i] == RegBit(b, i);
    }
  }

  lemma XorZero(a: Crc, b: Crc)
    requires a ^ b == 0
    ensures a == b
  {
  }
}
