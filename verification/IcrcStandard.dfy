/** The ICRC as it goes out: what insert_icrc appends is the CRC-32 of section 3.2.9 of IEEE 802.3. */
module IcrcStandard {
  import opened Words
  import opened Crc32
  import opened Icrc
  import opened Masking
  import opened IcrcLink
  import opened CrcDivision

  /** Section 3.2.9: the first 32 bits of the message are complemented, the message times x^32 is divided by the
      polynomial, and the remainder is complemented. */
  function FrameCheck(message: seq<Byte>): seq<bool> {
    Complement(Remainder(Plus(Complement(Zeros(32)), MessageBits(message) + Zeros(32))))
  }

  // ----- The order of the bits -----

  lemma ByteBitsApart(c: Crc, b: Byte, i: nat)
    requires i < 8 && c & 0xFF == b as Crc
    ensures RegBit(c, i) == ByteBit(b, i)
  {
    hide RegBit, ByteBit;
    ByteRegBit(b, i);
    SameLowByte(c, b as Crc);
    if i < 4 {
      FourBits(c);
      FourBits(b as Crc);
    } else {
      NextFour(c, c >> 4, i - 4);
      NextFour(b as Crc, (b as Crc) >> 4, i - 4);
      FourBits(c >> 4);
      FourBits((b as Crc) >> 4);
    }
  }

  lemma SameLowByte(c: Crc, d: Crc)
    requires c & 0xFF == d
    ensures (c & 1 == 1 <==> d & 1 == 1) && (c & 2 == 2 <==> d & 2 == 2)
    ensures (c & 4 == 4 <==> d & 4 == 4) && (c & 8 == 8 <==> d & 8 == 8)
    ensures ((c >> 4) & 1 == 1 <==> (d >> 4) & 1 == 1) && ((c >> 4) & 2 == 2 <==> (d >> 4) & 2 == 2)
    ensures ((c >> 4) & 4 == 4 <==> (d >> 4) & 4 == 4) && ((c >> 4) & 8 == 8 <==> (d >> 4) & 8 == 8)
  {
  }

  lemma LeShift(c: Crc, d: Crc)
    requires d == c >> 4 >> 4
    ensures c & 0xFF == Le(c)[0] as Crc
    ensures Le(c)[1] == Le(d)[0] && Le(c)[2] == Le(d)[1] && Le(c)[3] == Le(d)[2]
  {
  }

  lemma NextByte(c: Crc, d: Crc, i: nat)
    requires d == c >> 4 >> 4
    ensures RegBit(c, i + 8) == RegBit(d, i)
  {
    hide RegBit;
    NextFour(c, c >> 4, i + 4);
    NextFour(c >> 4, d, i);
  }

  lemma {:induction false} ByteOfRegister(c: Crc, j: nat, i: nat)
    requires j < 4 && i < 8
    ensures RegBit(c, 8 * j + i) == ByteBit(Le(c)[j], i)
    decreases j
  {
    hide *;
    var d := c >> 4 >> 4;
    LeShift(c, d);
    if j == 0 {
      ByteBitsApart(c, Le(c)[0], i);
    } else {
      NextByte(c, d, 8 * (j - 1) + i);
      ByteOfRegister(d, j - 1, i);
    }
  }

  lemma MessageOfFour(b: seq<Byte>)
    requires |b| == 4
    ensures MessageBits(b) == ByteBits(b[0]) + ByteBits(b[1]) + ByteBits(b[2]) + ByteBits(b[3])
  {
    hide ByteBits;
    assert b[..3][..2] == b[..2] && b[..2][..1] == b[..1] && b[..1][..0] == [];
    assert MessageBits(b[..1]) == ByteBits(b[0]);
    assert MessageBits(b[..2]) == ByteBits(b[0]) + ByteBits(b[1]);
    assert MessageBits(b[..3]) == ByteBits(b[0]) + ByteBits(b[1]) + ByteBits(b[2]);
  }

  /** The four bytes carry the register from the bit shifted out first. */
  lemma LeBits(c: Crc)
    ensures MessageBits(Le(c)) == RegBits(c)
  {
    hide RegBit, ByteBit, Le, MessageBits;
    MessageOfFour(Le(c));
    forall i | 0 <= i < 32 ensures RegBit(c, i) == ByteBit(Le(c)[i / 8], i % 8) {
      ByteOfRegister(c, i / 8, i % 8);
    }
  }

  // ----- The packets sent -----

  /** The complemented register, as it goes out. */
  lemma TagIsFrameCheck(n: nat, p: seq<Byte>, header: seq<Byte>)
    requires n > 0 && |header| == 8 && forall k :: 0 <= k < 8 ==> header[k] == 0xFF
    ensures MessageBits(Le(!CrcOf(INITIAL, Masked(n, p)))) == FrameCheck(header + Masked(n, p))
  {
    hide *;
    TagOf(Masked(n, p), header);
  }

  lemma TagOf(m: seq<Byte>, header: seq<Byte>)
    requires |header| == 8 && forall k :: 0 <= k < 8 ==> header[k] == 0xFF
    ensures MessageBits(Le(!CrcOf(INITIAL, m))) == FrameCheck(header + m)
  {
    HeaderFirst(header, m);
    FrameCheckOf(CrcOf(0xFFFF_FFFF, header + m), header + m);
  }

  lemma FrameCheckOf(c: Crc, message: seq<Byte>)
    requires c == CrcOf(0xFFFF_FFFF, message)
    ensures MessageBits(Le(!c)) == FrameCheck(message)
  {
    hide *;
    TagBits(c);
    FrameCheckIs(message);
  }

  lemma HeaderFirst(header: seq<Byte>, m: seq<Byte>)
    requires |header| == 8 && forall k :: 0 <= k < 8 ==> header[k] == 0xFF
    ensures CrcOf(INITIAL, m) == CrcOf(0xFFFF_FFFF, header + m)
  {
    hide CrcOf;
    InitialIsMaskedHeader(header);
    CrcConcat(0xFFFF_FFFF, header, m);
  }

  lemma TagBits(c: Crc)
    ensures MessageBits(Le(!c)) == Complement(RegBits(c))
  {
    hide *;
    LeBits(!c);
    ComplementBits(c);
  }

  lemma FrameCheckIs(message: seq<Byte>)
    ensures Complement(RegBits(CrcOf(0xFFFF_FFFF, message))) == FrameCheck(message)
  {
    hide CrcOf, RegBits, Remainder, MessageBits, Plus;
    ComplementBits(0);
    CrcIsRemainder(0xFFFF_FFFF, message);
  }

  /** Packet k as insert_icrc sends it: the packet read, and behind it, if it has 4k bytes, the CRC-32 of
      eight bytes 0xFF and the masked packet. */
  lemma SentPacket(n: nat, tx: PathRun, insert: InsertRun, k: nat, header: seq<Byte>)
    requires tx.Inv(n) && insert.Inv(n) && insert.crcs <= tx.crcs && insert.read <= tx.data
    requires k < |Parse(insert.sent).done|
    requires |header| == 8 && forall i :: 0 <= i < 8 ==> header[i] == 0xFF
    ensures k < |Parse(insert.read).done|
    ensures var p, q := Parse(insert.read).done[k], Parse(insert.sent).done[k];
      if |p| % 4 != 0 then q == p
      else |q| == |p| + 4 && q[..|p|] == p && MessageBits(q[|p|..]) == FrameCheck(header + Masked(n, p))
  {
    TaggedIff(n, insert, k);
    CrcOfPacket(n, tx, insert, k);
    hide *;
    TagIsFrameCheck(n, Parse(insert.read).done[k], header);
  }

  lemma CrcOfPacket(n: nat, tx: PathRun, insert: InsertRun, k: nat)
    requires tx.Inv(n) && insert.Inv(n) && insert.crcs <= tx.crcs && insert.read <= tx.data
    requires k < |Parse(insert.read).done| && k < |insert.crcs|
    ensures insert.crcs[k] == CrcOf(INITIAL, Masked(n, Parse(insert.read).done[k]))
  {
    hide Masked, CrcOf, Parse;
    ParsePrefix(insert.read, tx.read);
    var p := Parse(tx.read).done;
    assert insert.crcs[k] == Crcs(MaskedAll(n, p))[k];
    assert p[k] == Parse(insert.read).done[k];
  }

  /** The register runs from any message followed by its own tag to one and the same value. */
  lemma Residue(c: Crc)
    ensures CrcOf(c, Le(!c)) == 0xdebb20e3
  {
    hide *;
    ResidueBits(c);
    ResidueBits(0);
    BitsDetermine(CrcOf(c, Le(!c)), CrcOf(0, Le(!0)));
    ResidueOfZero();
  }

  lemma ResidueBits(c: Crc)
    ensures RegBits(CrcOf(c, Le(!c))) == Remainder(Complement(Zeros(32)) + Zeros(32))
  {
    hide RegBit, Remainder, Le, CrcOf, MessageBits;
    CrcIsRemainder(c, Le(!c));
    LeBits(!c);
    ComplementBits(c);
    assert Plus(RegBits(c), Complement(RegBits(c)) + Zeros(32)) == Complement(Zeros(32)) + Zeros(32);
  }

  lemma ResidueOfZero()
    ensures CrcOf(0, Le(!0)) == 0xdebb20e3
  {
    var header: seq<Byte> := [0xFF, 0xFF, 0xFF, 0xFF, 0xFF, 0xFF, 0xFF, 0xFF];
    InitialIsMaskedHeader(header);
    FirstFour(header);
    assert Le(!0) == header[4..];
    assert header == header[..4] + header[4..];
    CrcConcat(0xFFFF_FFFF, header[..4], header[4..]);
  }
}
