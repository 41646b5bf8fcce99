/** TLB entries: packed by tlb_create_map and tlb_create_unmap of fpga_mmu.c with the sizes of
    fpga_dev.c, read back by the slices of tlb_controller.sv and tlb_fsm_rd.sv. */
module TlbEntries {
  import opened Arith
  import opened Bits

  const VADDR_RANGE: nat := 48
  const PADDR_RANGE: nat := 40
  const PID_SIZE: nat := 6
  const PAGE_SHIFT: nat := 12

  datatype TlbOrder = TlbOrder(
    hugepage: bool, pageShift: nat, pageSize: nat, pageMask: nat,
    keyMask: nat, keySize: nat, tagSize: nat, phyMask: nat, phySize: nat)

  /** The fields that follow from the page shift and the key size the device reports. */
  function Configured(hugepage: bool, pageShift: nat, keySize: nat): TlbOrder
    requires PAGE_SHIFT <= pageShift <= 30 && keySize <= 15
  {
    Pow2Mono(pageShift, 64);
    TlbOrder(hugepage, pageShift, Pow2(pageShift), Pow2(64) - Pow2(pageShift),
             Pow2(keySize) - 1, keySize, VADDR_RANGE - pageShift - keySize,
             Pow2(PADDR_RANGE - pageShift) - 1, PADDR_RANGE - pageShift)
  }

  ghost predicate Usable(o: TlbOrder) {
    PAGE_SHIFT <= o.pageShift <= 30 && o.keySize <= 15 && o == Configured(o.hugepage, o.pageShift, o.keySize)
  }

  /** The left shift of 64-bit numbers. */
  function Shl(x: nat, k: nat): nat {
    Wrap(Raise(x, k), Pow2(64))
  }

  function Key(o: TlbOrder, vaddr: nat): nat {
    And(Shr(vaddr, o.pageShift), o.keyMask)
  }

  function Tag(o: TlbOrder, vaddr: nat): nat {
    Shr(vaddr, o.pageShift + o.keySize)
  }

  /** What is ORed into the first word of an entry; `cpid` as a 64-bit number. */
  function EntryBits(o: TlbOrder, vaddr: nat, cpid: nat, valid: nat): nat {
    Or(Or(Or(Key(o, vaddr), Shl(Tag(o, vaddr), o.keySize)),
          Shl(cpid, o.keySize + o.tagSize)),
       Shl(valid, o.keySize + o.tagSize + PID_SIZE))
  }

  function FrameOf(o: TlbOrder, paddr: nat): nat {
    And(Shr(paddr, o.pageShift), o.phyMask)
  }

  /** What is ORed into the second word. */
  function FrameBits(o: TlbOrder, host: nat, card: nat): nat {
    Or(FrameOf(o, host), Shl(FrameOf(o, card), o.phySize))
  }

  // ----- What the TLB reads -----

  function Vpn(o: TlbOrder, w: nat): nat {
    Cut(w, 0, o.keySize + o.tagSize)
  }

  function Pid(o: TlbOrder, w: nat): nat {
    Cut(w, o.keySize + o.tagSize, PID_SIZE)
  }

  predicate Live(o: TlbOrder, w: nat) {
    Cut(w, o.keySize + o.tagSize + PID_SIZE, 1) == 1
  }

  function HostFrame(o: TlbOrder, w: nat): nat {
    Cut(w, 0, o.phySize)
  }

  function CardFrame(o: TlbOrder, w: nat): nat {
    Cut(w, o.phySize, o.phySize)
  }

  /** A lookup of `addr` for `pid` hits the entry: it reads the set of the key, then compares tag,
      pid and valid bit. */
  predicate Hits(o: TlbOrder, w: nat, addr: nat, pid: nat) {
    && Cut(w, 0, o.keySize) == Cut(addr, o.pageShift, o.keySize)
    && Cut(w, o.keySize, o.tagSize) == Cut(addr, o.pageShift + o.keySize, o.tagSize)
    && Pid(o, w) == pid && Live(o, w)
  }

  /** The host address behind `addr`: the frame, and the page offset. */
  function HostAddress(o: TlbOrder, w: nat, addr: nat): nat {
    HostFrame(o, w) * Pow2(o.pageShift) + Cut(addr, 0, o.pageShift)
  }

  // ----- Packing loses nothing -----

  lemma Sizes(o: TlbOrder)
    requires Usable(o)
    ensures o.keySize + o.tagSize == VADDR_RANGE - o.pageShift && PAGE_SHIFT <= o.pageShift <= 30 && o.keySize <= 15
    ensures o.phySize == PADDR_RANGE - o.pageShift <= 28 && o.pageSize == Pow2(o.pageShift)
    ensures Pow2(PID_SIZE) == 64 && Pow2(1) == 2 && Pow2(PAGE_SHIFT) == 4096 && Pow2(VADDR_RANGE) <= Pow2(64)
  {
    hide *;
    FieldSizes(o);
    SmallPowers();
    Pow2Mono(VADDR_RANGE, 64);
  }

  lemma FieldSizes(o: TlbOrder)
    requires Usable(o)
    ensures o.keySize + o.tagSize == VADDR_RANGE - o.pageShift && PAGE_SHIFT <= o.pageShift <= 30 && o.keySize <= 15
    ensures o.phySize == PADDR_RANGE - o.pageShift <= 28 && o.pageSize == Pow2(o.pageShift) && VADDR_RANGE <= 64
  {
    hide Pow2;
  }

  lemma SmallPowers()
    ensures Pow2(PID_SIZE) == 64 && Pow2(1) == 2 && Pow2(PAGE_SHIFT) == 4096
  {
  }

  lemma ShlSmall(x: nat, k: nat, w: nat)
    requires k <= w <= 64 && x < Pow2(w - k)
    ensures Shl(x, k) == Raise(x, k)
  {
    hide Wrap, Quot, Pow2, Raise;
    RaiseBelow(0, x, k, w);
    Pow2Mono(w, 64);
    WrapSmall(Raise(x, k), Pow2(64));
  }

  /** Key and tag make up the virtual page number. */
  lemma KeyAndTag(o: TlbOrder, vaddr: nat)
    requires Usable(o) && vaddr < Pow2(64)
    ensures Or(Key(o, vaddr), Shl(Tag(o, vaddr), o.keySize)) == Shr(vaddr, o.pageShift)
  {
    hide Wrap, Quot, Pow2, Or, And;
    var k := o.keySize;
    var vpn := Shr(vaddr, o.pageShift);
    AndLow(vpn, k);
    CutJoin(vaddr, o.pageShift, k);
    ShrBelow(vaddr, o.pageShift + k, 64);
    Pow2Mono(64 - o.pageShift - k, 64 - k);
    ShlSmall(Shr(vpn, k), k, 64);
    QuotWrap(vpn, Pow2(k));
    OrApart(Wrap(vpn, Pow2(k)), Shr(vpn, k), k);
  }

  lemma PackTwo(a: nat, b: nat, k: nat, w: nat)
    requires k <= w <= 64 && a < Pow2(k) && b < Pow2(w - k)
    ensures Or(a, Shl(b, k)) == a + Raise(b, k) < Pow2(w)
  {
    hide Wrap, Quot, Pow2, Or, Shl, Raise;
    ShlSmall(b, k, w);
    OrApart(a, b, k);
    RaiseBelow(a, b, k, w);
  }

  lemma EntryPacked(o: TlbOrder, vaddr: nat, cpid: nat, valid: nat)
    requires Usable(o) && vaddr < Pow2(VADDR_RANGE) && cpid < 64 && valid < 2
    ensures EntryBits(o, vaddr, cpid, valid) ==
      Shr(vaddr, o.pageShift) + Raise(cpid + Raise(valid, PID_SIZE), o.keySize + o.tagSize)
    ensures EntryBits(o, vaddr, cpid, valid) ==
      vaddr / Pow2(o.pageShift) + (cpid + 64 * valid) * Pow2(48 - o.pageShift)
  {
    var k := o.keySize + o.tagSize;
    var vpn := Shr(vaddr, o.pageShift);
    hide Wrap, Quot, Pow2, Or, And, Shl, Shr, Raise, Key, Tag, Usable;
    Sizes(o);
    KeyAndTag(o, vaddr);
    ShrBelow(vaddr, o.pageShift, VADDR_RANGE);
    PackTwo(vpn, cpid, k, k + PID_SIZE);
    PackTwo(vpn + Raise(cpid, k), valid, k + PID_SIZE, k + PID_SIZE + 1);
    RaiseAdd(cpid, valid, k, PID_SIZE);
    InNumbers(vaddr, o.pageShift, cpid, valid);
  }

  lemma InNumbers(vaddr: nat, shift: nat, cpid: nat, valid: nat)
    requires shift <= 48
    ensures Shr(vaddr, shift) == vaddr / Pow2(shift)
    ensures Raise(cpid + Raise(valid, PID_SIZE), 48 - shift) == (cpid + 64 * valid) * Pow2(48 - shift)
  {
    assert Pow2(6) == 64;
  }

  lemma EntryReadBack(o: TlbOrder, vaddr: nat, cpid: nat, valid: nat)
    requires Usable(o) && vaddr < Pow2(VADDR_RANGE) && cpid < 64 && valid < 2
    ensures var w := EntryBits(o, vaddr, cpid, valid);
      Vpn(o, w) == Shr(vaddr, o.pageShift) && Pid(o, w) == cpid && (Live(o, w) <==> valid == 1)
  {
    hide Wrap, Quot, Pow2, EntryBits, Shr, Cut, Usable, Raise;
    Sizes(o);
    EntryPacked(o, vaddr, cpid, valid);
    ShrBelow(vaddr, o.pageShift, VADDR_RANGE);
    ReadThree(Shr(vaddr, o.pageShift), cpid, valid, o.keySize + o.tagSize);
  }

  lemma ReadThree(a: nat, b: nat, c: nat, k: nat)
    requires a < Pow2(k) && b < 64 && c < 2
    ensures var w := a + Raise(b + Raise(c, PID_SIZE), k);
      Cut(w, 0, k) == a && Cut(w, k, PID_SIZE) == b && Cut(w, k + PID_SIZE, 1) == c
  {
    var upper := b + Raise(c, PID_SIZE);
    assert Pow2(PID_SIZE) == 64 && Pow2(1) == 2;
    CutAll(upper);
    hide Wrap, Quot, Pow2, Raise, Shr;
    Unpack(a, upper, k);
    Unpack(b, c, PID_SIZE);
    CutJoin(a + Raise(upper, k), k, PID_SIZE);
    WrapSmall(c, 2);
  }

  /** The fields of an entry read back as they were put in exactly for a virtual address below 2^48
      and a cpid below 64: beyond that they run into each other. */
  lemma EntryDecodesIff(o: TlbOrder, vaddr: nat, cpid: nat, valid: nat)
    requires Usable(o) && vaddr < Pow2(64) && cpid < Pow2(64) && valid < 2
    ensures var w := EntryBits(o, vaddr, cpid, valid);
      Vpn(o, w) == Shr(vaddr, o.pageShift) && Pid(o, w) == cpid && (Live(o, w) <==> valid == 1)
      <==> vaddr < Pow2(48) && cpid < 64
  {
    hide Wrap, Quot, Pow2, EntryBits, Shr, Cut, Usable;
    Sizes(o);
    ShrBelow(vaddr, o.pageShift, VADDR_RANGE);
    if vaddr < Pow2(VADDR_RANGE) && cpid < 64 {
      EntryReadBack(o, vaddr, cpid, valid);
    }
  }

  /** Whatever the key size, a lookup hits exactly the live entry of its page and pid. */
  lemma HitsIff(o: TlbOrder, w: nat, addr: nat, pid: nat)
    requires Usable(o) && addr < Pow2(VADDR_RANGE)
    ensures Hits(o, w, addr, pid) <==> Vpn(o, w) == Shr(addr, o.pageShift) && Pid(o, w) == pid && Live(o, w)
  {
    hide *;
    Sizes(o);
    var k, t := o.keySize, o.tagSize;
    var vpn := Shr(addr, o.pageShift);
    ShrBelow(addr, o.pageShift, VADDR_RANGE);
    WholeCut(vpn, k, t);
    CutJoin(w, k, t);
    Unpack(Cut(w, 0, k), Cut(w, k, t), k);
    Unpack(Cut(vpn, 0, k), Cut(vpn, k, t), k);
    HitsIs(o, w, addr, pid);
    CutOf(addr, o.pageShift, k, t);
  }

  lemma WholeCut(x: nat, k: nat, t: nat)
    requires x < Pow2(k + t)
    ensures x == Cut(x, 0, k) + Raise(Cut(x, k, t), k)
  {
    hide Pow2, Wrap, Quot, Raise;
    CutJoin(x, k, t);
    CutAll(x);
    WrapSmall(x, Pow2(k + t));
  }

  /** Bits of a shifted number. */
  lemma CutOf(x: nat, s: nat, k: nat, t: nat)
    ensures Cut(x, s, k) == Cut(Shr(x, s), 0, k) && Cut(x, s + k, t) == Cut(Shr(x, s), k, t)
  {
    hide Pow2, Wrap, Quot, Raise, Shr;
    CutJoin(x, s, k);
    CutAll(Shr(x, s));
  }

  lemma HitsIs(o: TlbOrder, w: nat, addr: nat, pid: nat)
    ensures Hits(o, w, addr, pid) <==>
      && Cut(w, 0, o.keySize) == Cut(addr, o.pageShift, o.keySize)
      && Cut(w, o.keySize, o.tagSize) == Cut(addr, o.pageShift + o.keySize, o.tagSize)
      && Pid(o, w) == pid && Live(o, w)
    ensures Vpn(o, w) == Cut(w, 0, o.keySize + o.tagSize)
  {
  }

  lemma FramesReadBack(o: TlbOrder, host: nat, card: nat)
    requires Usable(o)
    ensures var w := FrameBits(o, host, card);
      && HostFrame(o, w) == Wrap(Shr(host, o.pageShift), Pow2(o.phySize))
      && CardFrame(o, w) == Wrap(Shr(card, o.pageShift), Pow2(o.phySize))
  {
    var n := o.phySize;
    assert o.phyMask == Pow2(n) - 1 && n <= 28;
    AndLow(Shr(host, o.pageShift), n);
    AndLow(Shr(card, o.pageShift), n);
    var a, b := FrameOf(o, host), FrameOf(o, card);
    hide Wrap, Quot, Pow2, Usable, Or, And, Shl, Raise, Shr;
    PackTwo(a, b, n, n + n);
    Unpack(a, b, n);
    WrapSmall(b, Pow2(n));
  }

  /** The second word: the host frame in the low bits, the card frame above it, each cut to 40 - pageShift bits. */
  lemma FramesPacked(o: TlbOrder, host: nat, card: nat)
    requires Usable(o)
    ensures var m, n := Pow2(o.pageShift), Pow2(40 - o.pageShift);
      FrameBits(o, host, card) == host / m % n + card / m % n * n
  {
    var n := o.phySize;
    assert o.phyMask == Pow2(n) - 1 && n <= 28;
    AndLow(Shr(host, o.pageShift), n);
    AndLow(Shr(card, o.pageShift), n);
    hide Pow2, Usable, Or, And, Shl;
    PackTwo(FrameOf(o, host), FrameOf(o, card), n, n + n);
  }

  /** The frames read back in full exactly for physical addresses below 2^40. */
  lemma FramesDecodeIff(o: TlbOrder, host: nat, card: nat)
    requires Usable(o)
    ensures var w := FrameBits(o, host, card);
      HostFrame(o, w) == Shr(host, o.pageShift) && CardFrame(o, w) == Shr(card, o.pageShift)
      <==> host < Pow2(40) && card < Pow2(40)
  {
    hide Wrap, Quot, Pow2, Usable, Shr, FrameBits, Cut;
    Sizes(o);
    FramesReadBack(o, host, card);
    ShrBelow(host, o.pageShift, PADDR_RANGE);
    ShrBelow(card, o.pageShift, PADDR_RANGE);
    FitsIff(Shr(host, o.pageShift), Pow2(o.phySize));
    FitsIff(Shr(card, o.pageShift), Pow2(o.phySize));
  }

  lemma FitsIff(x: nat, m: nat)
    requires m > 0
    ensures Wrap(x, m) == x <==> x < m
  {
    if x < m {
      WrapSmall(x, m);
    }
  }

  /** An unmap entry is the map entry with the valid bit clear, and no lookup hits it. */
  lemma UnmapClearsValid(o: TlbOrder, vaddr: nat, cpid: nat, addr: nat, pid: nat)
    requires Usable(o) && vaddr < Pow2(VADDR_RANGE) && cpid < 64
    ensures EntryBits(o, vaddr, cpid, 1) == EntryBits(o, vaddr, cpid, 0) + Pow2(o.keySize + o.tagSize + PID_SIZE)
    ensures !Hits(o, EntryBits(o, vaddr, cpid, 0), addr, pid)
  {
    hide Wrap, Quot, Pow2, Usable, EntryBits, Cut, Raise, Shr;
    EntryPacked(o, vaddr, cpid, 0);
    EntryPacked(o, vaddr, cpid, 1);
    EntryReadBack(o, vaddr, cpid, 0);
    RaiseAdd(cpid, 0, o.keySize + o.tagSize, PID_SIZE);
    RaiseAdd(cpid, 1, o.keySize + o.tagSize, PID_SIZE);
    RaiseBits(o.keySize + o.tagSize + PID_SIZE);
  }

  lemma RaiseBits(k: nat)
    ensures Raise(0, k) == 0 && Raise(1, k) == Pow2(k)
  {
  }
}
