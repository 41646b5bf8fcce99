/** What the TLB does with the huge page list of a buffer: it translates every address of the buffer
    to the memory behind it, unless the cap on pinned pages cut the buffer short. */
module TlbTranslation {
  import opened Arith
  import opened Bits
  import opened TlbEntries
  import opened TlbMap

  /** Every pinned small page lies in the host frame of its huge page. */
  ghost predicate Backed(o: TlbOrder, p0: nat, pinned: seq<nat>, n: nat, frame: nat -> nat)
    requires PAGE_SHIFT <= o.pageShift
  {
    && n <= |pinned|
    && forall i :: 0 <= i < n ==>
      pinned[i] < Pow2(PADDR_RANGE) && Shr(pinned[i], o.pageShift) == frame(Quot(p0 + i, Ratio(o)))
  }

  /** A map list, and the pinned pages it was made from. */
  datatype Mapping = Mapping(
    o: TlbOrder, start: nat, count: nat, cpid: nat, pinned: seq<nat>, n: nat, frames: Frames, list: seq<nat>)

  ghost predicate Made(m: Mapping) {
    && Usable(m.o) && m.cpid < 64 && m.count > 0 && m.start + m.count <= Pow2(VADDR_RANGE)
    && m.n <= SmallPages(m.start, m.count) && HugePages(m.o, m.start, m.count) < 0x8000_0000
    && HugeFrames(m.o, m.start, m.count, m.pinned, m.n, m.frames.host)
    && MapList(m.o, m.start, m.frames, m.cpid, m.list, |m.frames.host|)
  }

  /** The entry for the page of an address. */
  function EntryIndex(m: Mapping, addr: nat): int {
    Shr(addr, m.o.pageShift) - Shr(m.start, m.o.pageShift)
  }

  predicate InBuffer(m: Mapping, addr: nat) {
    m.start <= addr < m.start + m.count
  }

  /** A lookup of `addr` for the owner hits the entry, and finds the memory behind `addr`. */
  ghost predicate Translates(m: Mapping, addr: nat, frame: nat -> nat) {
    var i := EntryIndex(m, addr);
    && 0 <= i && 2 * i + 1 < |m.list|
    && Hits(m.o, m.list[2 * i], addr, m.cpid)
    && HostAddress(m.o, m.list[2 * i + 1], addr)
       == Raise(frame(Shr(addr, m.o.pageShift)), m.o.pageShift) + Cut(addr, 0, m.o.pageShift)
  }

  ghost predicate TranslatesAll(m: Mapping, frame: nat -> nat) {
    forall addr :: InBuffer(m, addr) ==> Translates(m, addr, frame)
  }

  lemma PageAddressOf(o: TlbOrder, start: nat, i: nat)
    requires Usable(o) && Shr(start, o.pageShift) + i < Pow2(VADDR_RANGE - o.pageShift)
    ensures PageAddress(o, start, i) < Pow2(VADDR_RANGE)
    ensures Shr(PageAddress(o, start, i), o.pageShift) == Shr(start, o.pageShift) + i
  {
    hide Quot, Wrap, Pow2, Usable;
    Sizes(o);
    WrapMultiple(start, i, Pow2(o.pageShift));
    ShrBelow(start + i * o.pageSize, o.pageShift, VADDR_RANGE);
    WrapSmall(start + i * o.pageSize, Pow2(64));
  }

  lemma EntryInRange(m: Mapping, i: nat)
    requires Made(m) && i < |m.frames.host|
    ensures Shr(m.start, m.o.pageShift) + i < Pow2(VADDR_RANGE - m.o.pageShift)
  {
    hide Quot, Wrap, Pow2, Usable, MapList;
    Sizes(m.o);
    ShrBelow(m.start + m.count - 1, m.o.pageShift, VADDR_RANGE);
  }

  lemma ListAt(m: Mapping, i: nat)
    requires Made(m) && i < |m.frames.host|
    ensures 2 * i + 1 < |m.list| && Enough(m.frames, i + 1)
    ensures MapPair(m.o, m.start, m.frames, m.cpid, m.list[2 * i], m.list[2 * i + 1], i)
  {
    hide Quot, Wrap, Pow2, Usable, HugeFrames, MapPair;
  }

  /** Lookups hit an entry of the list exactly for its own page and the owner. */
  lemma OwnPageOnly(m: Mapping, i: nat, addr: nat, pid: nat)
    requires Made(m) && i < |m.frames.host| && addr < Pow2(VADDR_RANGE)
    ensures 2 * i + 1 < |m.list|
    ensures Hits(m.o, m.list[2 * i], addr, pid) <==> EntryIndex(m, addr) == i && pid == m.cpid
  {
    hide Quot, Wrap, Pow2, Usable, HugeFrames, MapList, Hits, EntryBits, Cut, Shr, PageAddress;
    ListAt(m, i);
    EntryInRange(m, i);
    PageAddressOf(m.o, m.start, i);
    EntryReadBack(m.o, PageAddress(m.o, m.start, i), m.cpid, 1);
    HitsIff(m.o, m.list[2 * i], addr, pid);
  }

  /** The frame of an entry: that of its huge page while the pinned pages reach it, else 0. */
  lemma FrameAt(m: Mapping, frame: nat -> nat, i: nat)
    requires Made(m) && i < |m.frames.host| && Backed(m.o, Shr(m.start, PAGE_SHIFT), m.pinned, m.n, frame)
    ensures m.frames.host[i] < Pow2(PADDR_RANGE)
    ensures Shr(m.frames.host[i], m.o.pageShift) ==
      if i < Touched(Shr(m.start, PAGE_SHIFT), Ratio(m.o), m.n) then frame(Shr(m.start, m.o.pageShift) + i) else 0
  {
    hide Quot, Wrap, Pow2, Usable, MapList, Touched, FirstSmall, Raise, Kept;
    Sizes(m.o);
    var p0, r := Shr(m.start, PAGE_SHIFT), Ratio(m.o);
    BufferPages(m.o, m.start, m.count, m.n);
    KeptIs(m.o, m.start, m.n);
    NotTop(m.o, m.start);
    if i < Touched(p0, r, m.n) {
      var p := FirstSmall(p0, r, i);
      QuotFirst(p0, r, i);
      Pow2Mono(PADDR_RANGE, 64);
      PageOfExact(m.o, m.pinned[p - p0]);
      Aligned(m.pinned[p - p0], m.o.pageShift);
    } else {
      WrapSmall(0, Pow2(m.o.pageShift));
    }
  }

  lemma Aligned(x: nat, k: nat)
    ensures Raise(Shr(x, k), k) <= x && Shr(Raise(Shr(x, k), k), k) == Shr(x, k)
  {
    hide Quot, Wrap, Pow2;
    QuotWrap(x, Pow2(k));
    DivModUnique(Pow2(k), Shr(x, k), 0);
  }

  lemma HostFrameAt(m: Mapping, frame: nat -> nat, i: nat)
    requires Made(m) && i < |m.frames.host| && Backed(m.o, Shr(m.start, PAGE_SHIFT), m.pinned, m.n, frame)
    ensures 2 * i + 1 < |m.list| && HostFrame(m.o, m.list[2 * i + 1]) == Shr(m.frames.host[i], m.o.pageShift)
  {
    hide Quot, Wrap, Pow2, Usable, HugeFrames, MapList, EntryBits, FrameBits, Shr, PageAddress, Backed, HostFrame;
    Sizes(m.o);
    ListAt(m, i);
    FrameAt(m, frame, i);
    FramesReadBack(m.o, m.frames.host[i], CardAt(m.frames, i));
    ShrBelow(m.frames.host[i], m.o.pageShift, PADDR_RANGE);
    WrapSmall(Shr(m.frames.host[i], m.o.pageShift), Pow2(m.o.phySize));
  }

  lemma AddressIndex(m: Mapping, addr: nat)
    requires Made(m) && InBuffer(m, addr)
    ensures addr < Pow2(VADDR_RANGE) && 0 <= EntryIndex(m, addr) < |m.frames.host|
  {
    hide Quot, Wrap, Pow2, Usable, MapList;
    ShrMono(m.start, addr, m.o.pageShift);
    ShrMono(addr, m.start + m.count - 1, m.o.pageShift);
  }

  /** An address translates exactly when the pinned pages reach its huge page. */
  lemma TranslatesIff(m: Mapping, addr: nat, frame: nat -> nat)
    requires Made(m) && InBuffer(m, addr) && Backed(m.o, Shr(m.start, PAGE_SHIFT), m.pinned, m.n, frame)
    requires frame(Shr(addr, m.o.pageShift)) > 0
    ensures Translates(m, addr, frame) <==> EntryIndex(m, addr) < Touched(Shr(m.start, PAGE_SHIFT), Ratio(m.o), m.n)
  {
    hide Quot, Wrap, Pow2, Made, Hits, Shr, Touched, Cut, Backed, HostFrame, Ratio, InBuffer;
    AddressIndex(m, addr);
    var i := EntryIndex(m, addr);
    OwnPageOnly(m, i, addr, m.cpid);
    FrameAt(m, frame, i);
    HostFrameAt(m, frame, i);
    RaiseZeroIff(frame(Shr(addr, m.o.pageShift)), m.o.pageShift);
  }

  lemma RaiseZeroIff(x: nat, k: nat)
    ensures Raise(x, k) == 0 <==> x == 0
    ensures Raise(0, k) == 0
  {
  }

  /** The first `n` small pages of the buffer reach into its last huge page. */
  predicate Reaches(o: TlbOrder, start: nat, count: nat, n: int)
    requires PAGE_SHIFT <= o.pageShift && start + count > 0
  {
    n > 0 && Quot(Shr(start, PAGE_SHIFT) + n - 1, Ratio(o)) == Shr(start + count - 1, o.pageShift)
  }

  /** The list translates the whole buffer exactly when the last pinned page lies in its last huge
      page; in particular when the cap on pinned pages does not apply. */
  lemma WholeBufferIff(m: Mapping, frame: nat -> nat)
    requires Made(m) && Backed(m.o, Shr(m.start, PAGE_SHIFT), m.pinned, m.n, frame)
    requires forall v :: frame(v) > 0
    ensures PAGE_SHIFT <= m.o.pageShift && m.start + m.count > 0
    ensures TranslatesAll(m, frame) <==> Reaches(m.o, m.start, m.count, m.n)
    ensures m.n == SmallPages(m.start, m.count) ==> TranslatesAll(m, frame)
  {
    assert PAGE_SHIFT <= m.o.pageShift;
    hide *;
    Reach(m);
    UpTo(m, frame, Touched(Shr(m.start, PAGE_SHIFT), Ratio(m.o), m.n));
  }

  lemma UpTo(m: Mapping, frame: nat -> nat, j: nat)
    requires Made(m) && Backed(m.o, Shr(m.start, PAGE_SHIFT), m.pinned, m.n, frame)
    requires forall v :: frame(v) > 0
    requires j == Touched(Shr(m.start, PAGE_SHIFT), Ratio(m.o), m.n)
    ensures m.start + m.count > 0
    ensures TranslatesAll(m, frame) <==> EntryIndex(m, m.start + m.count - 1) < j
  {
    assert m.count > 0;
    hide *;
    forall addr | InBuffer(m, addr) ensures Within(m, frame, j, addr) {
      TranslatesIff(m, addr, frame);
      EntryIndexMono(m, addr);
      MakeWithin(m, frame, j, addr);
    }
    NonEmpty(m);
    LastDecides(m, frame, j);
  }

  /** An address translates exactly below huge page `j`, and lies no further than the last one. */
  ghost predicate Within(m: Mapping, frame: nat -> nat, j: nat, addr: nat)
    requires m.start + m.count > 0
  {
    && (Translates(m, addr, frame) <==> EntryIndex(m, addr) < j)
    && EntryIndex(m, addr) <= EntryIndex(m, m.start + m.count - 1)
  }

  lemma MakeWithin(m: Mapping, frame: nat -> nat, j: nat, addr: nat)
    requires m.start + m.count > 0
    requires Translates(m, addr, frame) <==> EntryIndex(m, addr) < j
    requires EntryIndex(m, addr) <= EntryIndex(m, m.start + m.count - 1)
    ensures Within(m, frame, j, addr)
  {
  }

  lemma NonEmpty(m: Mapping)
    requires m.count > 0
    ensures InBuffer(m, m.start + m.count - 1)
  {
  }

  lemma LastDecides(m: Mapping, frame: nat -> nat, j: nat)
    requires m.start + m.count > 0 && InBuffer(m, m.start + m.count - 1)
    requires forall addr :: InBuffer(m, addr) ==> Within(m, frame, j, addr)
    ensures TranslatesAll(m, frame) <==> EntryIndex(m, m.start + m.count - 1) < j
  {
    hide InBuffer, Translates, EntryIndex;
  }

  lemma EntryIndexMono(m: Mapping, addr: nat)
    requires InBuffer(m, addr)
    ensures EntryIndex(m, addr) <= EntryIndex(m, m.start + m.count - 1)
  {
    ShrMono(addr, m.start + m.count - 1, m.o.pageShift);
  }

  /** How far the pinned pages reach. */
  lemma Reach(m: Mapping)
    requires Made(m)
    ensures m.start + m.count > 0
    ensures EntryIndex(m, m.start + m.count - 1) < Touched(Shr(m.start, PAGE_SHIFT), Ratio(m.o), m.n) <==>
      Reaches(m.o, m.start, m.count, m.n)
    ensures m.n == SmallPages(m.start, m.count) ==> Reaches(m.o, m.start, m.count, m.n)
  {
    hide Quot, Wrap, Pow2, Usable, MapList, HugeFrames;
    Sizes(m.o);
    BufferPages(m.o, m.start, m.count, m.n);
    ShrMono(m.start, m.start + m.count - 1, m.o.pageShift);
    ShrMono(m.start, m.start + m.count - 1, PAGE_SHIFT);
    if m.n > 0 {
      QuotMono(Shr(m.start, PAGE_SHIFT), m.n - 1, Ratio(m.o));
    }
  }

  /** The cap does not apply to buffers of at most 8192 small pages. */
  lemma UnderCap(m: Mapping, frame: nat -> nat)
    requires Made(m) && Backed(m.o, Shr(m.start, PAGE_SHIFT), m.pinned, m.n, frame)
    requires forall v :: frame(v) > 0
    requires m.n == PinCount(m.start, m.count) && SmallPages(m.start, m.count) <= MAX_N_MAP_HUGE_PAGES
    ensures TranslatesAll(m, frame)
  {
    hide *;
    HasPages(m);
    Uncapped(m.start, m.count);
    WholeBufferIff(m, frame);
  }

  lemma HasPages(m: Mapping)
    requires Made(m)
    ensures m.count > 0
  {
  }

  lemma Uncapped(start: nat, count: nat)
    requires count > 0 && SmallPages(start, count) <= MAX_N_MAP_HUGE_PAGES
    ensures PinCount(start, count) == SmallPages(start, count)
  {
    hide SmallPages;
  }

  /** `frame` tells the host frame, never number 0, behind every huge page of the buffer. */
  ghost predicate Behind(m: Mapping, frame: nat -> nat) {
    PAGE_SHIFT <= m.o.pageShift && (forall v :: frame(v) > 0)
      && Backed(m.o, Shr(m.start, PAGE_SHIFT), m.pinned, m.n, frame)
  }

  lemma BehindIs(m: Mapping, frame: nat -> nat)
    requires Behind(m, frame)
    ensures PAGE_SHIFT <= m.o.pageShift && (forall v :: frame(v) > 0)
    ensures Backed(m.o, Shr(m.start, PAGE_SHIFT), m.pinned, m.n, frame)
  {
  }

  const HUGE_SHIFT: nat := 21
  const HUGE_SIZE: nat := 0x20_0000

  lemma HugePowers()
    ensures Pow2(HUGE_SHIFT) == HUGE_SIZE && Pow2(HUGE_SHIFT - PAGE_SHIFT) == 512 && Pow2(PAGE_SHIFT) == PAGE_SIZE
  {
    assert Pow2(9) == 512 && Pow2(12) == 4096;
    Pow2Sum(9, 12);
  }

  /** Pages of an aligned buffer with huge pages of 2 MB. */
  lemma AlignedPages(o: TlbOrder, v: nat, count: nat, n: nat)
    requires o.pageShift == HUGE_SHIFT && count > 0 && n > 0
    ensures var start := v * HUGE_SIZE;
      && (Reaches(o, start, count, n) <==> (n - 1) / 512 == (count - 1) / HUGE_SIZE)
      && SmallPages(start, count) == (count - 1) / PAGE_SIZE + 1
  {
    HugePowers();
    hide Pow2, Quot, Wrap;
    assert v * HUGE_SIZE == (v * 512) * PAGE_SIZE;
    WrapMultiple(0, v * 512, PAGE_SIZE);
    WrapMultiple(count - 1, v * 512, PAGE_SIZE);
    WrapMultiple(n - 1, v, 512);
    WrapMultiple(count - 1, v, HUGE_SIZE);
    Quotients(count - 1, n - 1);
  }

  lemma Quotients(x: nat, y: nat)
    ensures Quot(0, PAGE_SIZE) == 0 && Quot(x, PAGE_SIZE) == x / PAGE_SIZE
    ensures Quot(x, HUGE_SIZE) == x / HUGE_SIZE && Quot(y, 512) == y / 512
  {
  }

  /** Huge pages of 2 MB at an aligned address: the cap pins 16 of them, so a buffer that is any
      longer is not translated as a whole. */
  lemma CapCutsShort(m: Mapping, frame: nat -> nat, v: nat)
    requires Made(m) && Behind(m, frame) && m.n == PinCount(m.start, m.count)
    requires m.o.pageShift == HUGE_SHIFT && m.start == v * HUGE_SIZE
    requires 16 * HUGE_SIZE < m.count <= 0x7FFF_FFFF * PAGE_SIZE
    ensures !TranslatesAll(m, frame)
  {
    CappedAt(m.start, m.count, v);
    assert !Reaches(m.o, m.start, m.count, m.n) by {
      hide *;
      AlignedPages(m.o, v, m.count, MAX_N_MAP_HUGE_PAGES);
      PastCap(m.count);
    }
    hide *;
    BehindIs(m, frame);
    WholeBufferIff(m, frame);
  }

  lemma PastCap(count: nat)
    requires 16 * HUGE_SIZE < count
    ensures MAX_N_MAP_HUGE_PAGES > 0 && (MAX_N_MAP_HUGE_PAGES - 1) / 512 != (count - 1) / HUGE_SIZE
  {
  }

  lemma CappedAt(start: nat, count: nat, v: nat)
    requires start == v * HUGE_SIZE && 16 * HUGE_SIZE < count <= 0x7FFF_FFFF * PAGE_SIZE
    ensures PinCount(start, count) == MAX_N_MAP_HUGE_PAGES
  {
    AlignedPages(Configured(true, HUGE_SHIFT, 0), v, count, 1);
    hide SmallPages;
    var n := SmallPages(start, count);
    assert MAX_N_MAP_HUGE_PAGES < n < 0x8000_0000;
  }

  /** The number of pages wraps in 32 bits: of a buffer of 2^32 + 1 small pages only one is pinned. */
  lemma WrapCutsShort(m: Mapping, frame: nat -> nat, v: nat)
    requires Made(m) && Behind(m, frame) && m.n == PinCount(m.start, m.count)
    requires m.o.pageShift == HUGE_SHIFT && m.start == v * HUGE_SIZE && m.count == 0x1_0000_0001 * PAGE_SIZE
    ensures m.n == 1 && !TranslatesAll(m, frame)
  {
    OnePinned(m.start, m.count, v);
    assert !Reaches(m.o, m.start, m.count, 1) by { AlignedPages(m.o, v, m.count, 1); }
    hide *;
    BehindIs(m, frame);
    WholeBufferIff(m, frame);
  }

  lemma OnePinned(start: nat, count: nat, v: nat)
    requires start == v * HUGE_SIZE && count == 0x1_0000_0001 * PAGE_SIZE
    ensures PinCount(start, count) == 1
  {
    AlignedPages(Configured(true, HUGE_SHIFT, 0), v, count, 1);
    hide SmallPages;
    assert ToInt32(SmallPages(start, count)) == 1;
  }

  /** What an entry can hold: 48-bit addresses and cpids below 64; and a number of huge pages that does not wrap. */
  predicate Mappable(o: TlbOrder, start: nat, count: nat, cpid: nat) {
    cpid < 64 && count > 0 && start + count <= Pow2(VADDR_RANGE) && HugePages(o, start, count) < 0x8000_0000
  }

  lemma MappableIs(o: TlbOrder, start: nat, count: nat, cpid: nat)
    requires Mappable(o, start, count, cpid)
    ensures cpid < 64 && count > 0 && start + count <= Pow2(VADDR_RANGE) && HugePages(o, start, count) < 0x8000_0000
  {
  }

  /** What the huge page branch returns for a cpid below 64 and 48-bit addresses is a list as above;
      so whenever the pinned pages lie in the frames of their huge pages, the whole buffer is
      translated if and only if the pages to be pinned reach into its last huge page. */
  method MapBuffer(o: TlbOrder, start: nat, count: nat, cpid: nat, pinned: seq<nat>, card: seq<nat>, enMem: bool)
    returns (ret: int, list: array<nat>, ghost m: Mapping)
    requires Usable(o) && start < Pow2(64)
    requires count > 0 && start + count < Pow2(64) ==> FramesFit(o, start, count)
    ensures Mappable(o, start, count, cpid) ==>
      (ret >= 0 <==> 0 <= PinCount(start, count) <= |pinned| && (enMem ==> HugePages(o, start, count) <= |card|))
    ensures ret >= 0 && Mappable(o, start, count, cpid) ==>
      && Made(m) && m.list == list[..] && m.pinned == pinned && m.n == ret == PinCount(start, count)
      && m.o == o && m.start == start && m.count == count && m.cpid == cpid
      && m.frames.card == card && m.frames.enMem == enMem
      && forall frame: nat -> nat :: Behind(m, frame) ==>
           (TranslatesAll(m, frame) <==> Reaches(o, start, count, PinCount(start, count)))
  {
    ghost var frames;
    Powers();
    assert PAGE_SHIFT <= o.pageShift;
    hide *;
    ret, list, frames := MapHuge(o, start, count, cpid, pinned, card, enMem);
    m := Mapping(o, start, count, cpid, pinned, if ret >= 0 then ret else 0, Frames(frames, card, enMem), list[..]);
    if Mappable(o, start, count, cpid) {
      MappableIs(o, start, count, cpid);
      NoWrap(o, start, count);
    }
    if ret >= 0 && Mappable(o, start, count, cpid) {
      MadeNow(m, ret);
      forall frame: nat -> nat | Behind(m, frame)
        ensures TranslatesAll(m, frame) <==> Reaches(o, start, count, PinCount(start, count))
      {
        BehindIs(m, frame);
        WholeBufferIff(m, frame);
      }
    }
  }

  lemma NoWrap(o: TlbOrder, start: nat, count: nat)
    requires count > 0 && start + count <= Pow2(VADDR_RANGE) && HugePages(o, start, count) < 0x8000_0000
    ensures start + count < Pow2(64) && HugeCount(o, start, count) == HugePages(o, start, count)
  {
    hide Pow2, HugePages;
    Powers();
  }

  lemma MadeNow(m: Mapping, ret: int)
    requires Usable(m.o) && m.cpid < 64 && m.count > 0 && m.start + m.count <= Pow2(VADDR_RANGE)
    requires HugePages(m.o, m.start, m.count) < 0x8000_0000
    requires ret == PinCount(m.start, m.count) && ret == m.n
    requires HugeFrames(m.o, m.start, m.count, m.pinned, m.n, m.frames.host)
    requires MapList(m.o, m.start, m.frames, m.cpid, m.list, |m.frames.host|)
    ensures Made(m) && m.n == PinCount(m.start, m.count)
  {
    hide Pow2, Usable, HugeFrames, MapList, PinCount, SmallPages;
    Powers();
    PinCountBounds(m.start, m.count);
  }
}
