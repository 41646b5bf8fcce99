/** The card memory behind the huge pages of a buffer: which card byte the TLB makes of an address when
    the card pages come from card_alloc. */
module TlbCard {
  import opened Arith
  import opened Bits
  import opened Options
  import opened FreeLists
  import opened Errno
  import opened CardMemory
  import opened TlbEntries
  import opened TlbMap
  import opened TlbTranslation

  /** Card chunks have 2^21 bytes. */
  const CHUNK_SHIFT: nat := 21

  /** The card address behind `addr`: the frame, and the page offset. */
  function CardAddress(o: TlbOrder, w: nat, addr: nat): nat {
    Raise(CardFrame(o, w), o.pageShift) + Cut(addr, 0, o.pageShift)
  }

  /** The list was made with the card pages of the chunks `ids`. */
  ghost predicate OnCard(m: Mapping, ids: seq<nat>) {
    && Made(m) && m.frames.enMem && |m.frames.host| <= |ids| && |m.frames.host| <= |m.frames.card|
    && forall i :: 0 <= i < |m.frames.host| ==>
         ids[i] < N_LARGE_CHUNKS && m.frames.card[i] == Address(true, ids[i])
  }

  /** The first byte of the card page, as far as the entry holds it. */
  function CardPage(o: TlbOrder, id: nat): nat {
    Raise(Shr(Address(true, id), o.pageShift), o.pageShift)
  }

  lemma AddressBelow(id: nat)
    requires id < N_LARGE_CHUNKS
    ensures Address(true, id) == (id + N_LARGE_CHUNKS) * LARGE_PAGE < Pow2(PADDR_RANGE)
    ensures Pow2(CHUNK_SHIFT) == LARGE_PAGE
  {
    AddressExact(true, id);
    assert Pow2(12) == 4096 && Pow2(10) == 1024;
    Pow2Sum(12, 9);
    Pow2Sum(21, 19);
    assert Pow2(9) == 512;
    assert Pow2(19) == 512 * 1024 by { Pow2Sum(9, 10); }
  }

  /** Whether or not its host page is pinned, every address of the buffer reaches the card page of its huge page. */
  lemma CardAddressAt(m: Mapping, ids: seq<nat>, addr: nat)
    requires OnCard(m, ids) && InBuffer(m, addr)
    ensures 0 <= EntryIndex(m, addr) < |m.frames.host| && 2 * EntryIndex(m, addr) + 1 < |m.list|
    ensures Hits(m.o, m.list[2 * EntryIndex(m, addr)], addr, m.cpid)
    ensures CardAddress(m.o, m.list[2 * EntryIndex(m, addr) + 1], addr) ==
      CardPage(m.o, ids[EntryIndex(m, addr)]) + Cut(addr, 0, m.o.pageShift)
  {
    hide *;
    IsMade(m, ids);
    AddressIndex(m, addr);
    var i := EntryIndex(m, addr);
    OnCardAt(m, ids, i);
    OwnPageOnly(m, i, addr, m.cpid);
    CardFrameAt(m, ids, i);
    CardAddressIs(m.o, m.list[2 * i + 1], addr, ids[i]);
  }

  lemma IsMade(m: Mapping, ids: seq<nat>)
    requires OnCard(m, ids)
    ensures Made(m) && |m.frames.host| <= |ids| && Usable(m.o)
  {
  }

  lemma OnCardAt(m: Mapping, ids: seq<nat>, i: nat)
    requires OnCard(m, ids) && i < |m.frames.host|
    ensures Made(m) && Usable(m.o) && m.frames.enMem && i < |ids| && i < |m.frames.card|
    ensures ids[i] < N_LARGE_CHUNKS && m.frames.card[i] == Address(true, ids[i])
  {
  }

  lemma CardAddressIs(o: TlbOrder, w: nat, addr: nat, id: nat)
    requires CardFrame(o, w) == Shr(Address(true, id), o.pageShift)
    ensures CardAddress(o, w, addr) == CardPage(o, id) + Cut(addr, 0, o.pageShift)
  {
  }

  lemma CardFrameAt(m: Mapping, ids: seq<nat>, i: nat)
    requires OnCard(m, ids) && i < |m.frames.host|
    ensures 2 * i + 1 < |m.list| && i < |ids|
    ensures CardFrame(m.o, m.list[2 * i + 1]) == Shr(Address(true, ids[i]), m.o.pageShift)
  {
    hide *;
    OnCardAt(m, ids, i);
    Sizes(m.o);
    ListAt(m, i);
    PairIs(m, i);
    AddressBelow(ids[i]);
    FramesReadBack(m.o, m.frames.host[i], m.frames.card[i]);
    ShrBelow(Address(true, ids[i]), m.o.pageShift, PADDR_RANGE);
    WrapSmall(Shr(Address(true, ids[i]), m.o.pageShift), Pow2(m.o.phySize));
  }

  lemma PairIs(m: Mapping, i: nat)
    requires Enough(m.frames, i + 1) && m.frames.enMem && 2 * i + 1 < |m.list|
    requires MapPair(m.o, m.start, m.frames, m.cpid, m.list[2 * i], m.list[2 * i + 1], i)
    ensures i < |m.frames.card| && m.list[2 * i + 1] == FrameBits(m.o, m.frames.host[i], m.frames.card[i])
  {
  }

  // ----- Which pages stay apart -----

  /** Up to 2 MB an entry holds the whole address of a chunk. */
  lemma CardPageWhole(o: TlbOrder, id: nat)
    requires id < N_LARGE_CHUNKS && o.pageShift <= CHUNK_SHIFT
    ensures CardPage(o, id) == Address(true, id) && Pow2(o.pageShift) <= LARGE_PAGE
  {
    hide *;
    var k := o.pageShift;
    AddressBelow(id);
    Pow2Sum(CHUNK_SHIFT - k, k);
    Pow2Mono(k, CHUNK_SHIFT);
    Multiple(id + N_LARGE_CHUNKS, Pow2(CHUNK_SHIFT - k), k);
    CardPageIs(o, id);
  }

  lemma CardPageIs(o: TlbOrder, id: nat)
    ensures CardPage(o, id) == Raise(Shr(Address(true, id), o.pageShift), o.pageShift)
  {
  }

  /** A multiple of 2^k has nothing below bit k. */
  lemma Multiple(a: nat, b: nat, k: nat)
    ensures Raise(Shr(a * (b * Pow2(k)), k), k) == a * (b * Pow2(k))
  {
    hide Pow2, Quot;
    assert a * (b * Pow2(k)) == (a * b) * Pow2(k);
    DivModUnique(Pow2(k), a * b, 0);
  }

  /** No byte of the page of chunk `a` is one of chunk `b`. */
  predicate Separate(o: TlbOrder, a: nat, b: nat) {
    || CardPage(o, a) + Pow2(o.pageShift) <= CardPage(o, b)
    || CardPage(o, b) + Pow2(o.pageShift) <= CardPage(o, a)
  }

  lemma ChunksSeparate(o: TlbOrder, a: nat, b: nat)
    requires a < N_LARGE_CHUNKS && b < N_LARGE_CHUNKS && a != b && o.pageShift <= CHUNK_SHIFT
    ensures Separate(o, a, b)
  {
    CardPageWhole(o, a);
    CardPageWhole(o, b);
    PagesApart(true, a, true, b);
    hide CardPage, Address, Pow2;
  }

  /** Above 2 MB the pages of the first two chunks are one. */
  lemma FirstTwoShare(o: TlbOrder)
    requires CHUNK_SHIFT < o.pageShift <= 30
    ensures CardPage(o, 0) == CardPage(o, 1)
  {
    hide *;
    var k := o.pageShift;
    FirstTwo();
    Pow2Sum(30 - k, k);
    Pow2Sum(CHUNK_SHIFT, 9);
    Pow2Below(k);
    SameFrame(Pow2(30 - k), Pow2(k));
    CardPageIs(o, 0);
    CardPageIs(o, 1);
    ShrIs(Address(true, 0), k);
    ShrIs(Address(true, 1), k);
  }

  lemma FirstTwo()
    ensures Address(true, 0) == 512 * LARGE_PAGE && Address(true, 1) == 513 * LARGE_PAGE
    ensures Pow2(CHUNK_SHIFT) == LARGE_PAGE && CHUNK_SHIFT + 9 == 30
  {
    AddressBelow(0);
    AddressBelow(1);
  }

  lemma Pow2Below(k: nat)
    requires CHUNK_SHIFT < k
    ensures LARGE_PAGE < Pow2(k) && Pow2(9) == 512
  {
    assert Pow2(12) == 4096 && Pow2(9) == 512;
    Pow2Sum(12, 9);
    Pow2Mono(CHUNK_SHIFT, k);
  }

  lemma ShrIs(x: nat, k: nat)
    ensures Shr(x, k) == Quot(x, Pow2(k))
  {
  }

  lemma SameFrame(q: nat, m: nat)
    requires q * m == 512 * LARGE_PAGE && LARGE_PAGE < m
    ensures Quot(512 * LARGE_PAGE, m) == Quot(513 * LARGE_PAGE, m)
  {
    hide Quot;
    DivModUnique(m, q, 0);
    DivModUnique(m, q, LARGE_PAGE);
  }

  /** The card pages of different chunks stay apart if and only if huge pages are no larger than chunks. */
  lemma SeparateIff(o: TlbOrder)
    requires Usable(o)
    ensures (forall a, b :: 0 <= a < b < N_LARGE_CHUNKS ==> Separate(o, a, b)) <==> o.pageShift <= CHUNK_SHIFT
  {
    if o.pageShift <= CHUNK_SHIFT {
      forall a, b | 0 <= a < b < N_LARGE_CHUNKS ensures Separate(o, a, b) {
        ChunksSeparate(o, a, b);
      }
    } else {
      FirstTwoShare(o);
      NotSeparate(o, 0, 1);
    }
  }

  lemma NotSeparate(o: TlbOrder, a: nat, b: nat)
    requires CardPage(o, a) == CardPage(o, b)
    ensures !Separate(o, a, b)
  {
    hide CardPage;
  }

  ghost predicate Distinct(ids: seq<nat>) {
    forall i, j :: 0 <= i < j < |ids| ==> ids[i] != ids[j]
  }

  /** Two addresses of a buffer never share a card byte, as long as huge pages are no larger than chunks. */
  lemma CardInjective(m: Mapping, ids: seq<nat>, addr: nat, other: nat)
    requires OnCard(m, ids) && Distinct(ids) && m.o.pageShift <= CHUNK_SHIFT
    requires InBuffer(m, addr) && InBuffer(m, other) && addr != other
    ensures var i, j := EntryIndex(m, addr), EntryIndex(m, other);
      && 0 <= i && 2 * i + 1 < |m.list| && 0 <= j && 2 * j + 1 < |m.list|
      && CardAddress(m.o, m.list[2 * i + 1], addr) != CardAddress(m.o, m.list[2 * j + 1], other)
  {
    hide *;
    CardAddressAt(m, ids, addr);
    CardAddressAt(m, ids, other);
    var i, j := EntryIndex(m, addr), EntryIndex(m, other);
    OnCardAt(m, ids, i);
    OnCardAt(m, ids, j);
    if i != j {
      DistinctAt(ids, i, j);
      ChunksSeparate(m.o, ids[i], ids[j]);
      SeparateAt(m.o, ids[i], ids[j], Cut(addr, 0, m.o.pageShift), Cut(other, 0, m.o.pageShift));
    } else {
      SamePage(m, addr, other);
    }
  }

  lemma DistinctAt(ids: seq<nat>, i: nat, j: nat)
    requires Distinct(ids) && i < |ids| && j < |ids| && i != j
    ensures ids[i] != ids[j]
  {
  }

  lemma SeparateAt(o: TlbOrder, a: nat, b: nat, x: nat, y: nat)
    requires Separate(o, a, b) && x < Pow2(o.pageShift) && y < Pow2(o.pageShift)
    ensures CardPage(o, a) + x != CardPage(o, b) + y
  {
    hide CardPage, Pow2;
  }

  /** Addresses of one huge page differ in their offsets. */
  lemma SamePage(m: Mapping, addr: nat, other: nat)
    requires EntryIndex(m, addr) == EntryIndex(m, other) && addr != other
    ensures Cut(addr, 0, m.o.pageShift) != Cut(other, 0, m.o.pageShift)
  {
    hide Quot, Wrap, Pow2;
    QuotWrap(addr, Pow2(m.o.pageShift));
    QuotWrap(other, Pow2(m.o.pageShift));
    CutZero(addr, m.o.pageShift);
    CutZero(other, m.o.pageShift);
  }

  lemma CutZero(x: nat, k: nat)
    ensures Cut(x, 0, k) == Wrap(x, Pow2(k))
  {
    assert Pow2(0) == 1;
    assert Quot(x, 1) == x;
  }

  /** With larger huge pages, the buffer first mapped on a fresh card finds its second huge page on the card
      memory of its first. */
  lemma CardShared(m: Mapping, ids: seq<nat>, addr: nat)
    requires OnCard(m, ids) && m.o.pageShift > CHUNK_SHIFT && |ids| >= 2 && ids[0] == 0 && ids[1] == 1
    requires InBuffer(m, addr) && EntryIndex(m, addr) == 0 && InBuffer(m, addr + Pow2(m.o.pageShift))
    ensures EntryIndex(m, addr + Pow2(m.o.pageShift)) == 1 && 3 < |m.list|
    ensures CardAddress(m.o, m.list[3], addr + Pow2(m.o.pageShift)) == CardAddress(m.o, m.list[1], addr)
  {
    hide *;
    IsMade(m, ids);
    NextPage(m, addr);
    Sizes(m.o);
    CardAddressAt(m, ids, addr);
    CardAddressAt(m, ids, addr + Pow2(m.o.pageShift));
    FirstTwoShare(m.o);
  }

  lemma NextPage(m: Mapping, addr: nat)
    ensures EntryIndex(m, addr + Pow2(m.o.pageShift)) == EntryIndex(m, addr) + 1
    ensures Cut(addr + Pow2(m.o.pageShift), 0, m.o.pageShift) == Cut(addr, 0, m.o.pageShift)
  {
    hide Quot, Wrap, Pow2;
    WrapMultiple(addr, 1, Pow2(m.o.pageShift));
    CutZero(addr, m.o.pageShift);
    CutZero(addr + Pow2(m.o.pageShift), m.o.pageShift);
  }

  /** Nor do addresses of two buffers whose chunks are different ones. */
  lemma CardApart(m: Mapping, ids: seq<nat>, addr: nat, m': Mapping, ids': seq<nat>, addr': nat)
    requires OnCard(m, ids) && OnCard(m', ids') && Elements(ids) !! Elements(ids') && m.o == m'.o
    requires m.o.pageShift <= CHUNK_SHIFT && InBuffer(m, addr) && InBuffer(m', addr')
    ensures var i, j := EntryIndex(m, addr), EntryIndex(m', addr');
      && 0 <= i && 2 * i + 1 < |m.list| && 0 <= j && 2 * j + 1 < |m'.list|
      && CardAddress(m.o, m.list[2 * i + 1], addr) != CardAddress(m'.o, m'.list[2 * j + 1], addr')
  {
    hide *;
    CardAddressAt(m, ids, addr);
    CardAddressAt(m', ids', addr');
    var i, j := EntryIndex(m, addr), EntryIndex(m', addr');
    OnCardAt(m, ids, i);
    OnCardAt(m', ids', j);
    IsMade(m, ids);
    IsMade(m', ids');
    ApartAt(ids, i, ids', j);
    ChunksSeparate(m.o, ids[i], ids'[j]);
    SeparateAt(m.o, ids[i], ids'[j], Cut(addr, 0, m.o.pageShift), Cut(addr', 0, m.o.pageShift));
  }

  lemma ApartAt(ids: seq<nat>, i: nat, ids': seq<nat>, j: nat)
    requires Elements(ids) !! Elements(ids') && i < |ids| && j < |ids'|
    ensures ids[i] != ids'[j]
  {
    assert ids[i] in Elements(ids) && ids'[j] in Elements(ids');
  }

  // ----- With card_alloc -----

  /** Mapping a buffer with card memory: its huge pages get the first free chunks, each its own, and none that another
      buffer holds. */
  method MapOnCard(o: TlbOrder, start: nat, count: nat, cpid: nat, pinned: seq<nat>, pages: CardPool)
    returns (ret: int, list: array<nat>, ghost m: Mapping, ghost ids: seq<nat>)
    requires Usable(o) && Mappable(o, start, count, cpid) && pages.Valid() && pages.large
    requires HugePages(o, start, count) < |pages.pool.free|
    modifies pages.pool, pages.pool.chunks
    ensures pages.Valid()
    ensures PinCount(start, count) < 0 || PinCount(start, count) > |pinned| ==>
      && ret == (if PinCount(start, count) < 0 then -1 else -12)
      && pages.pool.free == old(pages.pool.free) && pages.pool.live == old(pages.pool.live)
    ensures 0 <= PinCount(start, count) <= |pinned| ==>
      && ret == PinCount(start, count)
      && OnCard(m, ids) && m.list == list[..] && m.o == o && m.start == start && m.count == count && m.cpid == cpid
      && ids == old(pages.pool.free)[..HugePages(o, start, count)]
      && Distinct(ids) && Elements(ids) !! old(pages.pool.live)
      && pages.pool.free == old(pages.pool.free)[|ids|..] && pages.pool.live == old(pages.pool.live) + Elements(ids)
  {
    hide *;
    MappableFits(o, start, count, cpid);
    var n := HugePages(o, start, count);
    ids := pages.pool.free[..n];
    TakenIds(pages, n);
    WithinCount(pages, n);
    pages.ValidLinked();
    var cardPaddr := new nat[n];
    var nPages := PinCount(start, count);
    if nPages < 0 || |pinned| < nPages {
      list := new nat[0];
      m := Mapping(o, start, count, cpid, pinned, 0, Frames([], [], true), []);
      return if nPages < 0 then -1 else -ENOMEM, list, m, ids;
    }
    var r := pages.Alloc(cardPaddr, n);
    ret, list, m := MapBuffer(o, start, count, cpid, pinned, cardPaddr[..], true);
    MakeOnCard(m, ids);
    DistinctIs(ids);
  }

  lemma MappableFits(o: TlbOrder, start: nat, count: nat, cpid: nat)
    requires Usable(o) && Mappable(o, start, count, cpid)
    ensures PAGE_SHIFT <= o.pageShift && start < Pow2(64) && count > 0 && FramesFit(o, start, count)
  {
    hide *;
    MappableIs(o, start, count, cpid);
    Sizes(o);
    Powers();
    FramesFitUnwrapped(o, start, count);
  }

  lemma WithinCount(pages: CardPool, n: nat)
    requires pages.Valid() && n < |pages.pool.free|
    ensures n <= pages.numFree && ENOMEM == 12 && ChunkCount(true) == N_LARGE_CHUNKS && pages.Sized()
  {
    FreeAtMost(pages.pool.chunks.Length, pages.pool.free, pages.pool.live);
  }

  lemma DistinctIs(ids: seq<nat>)
    requires NoDuplicates(ids)
    ensures Distinct(ids)
  {
  }

  lemma MakeOnCard(m: Mapping, ids: seq<nat>)
    requires Made(m) && m.frames.enMem && |ids| == HugePages(m.o, m.start, m.count) <= |m.frames.card|
    requires forall i :: 0 <= i < |ids| ==> ids[i] < N_LARGE_CHUNKS && m.frames.card[i] == Address(true, ids[i])
    ensures OnCard(m, ids)
  {
    hide Address, MapList;
  }
}
