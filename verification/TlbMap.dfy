/** The map and unmap lists that tlb_get_user_pages and tlb_put_user_pages of fpga_mmu.c build. */
module TlbMap {
  import opened Arith
  import opened Bits
  import opened TlbEntries
  import opened Errno

  const PAGE_SIZE: nat := 4096
  const MAX_N_MAP_HUGE_PAGES: nat := 16 * 512
  function NoAddress(): nat {
    Pow2(64) - 1
  }

  // ----- Filling a list -----

  /** The address of page `i`, stepped in 64 bits from `vaddr`. */
  function PageAddress(o: TlbOrder, vaddr: nat, i: nat): nat {
    Wrap(vaddr + i * o.pageSize, Pow2(64))
  }

  /** The host and card address to map page `i` to; no card address without card memory. */
  datatype Frames = Frames(host: seq<nat>, card: seq<nat>, enMem: bool)

  function CardAt(f: Frames, i: nat): nat
    requires f.enMem ==> i < |f.card|
  {
    if f.enMem then f.card[i] else 0
  }

  ghost predicate Enough(f: Frames, n: nat) {
    n <= |f.host| && (f.enMem ==> n <= |f.card|)
  }

  ghost predicate MapPair(o: TlbOrder, vaddr: nat, f: Frames, cpid: nat, w0: nat, w1: nat, i: nat)
    requires Enough(f, i + 1)
  {
    w0 == EntryBits(o, PageAddress(o, vaddr, i), cpid, 1) && w1 == FrameBits(o, f.host[i], CardAt(f, i))
  }

  ghost predicate MapList(o: TlbOrder, vaddr: nat, f: Frames, cpid: nat, list: seq<nat>, n: nat) {
    && Enough(f, n) && |list| >= 2 * n
    && forall i :: 0 <= i < n ==> MapPair(o, vaddr, f, cpid, list[2 * i], list[2 * i + 1], i)
  }

  ghost predicate UnmapPair(o: TlbOrder, vaddr: nat, cpid: nat, w0: nat, w1: nat, i: nat) {
    w0 == EntryBits(o, PageAddress(o, vaddr, i), cpid, 0) && w1 == 0
  }

  ghost predicate UnmapList(o: TlbOrder, vaddr: nat, cpid: nat, list: seq<nat>, n: nat) {
    && |list| >= 2 * n
    && forall i :: 0 <= i < n ==> UnmapPair(o, vaddr, cpid, list[2 * i], list[2 * i + 1], i)
  }

  /** Two words ORed into a list. */
  function OrPair(list: seq<nat>, at: nat, w0: nat, w1: nat): seq<nat>
    requires at + 1 < |list|
  {
    list[at := Or(list[at], w0)][at + 1 := Or(list[at + 1], w1)]
  }

  ghost predicate ZeroFrom(list: seq<nat>, at: nat) {
    forall k :: at <= k < |list| ==> list[k] == 0
  }

  method CreateMap(o: TlbOrder, vaddr: nat, host: nat, card: nat, cpid: nat, list: array<nat>, at: nat)
    requires at + 1 < list.Length
    modifies list
    ensures list[..] == OrPair(old(list[..]), at, EntryBits(o, vaddr, cpid, 1), FrameBits(o, host, card))
  {
    hide Or, EntryBits, FrameBits;
    list[at] := Or(list[at], EntryBits(o, vaddr, cpid, 1));
    list[at + 1] := Or(list[at + 1], FrameBits(o, host, card));
  }

  method CreateUnmap(o: TlbOrder, vaddr: nat, cpid: nat, list: array<nat>, at: nat)
    requires at + 1 < list.Length
    modifies list
    ensures list[..] == OrPair(old(list[..]), at, EntryBits(o, vaddr, cpid, 0), 0)
  {
    hide Or, EntryBits;
    list[at] := Or(list[at], EntryBits(o, vaddr, cpid, 0));
    list[at + 1] := Or(list[at + 1], 0);
  }

  method Zeroed(n: nat) returns (list: array<nat>)
    ensures fresh(list) && list.Length == n && ZeroFrom(list[..], 0)
  {
    list := new nat[n](_ => 0);
  }

  lemma NothingMapped(o: TlbOrder, vaddr: nat, f: Frames, cpid: nat, list: seq<nat>)
    ensures MapList(o, vaddr, f, cpid, list, 0)
  {
  }

  lemma NothingUnmapped(o: TlbOrder, vaddr: nat, cpid: nat, list: seq<nat>)
    ensures UnmapList(o, vaddr, cpid, list, 0)
  {
  }

  lemma OrPairZero(list: seq<nat>, at: nat, w0: nat, w1: nat)
    requires at + 1 < |list| && ZeroFrom(list, at)
    ensures OrPair(list, at, w0, w1) == list[at := w0][at + 1 := w1]
    ensures ZeroFrom(OrPair(list, at, w0, w1), at + 2)
  {
    hide Or;
    OrZero(w0);
    OrZero(w1);
  }

  lemma MapListNext(o: TlbOrder, vaddr: nat, f: Frames, cpid: nat, list: seq<nat>, i: nat, w0: nat, w1: nat)
    requires MapList(o, vaddr, f, cpid, list, i) && Enough(f, i + 1) && MapPair(o, vaddr, f, cpid, w0, w1, i)
    requires 2 * i + 1 < |list|
    ensures MapList(o, vaddr, f, cpid, list[2 * i := w0][2 * i + 1 := w1], i + 1)
  {
    hide MapPair;
  }

  lemma UnmapListNext(o: TlbOrder, vaddr: nat, cpid: nat, list: seq<nat>, i: nat, w0: nat, w1: nat)
    requires UnmapList(o, vaddr, cpid, list, i) && UnmapPair(o, vaddr, cpid, w0, w1, i)
    requires 2 * i + 1 < |list|
    ensures UnmapList(o, vaddr, cpid, list[2 * i := w0][2 * i + 1 := w1], i + 1)
  {
    hide UnmapPair;
  }

  lemma PageAddressStep(o: TlbOrder, vaddr: nat, i: nat)
    ensures Wrap(PageAddress(o, vaddr, i) + o.pageSize, Pow2(64)) == PageAddress(o, vaddr, i + 1)
  {
    hide Wrap, Pow2;
    WrapAdd(vaddr + i * o.pageSize, o.pageSize, Pow2(64));
    assert vaddr + i * o.pageSize + o.pageSize == vaddr + (i + 1) * o.pageSize;
  }

  lemma PageAddressStart(o: TlbOrder, vaddr: nat)
    requires vaddr < Pow2(64)
    ensures PageAddress(o, vaddr, 0) == vaddr
  {
    hide Wrap, Pow2;
    WrapSmall(vaddr, Pow2(64));
  }

  /** The list starts zeroed, so the ORs put the bits in. */
  method FillMap(o: TlbOrder, vaddr: nat, f: Frames, cpid: nat, n: nat) returns (list: array<nat>)
    requires vaddr < Pow2(64) && Enough(f, n)
    ensures fresh(list) && list.Length == 2 * n && MapList(o, vaddr, f, cpid, list[..], n)
  {
    hide Or, EntryBits, FrameBits, PageAddress, Wrap, Pow2, CardAt, MapList, OrPair, ZeroFrom;
    PageAddressStart(o, vaddr);
    list := Zeroed(2 * n);
    var vaddrTmp := vaddr;
    assert MapList(o, vaddr, f, cpid, list[..], 0) by { NothingMapped(o, vaddr, f, cpid, list[..]); }
    for i := 0 to n
      invariant vaddrTmp == PageAddress(o, vaddr, i)
      invariant MapList(o, vaddr, f, cpid, list[..], i)
      invariant ZeroFrom(list[..], 2 * i)
    {
      var w0, w1 := EntryBits(o, vaddrTmp, cpid, 1), FrameBits(o, f.host[i], CardAt(f, i));
      OrPairZero(list[..], 2 * i, w0, w1);
      MapListNext(o, vaddr, f, cpid, list[..], i, w0, w1);
      CreateMap(o, vaddrTmp, f.host[i], CardAt(f, i), cpid, list, 2 * i);
      PageAddressStep(o, vaddr, i);
      vaddrTmp := Wrap(vaddrTmp + o.pageSize, Pow2(64));
    }
  }

  method FillUnmap(o: TlbOrder, vaddr: nat, cpid: nat, n: nat) returns (list: array<nat>)
    requires vaddr < Pow2(64)
    ensures fresh(list) && list.Length == 2 * n && UnmapList(o, vaddr, cpid, list[..], n)
  {
    hide Or, EntryBits, PageAddress, Wrap, Pow2, UnmapList, OrPair, ZeroFrom;
    PageAddressStart(o, vaddr);
    list := Zeroed(2 * n);
    var vaddrTmp := vaddr;
    assert UnmapList(o, vaddr, cpid, list[..], 0) by { NothingUnmapped(o, vaddr, cpid, list[..]); }
    for i := 0 to n
      invariant vaddrTmp == PageAddress(o, vaddr, i)
      invariant UnmapList(o, vaddr, cpid, list[..], i)
      invariant ZeroFrom(list[..], 2 * i)
    {
      var w0 := EntryBits(o, vaddrTmp, cpid, 0);
      OrPairZero(list[..], 2 * i, w0, 0);
      UnmapListNext(o, vaddr, cpid, list[..], i, w0, 0);
      CreateUnmap(o, vaddrTmp, cpid, list, 2 * i);
      PageAddressStep(o, vaddr, i);
      vaddrTmp := Wrap(vaddrTmp + o.pageSize, Pow2(64));
    }
  }

  // ----- Collapsing the small pages of a buffer to its huge pages -----

  /** Small pages in a huge page. */
  function Ratio(o: TlbOrder): (r: nat)
    requires PAGE_SHIFT <= o.pageShift
    ensures r > 0
  {
    Pow2(o.pageShift - PAGE_SHIFT)
  }

  /** The number of the page an address lies in, as the code computes it. */
  function PageOf(o: TlbOrder, addr: nat): nat {
    Shr(And(addr, o.pageMask), o.pageShift)
  }

  /** Huge pages touched by the `i` small pages from `p0` on. */
  function Touched(p0: nat, r: nat, i: nat): (n: nat)
    requires r > 0
  {
    if i == 0 then 0 else Span(Quot(p0, r), Quot(p0 + i - 1, r))
  }

  function Span(a: nat, b: nat): nat {
    if a <= b then b - a + 1 else 0
  }

  /** The first small page from `p0` on in the k-th huge page. */
  function FirstSmall(p0: nat, r: nat, k: nat): nat
    requires r > 0
  {
    if k == 0 then p0 else (Quot(p0, r) + k) * r
  }

  /** Every frame is the aligned address of the first pinned page in its huge page. */
  ghost predicate Collapsed(o: TlbOrder, p0: nat, pinned: seq<nat>, n: nat, frames: seq<nat>, j: nat)
    requires PAGE_SHIFT <= o.pageShift
  {
    && n <= |pinned| && j <= |frames|
    && forall k :: 0 <= k < j ==>
      var p := FirstSmall(p0, Ratio(o), k);
      p0 <= p < p0 + n && frames[k] == And(pinned[p - p0], o.pageMask)
  }

  lemma QuotNext(p: nat, r: nat)
    requires r > 0
    ensures Quot(p + 1, r) == Quot(p, r) || (Quot(p + 1, r) == Quot(p, r) + 1 && p + 1 == (Quot(p, r) + 1) * r)
  {
    hide Wrap, Quot;
    QuotWrap(p, r);
    var q, m := Quot(p, r), Wrap(p, r);
    if m + 1 < r {
      DivModUnique(r, q, m + 1);
    } else {
      assert q * r + r == (q + 1) * r;
      DivModUnique(r, q + 1, 0);
    }
  }

  lemma {:induction false} QuotMono(p: nat, d: nat, r: nat)
    requires r > 0
    ensures Quot(p, r) <= Quot(p + d, r)
    decreases d
  {
    hide Quot;
    if d > 0 {
      QuotMono(p, d - 1, r);
      QuotNext(p + d - 1, r);
    }
  }

  lemma QuotFirst(p0: nat, r: nat, k: nat)
    requires r > 0
    ensures Quot(FirstSmall(p0, r, k), r) == Quot(p0, r) + k && p0 <= FirstSmall(p0, r, k)
  {
    hide Quot, Wrap;
    if k > 0 {
      DivModUnique(r, Quot(p0, r) + k, 0);
      QuotWrap(p0, r);
      MulLe(r, Quot(p0, r) + 1, Quot(p0, r) + k);
    }
  }

  lemma TouchedNext(p0: nat, r: nat, i: nat)
    requires r > 0
    ensures i > 0 && Quot(p0 + i, r) == Quot(p0 + i - 1, r) ==> Touched(p0, r, i + 1) == Touched(p0, r, i)
    ensures !(i > 0 && Quot(p0 + i, r) == Quot(p0 + i - 1, r)) ==>
      Touched(p0, r, i + 1) == Touched(p0, r, i) + 1 && FirstSmall(p0, r, Touched(p0, r, i)) == p0 + i
  {
    hide Quot;
    QuotMono(p0, i, r);
    if i > 0 {
      QuotMono(p0, i - 1, r);
      QuotNext(p0 + i - 1, r);
    }
  }

  lemma TouchedMono(p0: nat, r: nat, i: nat, n: nat)
    requires r > 0 && i <= n
    ensures Touched(p0, r, i) <= Touched(p0, r, n)
  {
    hide Quot;
    if i > 0 {
      QuotMono(p0 + i - 1, n - i, r);
    } else if n > 0 {
      QuotMono(p0, n - 1, r);
    }
  }

  lemma PageOfExact(o: TlbOrder, addr: nat)
    requires Usable(o) && addr < Pow2(64)
    ensures PageOf(o, addr) == Shr(addr, o.pageShift)
    ensures And(addr, o.pageMask) == Raise(Shr(addr, o.pageShift), o.pageShift)
  {
    hide *;
    MaskIs(o);
    Pow2Mono(o.pageShift, 64);
    AndHigh(addr, o.pageShift, 64);
    DivModUnique(Pow2(o.pageShift), Shr(addr, o.pageShift), 0);
    PageOfIs(o, addr);
  }

  lemma MaskIs(o: TlbOrder)
    requires Usable(o)
    ensures o.pageShift <= 64 && Pow2(64) >= Pow2(o.pageShift) && o.pageMask == Pow2(64) - Pow2(o.pageShift)
  {
    hide Pow2;
    Pow2Mono(o.pageShift, 64);
  }

  lemma PageOfIs(o: TlbOrder, addr: nat)
    ensures PageOf(o, addr) == Quot(And(addr, o.pageMask), Pow2(o.pageShift))
    ensures Raise(Shr(addr, o.pageShift), o.pageShift) == Shr(addr, o.pageShift) * Pow2(o.pageShift)
  {
  }

  /** The page of the i-th small page of a buffer. */
  lemma PageOfSmall(o: TlbOrder, start: nat, i: nat)
    requires Usable(o) && start + i * PAGE_SIZE < Pow2(64)
    ensures PageOf(o, start + i * PAGE_SIZE) == Quot(Shr(start, PAGE_SHIFT) + i, Ratio(o))
  {
    hide Quot, Wrap, Pow2, And, PageOf;
    Sizes(o);
    PageOfExact(o, start + i * PAGE_SIZE);
    CutJoin(start + i * PAGE_SIZE, PAGE_SHIFT, o.pageShift - PAGE_SHIFT);
    hide Usable, Cut, Raise;
    WrapMultiple(start, i, PAGE_SIZE);
  }

  /** The page of the initial `last_vaddr`, -1, is the topmost one. */
  function TopPage(o: TlbOrder): nat {
    PageOf(o, NoAddress())
  }

  lemma TopPageIs(o: TlbOrder)
    requires Usable(o)
    ensures Pow2(64 - o.pageShift) == TopPage(o) + 1
  {
    hide *;
    Sizes(o);
    ShiftedTop(o.pageShift);
    NoAddressIs();
    PageOfExact(o, NoAddress());
    TopPageDef(o);
  }

  lemma TopPageDef(o: TlbOrder)
    ensures TopPage(o) == PageOf(o, NoAddress())
  {
  }

  lemma NoAddressIs()
    ensures NoAddress() == Pow2(64) - 1
  {
  }

  lemma ShiftedTop(k: nat)
    requires k <= 64
    ensures Shr(Pow2(64) - 1, k) == Pow2(64 - k) - 1
  {
    hide Pow2, Quot;
    Pow2Sum(k, 64 - k);
    TopCut(Pow2(64), Pow2(64 - k), Pow2(k));
  }

  lemma TopCut(p: nat, m: nat, k: nat)
    requires m > 0 && k > 0 && p == k * m
    ensures p > 0 && Quot(p - 1, k) == m - 1
  {
    hide Quot;
    assert p - 1 == (m - 1) * k + (k - 1);
    DivModUnique(k, m - 1, k - 1);
  }

  /** No small page lies above it. */
  lemma BelowTop(o: TlbOrder, p: nat)
    requires Usable(o) && p < Pow2(64 - PAGE_SHIFT)
    ensures Quot(p, Ratio(o)) <= TopPage(o)
  {
    hide *;
    Sizes(o);
    TopPageIs(o);
    ShrBelow(p, o.pageShift - PAGE_SHIFT, 64 - PAGE_SHIFT);
    RatioIs(o, p);
  }

  lemma RatioIs(o: TlbOrder, p: nat)
    requires PAGE_SHIFT <= o.pageShift
    ensures Quot(p, Ratio(o)) == Shr(p, o.pageShift - PAGE_SHIFT)
  {
  }

  /** The number of frames the loop keeps; it takes the topmost huge page for one already seen, so a
      buffer that starts there gets none. */
  function Kept(o: TlbOrder, p0: nat, i: nat): nat
    requires PAGE_SHIFT <= o.pageShift
  {
    if Quot(p0, Ratio(o)) == TopPage(o) then 0 else Touched(p0, Ratio(o), i)
  }

  /** Where the collapse loop stands after `i` small pages. */
  ghost predicate CollapseState(o: TlbOrder, p0: nat, pinned: seq<nat>, i: nat, j: nat, last: nat, frames: seq<nat>)
    requires PAGE_SHIFT <= o.pageShift
  {
    && j == Kept(o, p0, i)
    && (if i == 0 || Quot(p0, Ratio(o)) == TopPage(o) then last == NoAddress()
        else PageOf(o, last) == Quot(p0 + i - 1, Ratio(o)))
    && Collapsed(o, p0, pinned, i, frames, j) && ZeroFrom(frames, j)
  }

  lemma Powers()
    ensures Pow2(PAGE_SHIFT) == PAGE_SIZE && Pow2(VADDR_RANGE) == PAGE_SIZE * Pow2(VADDR_RANGE - PAGE_SHIFT)
    ensures 2 * Pow2(VADDR_RANGE) <= Pow2(64) && PAGE_SIZE < Pow2(VADDR_RANGE)
    ensures Pow2(64) == PAGE_SIZE * Pow2(64 - PAGE_SHIFT)
  {
    hide *;
    PagePower();
    Pow2Sum(PAGE_SHIFT, 64 - PAGE_SHIFT);
    Pow2Sum(PAGE_SHIFT, VADDR_RANGE - PAGE_SHIFT);
    Pow2Mono(PAGE_SHIFT, VADDR_RANGE);
    Pow2Mono(VADDR_RANGE, 64);
  }

  lemma PagePower()
    ensures Pow2(PAGE_SHIFT) == PAGE_SIZE && 0 < PAGE_SIZE && 0 < PAGE_SHIFT < VADDR_RANGE < 64
  {
  }

  lemma SmallAddress(start: nat, n: nat, i: nat)
    requires Shr(start, PAGE_SHIFT) + n <= Pow2(64 - PAGE_SHIFT) && i < n
    ensures start + i * PAGE_SIZE < Pow2(64)
  {
    hide Quot, Wrap, Pow2;
    Powers();
    QuotWrap(start, PAGE_SIZE);
  }

  lemma CollapseNext(o: TlbOrder, p0: nat, pinned: seq<nat>, i: nat, j: nat, last: nat, frames: seq<nat>, curr: nat)
    requires Usable(o) && CollapseState(o, p0, pinned, i, j, last, frames)
    requires i < |pinned| && p0 + i < Pow2(64 - PAGE_SHIFT) && Kept(o, p0, i + 1) <= |frames|
    requires PageOf(o, curr) == Quot(p0 + i, Ratio(o))
    ensures PageOf(o, curr) == PageOf(o, last) ==> CollapseState(o, p0, pinned, i + 1, j, last, frames)
    ensures PageOf(o, curr) != PageOf(o, last) ==>
      j < |frames| && CollapseState(o, p0, pinned, i + 1, j + 1, curr, frames[j := And(pinned[i], o.pageMask)])
  {
    hide Usable, Pow2, Quot, PageOf, And, Touched, FirstSmall, Ratio, Shr;
    BelowTop(o, p0 + i);
    RatioPositive(o);
    QuotMono(p0, i, Ratio(o));
    TouchedNext(p0, Ratio(o), i);
    if PageOf(o, curr) != PageOf(o, last) {
      CollapsedNext(o, p0, pinned, i, j, frames);
    } else {
      CollapsedMore(o, p0, pinned, i, j, frames);
    }
  }

  lemma RatioPositive(o: TlbOrder)
    requires Usable(o)
    ensures PAGE_SHIFT <= o.pageShift && Ratio(o) > 0
  {
  }

  lemma CollapsedMore(o: TlbOrder, p0: nat, pinned: seq<nat>, i: nat, j: nat, frames: seq<nat>)
    requires PAGE_SHIFT <= o.pageShift && Collapsed(o, p0, pinned, i, frames, j) && i < |pinned|
    ensures Collapsed(o, p0, pinned, i + 1, frames, j)
  {
    hide And, FirstSmall, Ratio;
  }

  lemma CollapsedNext(o: TlbOrder, p0: nat, pinned: seq<nat>, i: nat, j: nat, frames: seq<nat>)
    requires PAGE_SHIFT <= o.pageShift && Collapsed(o, p0, pinned, i, frames, j) && i < |pinned| && ZeroFrom(frames, j)
    ensures j < |frames| && FirstSmall(p0, Ratio(o), j) == p0 + i ==>
      var more := frames[j := And(pinned[i], o.pageMask)];
      Collapsed(o, p0, pinned, i + 1, more, j + 1) && ZeroFrom(more, j + 1)
  {
    hide And, FirstSmall, Ratio;
  }

  /** One round of the loop, at the address of small page `i`. */
  lemma CollapseRound(o: TlbOrder, start: nat, pinned: seq<nat>, n: nat, i: nat, j: nat, last: nat, frames: seq<nat>)
    requires Usable(o) && i < n <= |pinned| && Shr(start, PAGE_SHIFT) + n <= Pow2(64 - PAGE_SHIFT)
    requires CollapseState(o, Shr(start, PAGE_SHIFT), pinned, i, j, last, frames)
    requires Kept(o, Shr(start, PAGE_SHIFT), n) <= |frames|
    ensures var p0, curr := Shr(start, PAGE_SHIFT), SmallStart(start, i);
      && (PageOf(o, curr) == PageOf(o, last) ==> CollapseState(o, p0, pinned, i + 1, j, last, frames))
      && (PageOf(o, curr) != PageOf(o, last) ==>
        j < |frames| && CollapseState(o, p0, pinned, i + 1, j + 1, curr, frames[j := And(pinned[i], o.pageMask)]))
      && Wrap(curr + PAGE_SIZE, Pow2(64)) == SmallStart(start, i + 1)
  {
    hide *;
    Sizes(o);
    SmallAddress(start, n, i);
    SmallStartIs(start, i);
    PageOfSmall(o, start, i);
    KeptMono(o, Shr(start, PAGE_SHIFT), i + 1, n);
    CollapseNext(o, Shr(start, PAGE_SHIFT), pinned, i, j, last, frames, SmallStart(start, i));
  }

  /** The address in the i-th small page, stepped in 64 bits. */
  function SmallStart(start: nat, i: nat): nat {
    Wrap(start + i * PAGE_SIZE, Pow2(64))
  }

  lemma SmallStartIs(start: nat, i: nat)
    ensures start + i * PAGE_SIZE < Pow2(64) ==> SmallStart(start, i) == start + i * PAGE_SIZE
    ensures Wrap(SmallStart(start, i) + PAGE_SIZE, Pow2(64)) == SmallStart(start, i + 1)
  {
    hide Wrap, Pow2;
    if start + i * PAGE_SIZE < Pow2(64) {
      WrapSmall(start + i * PAGE_SIZE, Pow2(64));
    }
    WrapAdd(start + i * PAGE_SIZE, PAGE_SIZE, Pow2(64));
  }

  lemma KeptMono(o: TlbOrder, p0: nat, i: nat, n: nat)
    requires PAGE_SHIFT <= o.pageShift && i <= n
    ensures Kept(o, p0, i) <= Kept(o, p0, n)
  {
    hide Touched, Ratio, Quot, TopPage;
    TouchedMono(p0, Ratio(o), i, n);
  }

  /** Steps through the pinned small pages and keeps one frame for each huge page. */
  method Collapse(o: TlbOrder, start: nat, pinned: seq<nat>, n: nat, out: array<nat>) returns (j: nat)
    requires Usable(o) && n <= |pinned| && ZeroFrom(out[..], 0)
    requires start < Pow2(64) && Shr(start, PAGE_SHIFT) + n <= Pow2(64 - PAGE_SHIFT)
    requires Kept(o, Shr(start, PAGE_SHIFT), n) <= out.Length
    modifies out
    ensures j == Kept(o, Shr(start, PAGE_SHIFT), n)
    ensures Collapsed(o, Shr(start, PAGE_SHIFT), pinned, n, out[..], j) && ZeroFrom(out[..], j)
  {
    hide *;
    RatioPositive(o);
    ghost var p0 := Shr(start, PAGE_SHIFT);
    j := 0;
    var currVaddr: nat, lastVaddr: nat := start, NoAddress();
    CollapseStart(o, p0, pinned, out[..]);
    SmallStartIs(start, 0);
    for i := 0 to n
      invariant currVaddr == SmallStart(start, i) && j <= out.Length
      invariant CollapseState(o, p0, pinned, i, j, lastVaddr, out[..])
    {
      CollapseRound(o, start, pinned, n, i, j, lastVaddr, out[..]);
      if PageOf(o, currVaddr) != PageOf(o, lastVaddr) {
        out[j] := And(pinned[i], o.pageMask);
        lastVaddr := currVaddr;
        j := j + 1;
      }
      currVaddr := Wrap(currVaddr + PAGE_SIZE, Pow2(64));
    }
    Finished(o, p0, pinned, n, j, lastVaddr, out[..]);
  }

  lemma Finished(o: TlbOrder, p0: nat, pinned: seq<nat>, n: nat, j: nat, last: nat, frames: seq<nat>)
    requires PAGE_SHIFT <= o.pageShift && CollapseState(o, p0, pinned, n, j, last, frames)
    ensures j == Kept(o, p0, n) && Collapsed(o, p0, pinned, n, frames, j) && ZeroFrom(frames, j)
  {
  }

  lemma CollapseStart(o: TlbOrder, p0: nat, pinned: seq<nat>, frames: seq<nat>)
    requires PAGE_SHIFT <= o.pageShift && ZeroFrom(frames, 0)
    ensures CollapseState(o, p0, pinned, 0, 0, NoAddress(), frames)
  {
    hide TopPage, NoAddress, Quot;
  }

  // ----- tlb_get_user_pages for huge pages -----

  function ToInt32(x: nat): int {
    var m := x % 0x1_0000_0000;
    if m < 0x8000_0000 then m else m - 0x1_0000_0000
  }

  function SmallPages(start: nat, count: nat): (n: nat)
    requires count > 0
  {
    Span(Shr(start, PAGE_SHIFT), Shr(start + count - 1, PAGE_SHIFT))
  }

  /** The number of pages to pin: a 32-bit number, with a cap. */
  function PinCount(start: nat, count: nat): int
    requires count > 0
  {
    var n := ToInt32(SmallPages(start, count));
    if n > MAX_N_MAP_HUGE_PAGES then MAX_N_MAP_HUGE_PAGES else n
  }

  function HugePages(o: TlbOrder, start: nat, count: nat): (n: nat)
    requires count > 0
  {
    Span(Shr(start, o.pageShift), Shr(start + count - 1, o.pageShift))
  }

  /** The number of huge pages as the code holds it, in 32 bits. */
  function HugeCount(o: TlbOrder, start: nat, count: nat): int
    requires count > 0
  {
    ToInt32(HugePages(o, start, count))
  }

  /** One frame for each huge page of the buffer; those past the pinned pages stay zero. */
  ghost predicate HugeFrames(o: TlbOrder, start: nat, count: nat, pinned: seq<nat>, n: nat, frames: seq<nat>)
    requires PAGE_SHIFT <= o.pageShift && count > 0
  {
    var p0 := Shr(start, PAGE_SHIFT);
    var j := Kept(o, p0, n);
    |frames| == HugeCount(o, start, count) && Collapsed(o, p0, pinned, n, frames, j) && ZeroFrom(frames, j)
  }

  lemma BufferPages(o: TlbOrder, start: nat, count: nat, n: nat)
    requires Usable(o) && count > 0 && start + count <= Pow2(64) && n <= SmallPages(start, count)
    ensures var p0 := Shr(start, PAGE_SHIFT);
      && p0 + n <= Pow2(64 - PAGE_SHIFT)
      && Touched(p0, Ratio(o), n) <= HugePages(o, start, count)
      && Quot(p0, Ratio(o)) == Shr(start, o.pageShift)
      && Quot(p0 + SmallPages(start, count) - 1, Ratio(o)) == Shr(start + count - 1, o.pageShift)
  {
    hide Quot, Wrap, Pow2, Usable, Cut;
    Sizes(o);
    var p0, r := Shr(start, PAGE_SHIFT), Ratio(o);
    ShrBelow(start + count - 1, PAGE_SHIFT, 64);
    ShrMono(start, start + count - 1, PAGE_SHIFT);
    CutJoin(start, PAGE_SHIFT, o.pageShift - PAGE_SHIFT);
    CutJoin(start + count - 1, PAGE_SHIFT, o.pageShift - PAGE_SHIFT);
    TouchedMono(p0, r, n, SmallPages(start, count));
  }

  /** Only a buffer that starts in the topmost huge page of the 64-bit space gets no frame. */
  lemma KeptIs(o: TlbOrder, start: nat, n: nat)
    requires Usable(o)
    ensures Shr(start, o.pageShift) != TopPage(o) ==>
      Kept(o, Shr(start, PAGE_SHIFT), n) == Touched(Shr(start, PAGE_SHIFT), Ratio(o), n)
    ensures Kept(o, Shr(start, PAGE_SHIFT), n) <= Touched(Shr(start, PAGE_SHIFT), Ratio(o), n)
  {
    hide Quot, Wrap, Pow2, Usable, Touched, TopPage, Cut;
    Sizes(o);
    CutJoin(start, PAGE_SHIFT, o.pageShift - PAGE_SHIFT);
  }

  /** No address of 48 bits lies there. */
  lemma NotTop(o: TlbOrder, start: nat)
    requires Usable(o) && start < Pow2(VADDR_RANGE)
    ensures Shr(start, o.pageShift) != TopPage(o)
  {
    hide *;
    Sizes(o);
    PagePower();
    OrderShift(o);
    TopPageIs(o);
    ShrBelow(start, o.pageShift, VADDR_RANGE);
    Pow2Mono(VADDR_RANGE - o.pageShift, 64 - o.pageShift);
  }

  lemma OrderShift(o: TlbOrder)
    requires Usable(o)
    ensures o.pageShift < VADDR_RANGE < 64
  {
  }

  lemma ShrMono(a: nat, b: nat, k: nat)
    requires a <= b
    ensures Shr(a, k) <= Shr(b, k)
  {
    QuotMono(a, b - a, Pow2(k));
  }

  lemma PinCountBounds(start: nat, count: nat)
    requires count > 0
    ensures PinCount(start, count) <= SmallPages(start, count)
  {
    hide Shr, Span;
  }

  lemma Int32Is(x: nat)
    ensures ToInt32(x) == x % 0x1_0000_0000 - if x % 0x1_0000_0000 < 0x8000_0000 then 0 else 0x1_0000_0000
    ensures x < 0x8000_0000 ==> ToInt32(x) == x
  {
  }

  /** The pages to pin are the 4 KB pages that the buffer touches, as a 32-bit number and at most 8192; huge pages are
      counted in the same way, without a cap. */
  lemma CountsAre(o: TlbOrder, start: nat, count: nat)
    requires count > 0
    ensures var small := (start + count - 1) / 4096 - start / 4096 + 1;
      && SmallPages(start, count) == small > 0
      && PinCount(start, count) == (if small % 0x1_0000_0000 >= 0x8000_0000 then small % 0x1_0000_0000 - 0x1_0000_0000
                                    else if small % 0x1_0000_0000 > 8192 then 8192 else small % 0x1_0000_0000)
    ensures var huge := (start + count - 1) / Pow2(o.pageShift) - start / Pow2(o.pageShift) + 1;
      && HugePages(o, start, count) == huge > 0
      && HugeCount(o, start, count) == huge % 0x1_0000_0000
                                       - if huge % 0x1_0000_0000 < 0x8000_0000 then 0 else 0x1_0000_0000
  {
    hide Pow2, ToInt32;
    PagePower();
    SpanIs(start, count, 4096);
    SpanIs(start, count, Pow2(o.pageShift));
    Int32Is(SmallPages(start, count));
    Int32Is(HugePages(o, start, count));
  }

  lemma SpanIs(start: nat, count: nat, m: nat)
    requires count > 0 && m > 0
    ensures Span(Quot(start, m), Quot(start + count - 1, m)) == (start + count - 1) / m - start / m + 1 > 0
  {
    QuotMono(start, count - 1, m);
  }

  /** The frames of the pinned pages fit into the array allocated for them, unless there is none. */
  predicate FramesFit(o: TlbOrder, start: nat, count: nat)
    requires PAGE_SHIFT <= o.pageShift && count > 0
  {
    var n := PinCount(start, count);
    n < 0 || HugeCount(o, start, count) < 0 || Kept(o, Shr(start, PAGE_SHIFT), n) <= HugeCount(o, start, count)
  }

  /** So they do when the number of huge pages does not wrap. */
  lemma FramesFitUnwrapped(o: TlbOrder, start: nat, count: nat)
    requires Usable(o) && count > 0 && start + count <= Pow2(64) && HugePages(o, start, count) < 0x8000_0000
    ensures HugeCount(o, start, count) == HugePages(o, start, count) && FramesFit(o, start, count)
  {
    hide Pow2, PinCount, HugePages, Shr, Kept, Touched, Usable;
    var n := PinCount(start, count);
    if n >= 0 {
      PinCountBounds(start, count);
      BufferPages(o, start, count, n);
      KeptIs(o, start, n);
    }
  }

  /** `pinned` holds the physical addresses of the pages pinned, `card` those card_alloc can give. */
  method MapHuge(o: TlbOrder, start: nat, count: nat, cpid: nat, pinned: seq<nat>, card: seq<nat>, enMem: bool)
    returns (ret: int, list: array<nat>, ghost frames: seq<nat>)
    requires Usable(o) && start < Pow2(64)
    requires count > 0 && start + count < Pow2(64) ==> FramesFit(o, start, count)
    ensures fresh(list)
    ensures ret == -22 <==> start + count >= Pow2(64)
    ensures ret == -1 <==> start + count < Pow2(64) && count > 0 && PinCount(start, count) < 0
    ensures ret == -12 <==>
      && start + count < Pow2(64) && count > 0 && PinCount(start, count) >= 0
      && (|pinned| < PinCount(start, count) || HugeCount(o, start, count) < 0
          || (enMem && |card| < HugeCount(o, start, count)))
    ensures ret >= 0 <==>
      && start + count < Pow2(64)
      && (count > 0 ==> 0 <= PinCount(start, count) <= |pinned| && 0 <= HugeCount(o, start, count)
                        && (enMem ==> HugeCount(o, start, count) <= |card|))
    ensures ret >= 0 ==> ret == if count == 0 then 0 else PinCount(start, count)
    ensures ret >= 0 && count > 0 ==> HugeFrames(o, start, count, pinned, ret, frames)
    ensures ret >= 0 && count > 0 ==> MapList(o, start, Frames(frames, card, enMem), cpid, list[..], |frames|)
  {
    frames := [];
    list := Zeroed(0);
    if start + count >= Pow2(64) {
      return -EINVAL, list, frames;
    }
    if count == 0 {
      return 0, list, frames;
    }
    var n := PinCount(start, count);
    if n < 0 {
      return -1, list, frames;
    }
    if |pinned| < n {
      return -ENOMEM, list, frames;
    }
    var nHuge := HugeCount(o, start, count);
    if nHuge < 0 {
      return -ENOMEM, list, frames;
    }
    hide Pow2, PinCount, HugeCount, Shr, Kept, Touched, Collapsed, ZeroFrom, Usable, MapList;
    PinCountBounds(start, count);
    BufferPages(o, start, count, n);
    var hpagesPhys := Zeroed(nHuge);
    var j := Collapse(o, start, pinned, n, hpagesPhys);
    frames := hpagesPhys[..];
    if enMem && |card| < hpagesPhys.Length {
      return -ENOMEM, list, frames;
    }
    list := FillMap(o, start, Frames(hpagesPhys[..], card, enMem), cpid, hpagesPhys.Length);
    ret := n;
  }
}
