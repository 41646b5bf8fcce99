/** card_alloc and card_free of fpga_mmu.c over two chunk pools, and register_pid and unregister_pid
    of fpga_fops.c over a third. */
module CardMemory {
  import opened Arith
  import opened Options
  import opened FreeLists
  import opened Errno

  const N_LARGE_CHUNKS: nat := 512
  const N_SMALL_CHUNKS: nat := 256 * 1024
  const MEM_SEP: nat := N_SMALL_CHUNKS * (4 * 1024)
  const SMALL_PAGE: nat := 4 * 1024
  const LARGE_PAGE: nat := 2 * 1024 * 1024
  const UINT32: nat := 0x1_0000_0000

  function ChunkCount(large: bool): nat {
    if large then N_LARGE_CHUNKS else N_SMALL_CHUNKS
  }

  function PageSize(large: bool): nat {
    if large then LARGE_PAGE else SMALL_PAGE
  }

  /** The card address of a chunk; the id is a 32-bit number, and so is its shift. */
  function Address(large: bool, id: nat): nat {
    id * PageSize(large) % UINT32 + if large then MEM_SEP else 0
  }

  /** The chunk number that `card_free` computes from an address. */
  function ChunkOf(large: bool, addr: nat): nat
    requires large ==> addr >= MEM_SEP
  {
    (addr - if large then MEM_SEP else 0) / PageSize(large)
  }

  lemma AddressExact(large: bool, id: nat)
    requires id < ChunkCount(large)
    ensures Address(large, id) == id * PageSize(large) + if large then MEM_SEP else 0
    ensures Address(large, id) == if large then 0x4000_0000 + id * 0x20_0000 else id * 0x1000
    ensures ChunkOf(large, Address(large, id)) == id
    ensures ChunkCount(large) == if large then 512 else 262144
  {
  }

  /** Pages of different live chunks never overlap, small pages lie below MEM_SEP and large ones
      from it on. */
  lemma PagesApart(large: bool, a: nat, other: bool, b: nat)
    requires a < ChunkCount(large) && b < ChunkCount(other) && (large != other || a != b)
    ensures Address(large, a) + PageSize(large) <= Address(other, b)
      || Address(other, b) + PageSize(other) <= Address(large, a)
    ensures if large then Address(large, a) >= MEM_SEP else Address(large, a) + PageSize(large) <= MEM_SEP
  {
    AddressExact(large, a);
    AddressExact(other, b);
  }

  class CardPool {
    const large: bool
    const pool: ChunkPool
    /** Set once and never updated. */
    const numFree: nat

    ghost predicate Sized() {
      pool.chunks.Length == ChunkCount(large) == numFree
    }

    ghost predicate Valid()
      reads pool, pool.chunks
    {
      pool.Valid() && Sized()
    }

    constructor (large: bool)
      ensures Valid() && fresh(pool) && fresh(pool.chunks) && this.large == large
      ensures pool.live == {} && pool.free == seq(ChunkCount(large), i => i)
    {
      this.large := large;
      pool := new ChunkPool(ChunkCount(large));
      numFree := ChunkCount(large);
    }

    ghost predicate Linked()
      reads pool, pool.chunks
    {
      Sized() && Inside(pool.chunks[..], pool.head)
    }

    /** Whatever the links are: the chunks that lie on them.  `ret` is None when the request goes on behind the
        last one, where the code follows a null pointer.  A request that takes the tail of a list in order
        too, which the count of free chunks does not prevent, gets the page of id 0 for it and leaves
        no list. */
    method Alloc(cardPaddr: array<nat>, nPages: nat) returns (ret: Option<int>)
      requires Linked() && nPages <= cardPaddr.Length
      modifies pool, pool.chunks, cardPaddr
      ensures ret == Some(-ENOMEM) <==> nPages > numFree
      ensures nPages > numFree ==>
        pool.chunks[..] == old(pool.chunks[..]) && pool.head == old(pool.head) && (old(Valid()) ==> Valid())
        && pool.free == old(pool.free) && pool.live == old(pool.live)
      ensures nPages <= numFree ==>
        var r := TakeMany(old(pool.chunks[..]), old(pool.head), nPages);
        if r == None then ret == None
        else
          && ret == Some(0) && pool.chunks[..] == r.value.1 && pool.head == r.value.2 && Linked()
          && forall i :: 0 <= i < nPages ==> cardPaddr[i] == Address(large, r.value.0[i])
      ensures old(Valid()) ==>
        && (ret == None <==> |old(pool.free)| < nPages <= numFree)
        && (ret == Some(0) ==>
              forall i :: 0 <= i < nPages ==>
                cardPaddr[i] == Address(large, IdOf(ChunkCount(large), old(pool.free)[i])))
        && (ret == Some(0) && nPages < |old(pool.free)| ==>
              && Valid() && pool.free == old(pool.free)[nPages..]
              && pool.live == old(pool.live) + Elements(old(pool.free)[..nPages]))
    {
      if numFree < nPages {
        return Some(-ENOMEM);
      }
      ghost var free, live, ok := pool.free, pool.live, Valid();
      ghost var chunks, head := pool.chunks[..], pool.head;
      hide *;
      if ok {
        NothingTaken(free, live);
        AllTaken(chunks, head, free, live, nPages);
      }
      LinkedParts();
      ret := TakeChunks(cardPaddr, nPages, free, live, ok);
      if ok && ret == Some(0) {
        TakenAll(free, live, nPages);
      }
    }

    /** The loop. */
    method TakeChunks(cardPaddr: array<nat>, nPages: nat, ghost free: seq<nat>, ghost live: set<nat>, ghost ok: bool)
      returns (ret: Option<int>)
      requires Linked() && Inside(pool.chunks[..], pool.head) && nPages <= cardPaddr.Length
      requires ok ==> Taken(free, live, 0)
      modifies pool, pool.chunks, cardPaddr
      ensures var r := TakeMany(old(pool.chunks[..]), old(pool.head), nPages);
        if r == None then ret == None
        else
          && ret == Some(0) && pool.chunks[..] == r.value.1 && pool.head == r.value.2 && Linked()
          && (ok ==> Taken(free, live, nPages))
          && forall k :: 0 <= k < nPages ==> cardPaddr[k] == Address(large, r.value.0[k])
    {
      hide *;
      ghost var chunks, head := pool.chunks[..], pool.head;
      TakeNothing(chunks, head);
      for i := 0 to nPages
        invariant Linked() && TakeMany(chunks, head, i).Some? && (ok ==> Taken(free, live, i))
        invariant TakeMany(chunks, head, i).value.1 == pool.chunks[..]
        invariant TakeMany(chunks, head, i).value.2 == pool.head
        invariant forall k :: 0 <= k < i ==> cardPaddr[k] == Address(large, TakeMany(chunks, head, i).value.0[k])
      {
        TakeStep(chunks, head, i);
        LinkedParts();
        if pool.head == None {
          TakeStops(chunks, head, i, nPages);
          return None;
        }
        var id := TakeChunk(free, live, i, ok);
        cardPaddr[i] := Address(large, id);
        Relink();
      }
      ret := Some(0);
    }

    lemma ValidLinked()
      requires Valid()
      ensures Linked()
    {
      pool.ValidInside();
    }

    lemma LinkedParts()
      requires Linked()
      ensures Sized() && Inside(pool.chunks[..], pool.head)
    {
    }

    lemma Relink()
      requires Sized() && Inside(pool.chunks[..], pool.head)
      ensures Linked()
    {
    }

    /** After i rounds of the loop. */
    ghost predicate Taken(free: seq<nat>, live: set<nat>, i: nat)
      reads pool, pool.chunks
    {
      && i <= |free|
      && (i < |free| ==> Valid() && pool.free == free[i..] && pool.live == live + Elements(free[..i]))
      && (i == |free| ==> pool.head == None)
    }

    lemma NothingTaken(free: seq<nat>, live: set<nat>)
      requires Valid() && free == pool.free && live == pool.live
      ensures Taken(free, live, 0)
    {
    }

    lemma TakenAll(free: seq<nat>, live: set<nat>, n: nat)
      requires Taken(free, live, n)
      ensures n < |free| ==> Valid() && pool.free == free[n..] && pool.live == live + Elements(free[..n])
      ensures n == |free| ==> pool.head == None
    {
    }

    /** One round of the loop. */
    method TakeChunk(ghost free: seq<nat>, ghost live: set<nat>, ghost i: nat, ghost ok: bool) returns (id: nat)
      requires Sized() && Inside(pool.chunks[..], pool.head) && pool.head.Some? && (ok ==> Taken(free, live, i))
      modifies pool, pool.chunks
      ensures (pool.chunks[..], pool.head, id) == TakeOne(old(pool.chunks[..]), old(pool.head).value, false)
      ensures ok ==> Taken(free, live, i + 1)
    {
      hide *;
      if ok {
        TakenNow(free, live, i);
      }
      id := pool.Pop(false);
      if ok {
        TakenNext(free, live, i);
      }
    }

    lemma TakenNow(free: seq<nat>, live: set<nat>, i: nat)
      requires Taken(free, live, i) && pool.head.Some?
      ensures i < |free| && pool.Valid() && Sized() && pool.live == live + Elements(free[..i])
      ensures pool.free == free[i..] && pool.free[0] == free[i] && (|pool.free| > 1 <==> i + 1 < |free|)
      ensures |pool.free| == |free| - i
    {
    }

    lemma TakenNext(free: seq<nat>, live: set<nat>, i: nat)
      requires Sized() && i < |free|
      requires i + 1 < |free| ==>
        pool.Valid() && pool.free == free[i..][1..] && pool.live == live + Elements(free[..i]) + {free[i]}
      requires i + 1 == |free| ==> pool.head == None
      ensures Taken(free, live, i + 1)
    {
      ElementsNext(free, i);
      hide ChunkPool.Valid;
    }

    method FreeOne(addr: nat, ghost id: nat)
      requires Sized() && id < ChunkCount(large) && addr == Address(large, id)
      modifies pool, pool.chunks
      ensures (pool.chunks[..], pool.head) == PutBack(old(pool.chunks[..]), old(pool.head), id)
      ensures old(Valid()) && id in old(pool.live) ==>
        Valid() && pool.free == [id] + old(pool.free) && pool.live == old(pool.live) - {id}
    {
      AddressExact(large, id);
      if Valid() && id in pool.live {
        IsUsed(pool, id);
      }
      hide Address, ChunkPool.Valid;
      var tmpId := ChunkOf(large, addr);
      if pool.chunks[tmpId].used {
        pool.Push(tmpId);
      }
    }

    /** The chunks of the pages go back in front, first page first, if they were ever used: `used` stays set,
        so a page is linked in again however often it is freed.  Live pages, each freed once, keep the list
        in order. */
    method Free(cardPaddr: array<nat>, nPages: nat, ghost ids: seq<nat>)
      requires Sized() && nPages == |ids| <= cardPaddr.Length && Addresses(large, cardPaddr[..nPages], ids)
      modifies pool, pool.chunks
      ensures (pool.chunks[..], pool.head) == PutAllBack(old(pool.chunks[..]), old(pool.head), ids)
      ensures old(Valid()) && NoDuplicates(ids) && Elements(ids) <= old(pool.live) ==>
        Valid() && pool.free == ids + old(pool.free) && pool.live == old(pool.live) - Elements(ids)
    {
      hide *;
      ghost var free, live := pool.free, pool.live;
      ghost var ok := Valid() && NoDuplicates(ids) && Elements(ids) <= live;
      ghost var chunks, head := pool.chunks[..], pool.head;
      InRangeIds(cardPaddr[..nPages], ids);
      NothingFreed(ids, free, live);
      NothingBack(chunks, head, ids);
      var i := nPages;
      while i > 0
        invariant 0 <= i <= nPages && InPool(pool.chunks.Length, ids[i..])
        invariant (pool.chunks[..], pool.head) == PutAllBack(chunks, head, ids[i..])
        invariant ok ==> Valid() && pool.free == ids[i..] + free && pool.live == live - Elements(ids[i..])
      {
        i := i - 1;
        FreeStep(ids, i, free, live, ok);
        BackNext(chunks, head, ids, i);
        FreeOne(cardPaddr[i], ids[i]);
      }
      assert ids[0..] == ids;
    }

    lemma InRangeIds(addrs: seq<nat>, ids: seq<nat>)
      requires Sized() && Addresses(large, addrs, ids)
      ensures ChunkCount(large) == pool.chunks.Length && |addrs| == |ids|
      ensures forall i :: 0 <= i < |ids| ==> ids[i] < ChunkCount(large) && addrs[i] == Address(large, ids[i])
    {
      hide Address;
    }
  }

  lemma TakeNothing(chunks: seq<Chunk>, head: Option<nat>)
    requires Inside(chunks, head)
    ensures TakeMany(chunks, head, 0) == Some(([], chunks, head))
  {
  }

  lemma TakeStep(chunks: seq<Chunk>, head: Option<nat>, i: nat)
    requires Inside(chunks, head) && TakeMany(chunks, head, i).Some?
    ensures var (ids, c, h) := TakeMany(chunks, head, i).value;
      if h == None then TakeMany(chunks, head, i + 1) == None
      else
        var (c', h', id) := TakeOne(c, h.value, false);
        TakeMany(chunks, head, i + 1) == Some((ids + [id], c', h'))
  {
  }

  lemma {:induction false} TakeStops(chunks: seq<Chunk>, head: Option<nat>, i: nat, n: nat)
    requires Inside(chunks, head) && TakeMany(chunks, head, i + 1) == None && i < n
    ensures TakeMany(chunks, head, n) == None
    decreases n
  {
    if i + 1 < n {
      TakeStops(chunks, head, i, n - 1);
    }
  }

  /** A list in order hands out its chunks in order, and then the links end. */
  lemma {:induction false} AllTaken(chunks: seq<Chunk>, head: Option<nat>, free: seq<nat>, live: set<nat>, n: nat)
    requires Ordered(chunks, head, free, live)
    ensures Inside(chunks, head) && (TakeMany(chunks, head, n).Some? <==> n <= |free|)
    ensures n <= |free| ==>
      var (ids, c, h) := TakeMany(chunks, head, n).value;
      && (forall i :: 0 <= i < n ==> ids[i] == IdOf(|chunks|, free[i]))
      && (n < |free| ==> Ordered(c, h, free[n..], live + Elements(free[..n])))
      && (n == |free| ==> h == None)
    decreases n
  {
    hide *;
    OrderedParts(chunks, head, free, live);
    if n == 0 {
      TakeNothing(chunks, head);
      NothingLess(free, live);
    } else {
      AllTaken(chunks, head, free, live, n - 1);
      if n <= |free| {
        OneTaken(chunks, head, free, live, n - 1);
      } else {
        TakeNone(chunks, head, n - 1);
      }
    }
  }

  lemma NothingLess(free: seq<nat>, live: set<nat>)
    ensures free[0..] == free && live + Elements(free[..0]) == live
  {
  }

  lemma TakeNone(chunks: seq<Chunk>, head: Option<nat>, n: nat)
    requires Inside(chunks, head)
    requires TakeMany(chunks, head, n) == None || TakeMany(chunks, head, n).value.2 == None
    ensures TakeMany(chunks, head, n + 1) == None
  {
  }

  lemma OneTaken(chunks: seq<Chunk>, head: Option<nat>, free: seq<nat>, live: set<nat>, n: nat)
    requires Inside(chunks, head) && n < |free| && TakeMany(chunks, head, n).Some?
    requires var (ids, c, h) := TakeMany(chunks, head, n).value;
      && (forall i :: 0 <= i < n ==> ids[i] == IdOf(|chunks|, free[i]))
      && Ordered(c, h, free[n..], live + Elements(free[..n]))
    ensures TakeMany(chunks, head, n + 1).Some?
    ensures var (ids, c, h) := TakeMany(chunks, head, n + 1).value;
      && (forall i :: 0 <= i < n + 1 ==> ids[i] == IdOf(|chunks|, free[i]))
      && (n + 1 < |free| ==> Ordered(c, h, free[n + 1..], live + Elements(free[..n + 1])))
      && (n + 1 == |free| ==> h == None)
  {
    hide Ordered, Inside, Elements, TakeOne, TakeMany;
    var (ids, c, h) := TakeMany(chunks, head, n).value;
    OrderedParts(c, h, free[n..], live + Elements(free[..n]));
    TakeStep(chunks, head, n);
    ElementsNext(free, n);
    TakeKeeps(c, h, free[n..], live + Elements(free[..n]), false);
    TailId(c, h, free[n..], live + Elements(free[..n]));
    assert live + Elements(free[..n]) + {free[n]} == live + Elements(free[..n + 1]);
  }

  /** Only the tail has another id than its number. */
  lemma TailId(chunks: seq<Chunk>, head: Option<nat>, free: seq<nat>, live: set<nat>)
    requires Ordered(chunks, head, free, live)
    ensures free != [] && (|free| > 1 ==> free[0] < |chunks| - 1) && (|free| == 1 ==> free[0] == |chunks| - 1)
  {
    InRange(|chunks|, free, live);
  }

  /** What freeing one page does to the links. */
  function PutBack(chunks: seq<Chunk>, head: Option<nat>, id: nat): (r: (seq<Chunk>, Option<nat>))
    requires id < |chunks|
    ensures |r.0| == |chunks|
  {
    if chunks[id].used then (Relinked(chunks, head, id), Some(id)) else (chunks, head)
  }

  ghost predicate InPool(n: nat, ids: seq<nat>) {
    forall i :: 0 <= i < |ids| ==> ids[i] < n
  }

  /** The same for several pages, the last one first. */
  function PutAllBack(chunks: seq<Chunk>, head: Option<nat>, ids: seq<nat>): (r: (seq<Chunk>, Option<nat>))
    requires InPool(|chunks|, ids)
    ensures |r.0| == |chunks|
  {
    if ids == [] then (chunks, head) else
      var r := PutAllBack(chunks, head, ids[1..]);
      PutBack(r.0, r.1, ids[0])
  }

  lemma NothingBack(chunks: seq<Chunk>, head: Option<nat>, ids: seq<nat>)
    ensures InPool(|chunks|, ids[|ids|..]) && PutAllBack(chunks, head, ids[|ids|..]) == (chunks, head)
  {
  }

  lemma BackNext(chunks: seq<Chunk>, head: Option<nat>, ids: seq<nat>, i: nat)
    requires i < |ids| && InPool(|chunks|, ids[i + 1..]) && ids[i] < |chunks|
    ensures InPool(|chunks|, ids[i..])
    ensures var r := PutAllBack(chunks, head, ids[i + 1..]);
      PutAllBack(chunks, head, ids[i..]) == PutBack(r.0, r.1, ids[i])
  {
    assert ids[i..] == [ids[i]] + ids[i + 1..];
  }

  /** Pages whose chunks were never used are not linked in. */
  lemma {:induction false} FreedUnused(chunks: seq<Chunk>, head: Option<nat>, ids: seq<nat>)
    requires InPool(|chunks|, ids) && forall i :: 0 <= i < |ids| ==> !chunks[ids[i]].used
    ensures PutAllBack(chunks, head, ids) == (chunks, head)
  {
    if ids != [] {
      FreedUnused(chunks, head, ids[1..]);
    }
  }

  /** A page freed twice: its chunk is linked to itself, and the pool hands out nothing else. */
  lemma FreedTwice(chunks: seq<Chunk>, head: Option<nat>, free: seq<nat>, x: nat, k: nat)
    requires (forall i :: 0 <= i < |free| ==> free[i] < |chunks|) && Linked(chunks, head, free) && NoDuplicates(free)
    requires x < |chunks| && x !in free && chunks[x].used
    ensures var twice := PutAllBack(chunks, head, [x, x]);
      Follow(twice.0, twice.1, k) == Some(x)
  {
    var once := PutBack(chunks, head, x);
    assert [x, x][1..] == [x] && [x][1..] == [];
    assert PutAllBack(chunks, head, [x]) == once;
    assert ([x] + free)[0] == x && Linked(once.0, once.1, [x] + free);
    FreeTwiceLoops(once.0, once.1, [x] + free, 0, k);
  }

  /** Freeing exactly what one allocation returned restores the list, in the same order. */
  method AllocThenFree(pages: CardPool, cardPaddr: array<nat>, nPages: nat)
    requires pages.Valid() && nPages <= cardPaddr.Length && nPages <= pages.numFree && nPages < |pages.pool.free|
    modifies pages.pool, pages.pool.chunks, cardPaddr
    ensures pages.Valid() && pages.pool.free == old(pages.pool.free) && pages.pool.live == old(pages.pool.live)
  {
    hide *;
    ghost var free, live := pages.pool.free, pages.pool.live;
    ghost var ids := free[..nPages];
    TakenIds(pages, nPages);
    pages.ValidLinked();
    var ret := pages.Alloc(cardPaddr, nPages);
    ReturnedAddresses(pages.large, cardPaddr[..nPages], ids);
    WithoutTaken(free, live, nPages);
    pages.Free(cardPaddr, nPages, ids);
  }

  lemma WithoutTaken(free: seq<nat>, live: set<nat>, n: nat)
    requires n <= |free| && Elements(free[..n]) !! live
    ensures Elements(free[..n]) <= live + Elements(free[..n])
      && live + Elements(free[..n]) - Elements(free[..n]) == live
    ensures free[..n] + free[n..] == free
  {
  }

  lemma TakenIds(pages: CardPool, nPages: nat)
    requires pages.Valid() && nPages < |pages.pool.free|
    ensures var ids := pages.pool.free[..nPages];
      && NoDuplicates(ids) && Elements(ids) !! pages.pool.live && |ids| == nPages && pages.Sized()
      && forall i :: 0 <= i < nPages ==>
           ids[i] < ChunkCount(pages.large) && IdOf(ChunkCount(pages.large), ids[i]) == ids[i]
  {
    var free := pages.pool.free;
    assert forall i :: 0 <= i < |free| ==> free[i] in Elements(free);
    assert forall x :: x in Elements(free[..nPages]) ==> x in Elements(free);
  }

  lemma ReturnedAddresses(large: bool, addrs: seq<nat>, ids: seq<nat>)
    requires |addrs| == |ids|
    requires forall i :: 0 <= i < |ids| ==> ids[i] < ChunkCount(large) && addrs[i] == Address(large, ids[i])
    ensures Addresses(large, addrs, ids)
  {
  }

  // ----- Coyote PIDs -----

  const N_CPID_MAX: nat := 64

  /** Exactly the registered cpids are marked used, and the array holds their PIDs. */
  ghost predicate Owns(used: seq<bool>, pids: seq<int>, owner: map<nat, int>) {
    && |pids| == |used|
    && (forall k :: 0 <= k < |used| ==> (used[k] <==> k in owner))
    && (forall k :: k in owner ==> k < |pids| && pids[k] == owner[k])
  }

  lemma OwnsMore(used: seq<bool>, pids: seq<int>, owner: map<nat, int>, c: nat, pid: int)
    requires Owns(used, pids, owner) && c < |used| == |pids|
    ensures Owns(used[c := true], pids[c := pid], owner[c := pid])
  {
  }

  lemma OwnsLess(used: seq<bool>, pids: seq<int>, owner: map<nat, int>, c: nat)
    requires Owns(used, pids, owner) && c < |used|
    ensures used[c] <==> c in owner
    ensures Owns(used[c := false], pids, owner - {c})
    ensures c !in owner ==> owner - {c} == owner
  {
  }

  lemma UsedFlag(pool: ChunkPool, i: nat)
    requires i < pool.chunks.Length
    ensures pool.Used()[i] == pool.chunks[i].used
  {
  }

  class PidTable {
    const pool: ChunkPool
    const pidArray: array<int>
    /** The registered PID of every live cpid. */
    ghost var owner: map<nat, int>

    ghost predicate Shape() {
      pool.chunks.Length == pidArray.Length == N_CPID_MAX && pool.chunks as object != pidArray
    }

    ghost predicate Valid()
      reads this, pool, pool.chunks, pidArray
    {
      Shape() && pool.Valid() && owner.Keys == pool.live && Owns(pool.Used(), pidArray[..], owner)
    }

    constructor ()
      ensures Valid() && owner == map[] && fresh(pool) && fresh(pool.chunks) && fresh(pidArray)
      ensures pool.chunks.Length == 64 && pool.free == seq(64, i => i)
    {
      pool := new ChunkPool(N_CPID_MAX);
      pidArray := new int[N_CPID_MAX](i => 0);
      owner := map[];
    }

    /** The tail yields cpid 0 a second time, overwrites its PID, and leaves no list; the count of free
        chunks does not prevent it, and the next call follows a null pointer, for which `cpid` is None. */
    method RegisterPid(pid: int) returns (cpid: Option<nat>)
      requires Shape() && Inside(pool.chunks[..], pool.head)
      modifies this, pool, pool.chunks, pidArray
      ensures cpid == None <==> old(pool.head) == None
      ensures cpid.Some? ==>
        && cpid.value < N_CPID_MAX && pidArray[..] == old(pidArray[..])[cpid.value := pid]
        && (pool.chunks[..], pool.head, cpid.value) == TakeOne(old(pool.chunks[..]), old(pool.head).value, true)
      ensures old(Valid()) ==> cpid.Some?
      ensures old(Valid()) && |old(pool.free)| > 1 ==>
        && Valid() && cpid.value !in old(owner) && owner == old(owner)[cpid.value := pid]
        && pool.free == old(pool.free)[1..]
      ensures old(Valid()) && |old(pool.free)| == 1 ==> cpid == Some(0) && pool.head == None
    {
      if pool.head == None {
        if Valid() {
          HeadIsFree(pool);
        }
        return None;
      }
      if Valid() {
        HeadIsFree(pool);
      }
      hide *;
      var id := Take(pid);
      cpid := Some(id);
    }

    method Take(pid: int) returns (cpid: nat)
      requires Shape() && Inside(pool.chunks[..], pool.head) && pool.head.Some?
      modifies this, pool, pool.chunks, pidArray
      ensures cpid < N_CPID_MAX && pidArray[..] == old(pidArray[..])[cpid := pid]
      ensures (pool.chunks[..], pool.head, cpid) == TakeOne(old(pool.chunks[..]), old(pool.head).value, true)
      ensures old(Valid()) && |old(pool.free)| > 1 ==>
        Valid() && cpid == old(pool.free)[0] && owner == old(owner)[cpid := pid] && pool.free == old(pool.free)[1..]
      ensures old(Valid()) && |old(pool.free)| == 1 ==> cpid == 0 && pool.head == None
    {
      hide ChunkPool.Valid, ChunkPool.Used, Owns, Inside, TakeOne;
      ghost var used, pids, ok := pool.Used(), pidArray[..], Valid();
      cpid := pool.Pop(true);
      pidArray[cpid] := pid;
      if ok {
        OwnsMore(used, pids, owner, cpid, pid);
      }
      owner := owner[cpid := pid];
    }

    method Drop(cpid: nat)
      requires Shape() && pool.Valid() && cpid in pool.live && cpid < N_CPID_MAX && owner.Keys == pool.live
      requires Owns(pool.Used()[cpid := false], pidArray[..], owner - {cpid})
      modifies this, pool, pool.chunks
      ensures Valid() && owner == old(owner) - {cpid} && pool.free == [cpid] + old(pool.free)
    {
      hide ChunkPool.Valid, ChunkPool.Used, Owns;
      pool.Release(cpid);
      owner := owner - {cpid};
    }

    /** Unregistering a cpid that is not registered changes nothing. */
    method UnregisterPid(cpid: nat)
      requires Valid() && cpid < N_CPID_MAX
      modifies this, pool, pool.chunks
      ensures Valid() && owner == old(owner) - {cpid}
      ensures pool.free == if cpid in old(owner) then [cpid] + old(pool.free) else old(pool.free)
    {
      UsedFlag(pool, cpid);
      OwnsLess(pool.Used(), pidArray[..], owner, cpid);
      hide *;
      if pool.chunks[cpid].used {
        Drop(cpid);
      }
    }
  }

  lemma HeadIsFree(pool: ChunkPool)
    requires pool.Valid()
    ensures pool.free != [] && pool.free[0] !in pool.live && pool.free[0] < pool.chunks.Length && pool.head.Some?
  {
    assert pool.free[0] in Elements(pool.free);
  }

  lemma ElementsNext(s: seq<nat>, i: nat)
    requires i < |s|
    ensures Elements(s[..i + 1]) == Elements(s[..i]) + {s[i]}
    ensures s[i..][0] == s[i] && s[i..][1..] == s[i + 1..] && |s[i..]| == |s| - i
  {
    assert s[..i + 1] == s[..i] + [s[i]];
  }

  lemma IsUsed(pool: ChunkPool, id: nat)
    requires pool.Valid() && id in pool.live
    ensures id < pool.chunks.Length && pool.chunks[id].used
  {
  }

  /** The addresses are those of the chunks `ids`. */
  ghost predicate Addresses(large: bool, addrs: seq<nat>, ids: seq<nat>) {
    |addrs| == |ids| && forall i :: 0 <= i < |ids| ==> ids[i] < ChunkCount(large) && addrs[i] == Address(large, ids[i])
  }

  lemma NothingFreed(ids: seq<nat>, free: seq<nat>, live: set<nat>)
    ensures ids[|ids|..] + free == free && live - Elements(ids[|ids|..]) == live
  {
  }

  lemma FreeStep(ids: seq<nat>, i: nat, free: seq<nat>, live: set<nat>, ok: bool)
    requires i < |ids| && (ok ==> NoDuplicates(ids) && Elements(ids) <= live)
    ensures ok ==> ids[i] in live - Elements(ids[i + 1..])
    ensures [ids[i]] + (ids[i + 1..] + free) == ids[i..] + free
    ensures live - Elements(ids[i + 1..]) - {ids[i]} == live - Elements(ids[i..])
  {
    assert ids[i..] == [ids[i]] + ids[i + 1..];
    assert ids[i] in Elements(ids);
    assert Elements(ids[i..]) == Elements(ids[i + 1..]) + {ids[i]};
  }
}
