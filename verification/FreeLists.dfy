/** The chunk free lists of the driver: `next` links threaded through an array, used for the card
    pages (fpga_mmu.c) and for the Coyote PIDs (fpga_fops.c), set up in fpga_dev.c. */
module FreeLists {
  import opened Arith
  import opened Options
  import opened Collections

  datatype Chunk = Chunk(used: bool, id: nat, next: Option<nat>)

  ghost predicate NoDuplicates(s: seq<nat>) {
    forall i, j :: 0 <= i < j < |s| ==> s[i] != s[j]
  }

  ghost function Range(n: nat): (r: set<nat>)
    ensures forall x :: x in r <==> 0 <= x < n
  {
    if n == 0 then {} else Range(n - 1) + {n - 1}
  }

  ghost function Elements(s: seq<nat>): set<nat> {
    set x | x in s
  }

  /** The free chunks in list order, ending at the tail chunk, and the live ones make up all chunks. */
  ghost predicate Partition(n: nat, free: seq<nat>, live: set<nat>) {
    && NoDuplicates(free) && free != [] && free[|free| - 1] == n - 1
    && Elements(free) !! live && Elements(free) + live == Range(n)
  }

  /** The links spell the list: each free chunk leads to the next one, and the tail to none. */
  ghost predicate Linked(chunks: seq<Chunk>, head: Option<nat>, free: seq<nat>)
    requires forall i :: 0 <= i < |free| ==> free[i] < |chunks|
  {
    && free != [] && head == Some(free[0])
    && (forall i :: 0 <= i < |free| - 1 ==> chunks[free[i]].next == Some(free[i + 1]))
    && chunks[free[|free| - 1]].next == None
  }

  /** The setup loop stops before the tail chunk, which keeps id 0 and no successor. */
  function IdOf(n: nat, i: nat): nat {
    if i == n - 1 then 0 else i
  }

  ghost predicate Numbered(chunks: seq<Chunk>) {
    forall i :: 0 <= i < |chunks| ==> chunks[i].id == IdOf(|chunks|, i)
  }

  ghost function Flags(chunks: seq<Chunk>): (u: seq<bool>)
    ensures |u| == |chunks|
  {
    seq(|chunks|, i requires 0 <= i < |chunks| => chunks[i].used)
  }

  lemma TakeHead(n: nat, free: seq<nat>, live: set<nat>)
    requires Partition(n, free, live) && |free| > 1
    ensures Partition(n, free[1..], live + {free[0]})
    ensures free[0] < n - 1 && free[0] !in live
  {
    assert free[0] in Elements(free) && free[|free| - 1] in Elements(free);
    assert free == [free[0]] + free[1..];
    assert Elements(free) == Elements(free[1..]) + {free[0]};
  }

  lemma GiveHead(n: nat, free: seq<nat>, live: set<nat>, x: nat)
    requires Partition(n, free, live) && x in live
    ensures Partition(n, [x] + free, live - {x})
    ensures x < n - 1 && forall i :: 0 <= i < |free| ==> free[i] != x
  {
    assert free[|free| - 1] in Elements(free);
    assert x in Range(n);
    assert Elements([x] + free) == Elements(free) + {x};
    assert forall i :: 0 <= i < |free| ==> free[i] in Elements(free);
  }

  /** Linking a chunk in front keeps the list in order exactly when the chunk is live. */
  lemma GiveIff(n: nat, free: seq<nat>, live: set<nat>, x: nat)
    requires Partition(n, free, live) && x < n
    ensures Partition(n, [x] + free, live - {x}) <==> x in live
  {
    if x in live {
      GiveHead(n, free, live, x);
    } else {
      assert x in Range(n) && x in Elements(free);
      var k :| 0 <= k < |free| && free[k] == x;
      assert ([x] + free)[0] == ([x] + free)[k + 1];
    }
  }

  lemma InRange(n: nat, free: seq<nat>, live: set<nat>)
    requires Partition(n, free, live)
    ensures forall i :: 0 <= i < |free| ==> free[i] < n
    ensures forall x :: x in live ==> x < n
  {
    assert forall i :: 0 <= i < |free| ==> free[i] in Elements(free);
    assert forall x :: x in live ==> x in Range(n);
  }

  lemma {:induction false} Count(s: seq<nat>)
    requires NoDuplicates(s)
    ensures |Elements(s)| == |s|
  {
    if s != [] {
      var front, x := s[..|s| - 1], s[|s| - 1];
      Count(front);
      assert s == front + [x];
      assert Elements(s) == Elements(front) + {x};
    }
  }

  lemma {:induction false} RangeSize(n: nat)
    ensures |Range(n)| == n
  {
    if n > 0 {
      RangeSize(n - 1);
    }
  }

  /** There are at most as many free chunks as chunks. */
  lemma FreeAtMost(n: nat, free: seq<nat>, live: set<nat>)
    requires Partition(n, free, live)
    ensures |free| <= n
  {
    Count(free);
    RangeSize(n);
    SubsetSize(Elements(free), Range(n));
  }

  /** Taking `count` chunks hands out distinct ids that no live chunk has exactly while the tail
      chunk stays: its id 0 belongs to chunk 0 as well. */
  lemma TakeSafeIff(n: nat, free: seq<nat>, live: set<nat>, count: nat)
    requires n >= 2 && Partition(n, free, live) && count <= |free|
    ensures
      && (forall i, j :: 0 <= i < j < count ==> IdOf(n, free[i]) != IdOf(n, free[j]))
      && (forall i, x :: 0 <= i < count && x in live ==> IdOf(n, free[i]) != x)
      <==> count < |free|
  {
    InRange(n, free, live);
    assert forall i :: 0 <= i < |free| ==> free[i] in Elements(free);
    if count == |free| {
      assert 0 in Range(n);
      assert IdOf(n, free[|free| - 1]) == 0;
      if 0 !in live {
        assert 0 in Elements(free);
        var k :| 0 <= k < |free| && free[k] == 0;
        assert k < |free| - 1 && IdOf(n, free[k]) == 0;
      }
    } else {
      assert forall i :: 0 <= i < count ==> IdOf(n, free[i]) == free[i];
    }
  }

  // ----- Following the links -----

  /** The chunk after k links. */
  function Follow(chunks: seq<Chunk>, head: Option<nat>, k: nat): Option<nat> {
    if k == 0 then head else
      match Follow(chunks, head, k - 1)
      case None => None
      case Some(x) => if x < |chunks| then chunks[x].next else None
  }

  /** Linking a chunk in front, whatever it is linked to already. */
  function Relinked(chunks: seq<Chunk>, head: Option<nat>, x: nat): (c: seq<Chunk>)
    requires x < |chunks|
    ensures |c| == |chunks|
  {
    chunks[x := chunks[x].(next := head)]
  }

  /** The links of a list in order lead through all its chunks to the tail, and end there. */
  lemma {:induction false} FollowList(chunks: seq<Chunk>, head: Option<nat>, free: seq<nat>, k: nat)
    requires (forall i :: 0 <= i < |free| ==> free[i] < |chunks|) && Linked(chunks, head, free) && k <= |free|
    ensures Follow(chunks, head, k) == if k < |free| then Some(free[k]) else None
  {
    if k > 0 {
      FollowList(chunks, head, free, k - 1);
    }
  }

  /** Freeing a free chunk: the links run in a circle through it and the chunks in front of it.  They never
      end, and the chunks behind it, the tail among them, are lost. */
  lemma {:induction false} FreeTwiceLoops(chunks: seq<Chunk>, head: Option<nat>, free: seq<nat>, j: nat, k: nat)
    requires (forall i :: 0 <= i < |free| ==> free[i] < |chunks|) && Linked(chunks, head, free)
    requires NoDuplicates(free) && j < |free|
    ensures var p := k % (j + 1);
      Follow(Relinked(chunks, head, free[j]), Some(free[j]), k) == Some(if p == 0 then free[j] else free[p - 1])
    ensures forall m :: j < m < |free| ==> Follow(Relinked(chunks, head, free[j]), Some(free[j]), k) != Some(free[m])
  {
    if k > 0 {
      FreeTwiceLoops(chunks, head, free, j, k - 1);
      var q := (k - 1) % (j + 1);
      NextMod(k - 1, j + 1);
      assert k % (j + 1) == if q == j then 0 else q + 1;
    }
  }

  lemma NextMod(k: nat, m: nat)
    requires m > 0
    ensures (k + 1) % m == if k % m == m - 1 then 0 else k % m + 1
  {
    var q, r := k / m, k % m;
    assert k == q * m + r;
    if r == m - 1 {
      assert k + 1 == (q + 1) * m;
      DivModUnique(m, q + 1, 0);
    } else {
      DivModUnique(m, q, r + 1);
    }
  }

  // ----- Links of any kind -----

  /** All links and ids stay inside the pool. */
  ghost predicate Inside(chunks: seq<Chunk>, head: Option<nat>) {
    && (head.Some? ==> head.value < |chunks|)
    && forall i :: 0 <= i < |chunks| ==>
         chunks[i].id < |chunks| && (chunks[i].next.Some? ==> chunks[i].next.value < |chunks|)
  }

  /** What taking the head chunk leaves, and its id; `byId` marks the chunk of that id instead. */
  function TakeOne(chunks: seq<Chunk>, head: nat, byId: bool): (r: (seq<Chunk>, Option<nat>, nat))
    requires Inside(chunks, Some(head))
    ensures |r.0| == |chunks| && Inside(r.0, r.1) && r.2 < |chunks|
  {
    var id := chunks[head].id;
    var i := if byId then id else head;
    (chunks[i := chunks[i].(used := true)], chunks[head].next, id)
  }

  /** The ids of the first `n` chunks taken one after the other, and what is left; None when the links end before. */
  function TakeMany(chunks: seq<Chunk>, head: Option<nat>, n: nat): (r: Option<(seq<nat>, seq<Chunk>, Option<nat>)>)
    requires Inside(chunks, head)
    ensures r.Some? ==> |r.value.0| == n && |r.value.1| == |chunks| && Inside(r.value.1, r.value.2)
  {
    if n == 0 then Some(([], chunks, head)) else
      match TakeMany(chunks, head, n - 1)
      case None => None
      case Some((ids, c, h)) =>
        if h == None then None else
          var (c', h', id) := TakeOne(c, h.value, false);
          Some((ids + [id], c', h'))
  }

  /** The chunks hold the free list in order, ending at the tail, and mark the live ones used. */
  ghost predicate Ordered(chunks: seq<Chunk>, head: Option<nat>, free: seq<nat>, live: set<nat>) {
    && Partition(|chunks|, free, live) && Inside(chunks, head)
    && (forall i :: 0 <= i < |free| ==> free[i] < |chunks|)
    && Linked(chunks, head, free) && Numbered(chunks)
    && forall x :: x in live ==> x < |chunks| && chunks[x].used
  }

  lemma TakeKeeps(chunks: seq<Chunk>, head: Option<nat>, free: seq<nat>, live: set<nat>, byId: bool)
    requires Ordered(chunks, head, free, live) && head.Some?
    ensures var r := TakeOne(chunks, head.value, byId);
      && (|free| > 1 ==>
            && r.2 == free[0] < |chunks| - 1 && Ordered(r.0, r.1, free[1..], live + {free[0]})
            && Flags(r.0) == Flags(chunks)[free[0] := true])
      && (|free| == 1 ==> r.2 == 0 && r.1 == None)
  {
    InRange(|chunks|, free, live);
    if |free| > 1 {
      TakeHead(|chunks|, free, live);
      assert chunks[free[0]].id == free[0];
      hide Partition, Range;
      var c := TakeOne(chunks, head.value, byId).0;
      assert forall i :: 0 <= i < |free| - 1 ==> free[1..][i] == free[i + 1];
      assert forall x :: 0 <= x < |c| && x != free[0] ==> c[x] == chunks[x];
      assert c[free[0]] == chunks[free[0]].(used := true);
    }
  }

  lemma GiveKeeps(chunks: seq<Chunk>, head: Option<nat>, free: seq<nat>, live: set<nat>, x: nat)
    requires Ordered(chunks, head, free, live) && x in live
    ensures x < |chunks| && Ordered(Relinked(chunks, head, x), Some(x), [x] + free, live - {x})
    ensures Flags(Relinked(chunks, head, x)) == Flags(chunks)
  {
    GiveHead(|chunks|, free, live, x);
    InRange(|chunks|, free, live);
    hide Partition, Range;
    var c := Relinked(chunks, head, x);
    assert x !in free;
    assert forall i :: 0 <= i < |free| ==> c[free[i]] == chunks[free[i]];
  }

  lemma OrderedParts(chunks: seq<Chunk>, head: Option<nat>, free: seq<nat>, live: set<nat>)
    requires Ordered(chunks, head, free, live)
    ensures Inside(chunks, head) && free != [] && head == Some(free[0]) && free[0] < |chunks|
  {
  }

  class ChunkPool {
    const chunks: array<Chunk>
    var head: Option<nat>
    ghost var free: seq<nat>
    ghost var live: set<nat>

    ghost predicate Valid()
      reads this, chunks
    {
      Ordered(chunks[..], head, free, live)
    }

    /** The `used` flags. */
    ghost function Used(): (u: seq<bool>)
      reads chunks
      ensures |u| == chunks.Length
    {
      Flags(chunks[..])
    }

    constructor (n: nat)
      requires n > 0
      ensures Valid() && fresh(chunks) && chunks.Length == n && live == {} && free == seq(n, i => i)
      ensures Used() == seq(n, i => false)
    {
      chunks := new Chunk[n](i => Chunk(false, 0, None));
      head := Some(0);
      free, live := seq(n, i => i), {};
      new;
      for i := 0 to n - 1
        invariant head == Some(0) && free == seq(n, i => i) && live == {}
        invariant forall k :: 0 <= k < i ==> chunks[k] == Chunk(false, k, Some(k + 1))
        invariant forall k :: i <= k < n ==> chunks[k] == Chunk(false, 0, None)
      {
        chunks[i] := Chunk(false, i, Some(i + 1));
      }
      AllFree(chunks[..]);
    }

    /** Unlink the head chunk and mark it used, or the one of its id: the same except for the tail.  Taking
        the tail yields id 0 a second time and leaves no list. */
    method Pop(byId: bool) returns (id: nat)
      requires Inside(chunks[..], head) && head.Some?
      modifies this, chunks
      ensures (chunks[..], head, id) == TakeOne(old(chunks[..]), old(head).value, byId)
      ensures var x := old(head).value;
        var i := if byId then id else x;
        && i < chunks.Length && id == old(chunks[..])[x].id && head == old(chunks[..])[x].next
        && chunks[..] == old(chunks[..])[i := old(chunks[..])[i].(used := true)]
      ensures old(Valid()) && |old(free)| > 1 ==>
        && Valid() && id == old(free)[0] < chunks.Length - 1 && free == old(free)[1..] && live == old(live) + {id}
        && Used() == old(Used())[id := true]
      ensures old(Valid()) && |old(free)| == 1 ==> id == 0 && head == None
    {
      hide Ordered, Flags;
      if Valid() {
        OrderedParts(chunks[..], head, free, live);
        TakeKeeps(chunks[..], head, free, live, byId);
      }
      id := chunks[head.value].id;
      var i := if byId then id else head.value;
      chunks[i] := chunks[i].(used := true);
      live := live + {head.value};
      free := if free == [] then [] else free[1..];
      head := chunks[head.value].next;
    }

    /** A list in order has links inside the pool. */
    lemma ValidInside()
      requires Valid()
      ensures Inside(chunks[..], head) && head.Some? && free != []
    {
    }

    /** Link a chunk in front, whatever its state. */
    method Push(i: nat)
      requires i < chunks.Length
      modifies this, chunks
      ensures chunks[..] == Relinked(old(chunks[..]), old(head), i) && head == Some(i)
      ensures old(Valid()) && i in old(live) ==> Valid() && free == [i] + old(free) && live == old(live) - {i}
    {
      hide Ordered;
      if Valid() && i in live {
        GiveKeeps(chunks[..], head, free, live, i);
      }
      chunks[i] := chunks[i].(next := head);
      head := Some(i);
      live := live - {i};
      free := [i] + free;
    }

    /** Link a chunk in front and mark it unused. */
    method Release(i: nat)
      requires Valid() && i in live && i < chunks.Length
      modifies this, chunks
      ensures Valid() && free == [i] + old(free) && live == old(live) - {i}
      ensures Used() == old(Used())[i := false]
    {
      hide Ordered, Flags;
      GiveKeeps(chunks[..], head, free, live, i);
      Push(i);
      MarkUnused(i);
    }

    method MarkUnused(i: nat)
      requires Valid() && i < chunks.Length && i !in live
      modifies chunks
      ensures Valid()
      ensures Used() == old(Used())[i := false]
    {
      hide Ordered, Flags;
      MarkKeeps(chunks[..], head, free, live, i);
      chunks[i] := chunks[i].(used := false);
    }
  }

  lemma MarkKeeps(chunks: seq<Chunk>, head: Option<nat>, free: seq<nat>, live: set<nat>, i: nat)
    requires Ordered(chunks, head, free, live) && i < |chunks| && i !in live
    ensures var c := chunks[i := chunks[i].(used := false)];
      Ordered(c, head, free, live) && Flags(c) == Flags(chunks)[i := false]
  {
    hide Partition;
  }

  /** The setup leaves all chunks in the list. */
  lemma AllFree(chunks: seq<Chunk>)
    requires chunks != []
    requires forall k :: 0 <= k < |chunks| - 1 ==> chunks[k] == Chunk(false, k, Some(k + 1))
    requires chunks[|chunks| - 1] == Chunk(false, 0, None)
    ensures Ordered(chunks, Some(0), seq(|chunks|, i => i), {})
    ensures Flags(chunks) == seq(|chunks|, i => false)
  {
    var n := |chunks|;
    var free := seq(n, i => i);
    assert forall x :: x in Range(n) ==> free[x] == x;
    assert Elements(free) == Range(n);
  }
}
