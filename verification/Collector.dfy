/** Collector.hpp: folds a stream of (key, value) items into 2^K buckets, and dumps and clears the
    buckets at the end of every batch.  The memory is pipelined: a read may miss the last two
    writes, which the forwarding registers and the settle states make up for. */
module Collectors {
  import opened Flits
  import opened Options

  datatype KV<V> = KV(key: nat, val: V)

  // ----- What a batch amounts to -----

  /** f folded over the values of key `k`, starting at `zero`. */
  function FoldKey<V>(f: (V, V) -> V, zero: V, items: seq<KV<V>>, k: nat): V {
    if items == [] then zero else
      var x := items[|items| - 1];
      var before := FoldKey(f, zero, items[..|items| - 1], k);
      if x.key == k then f(x.val, before) else before
  }

  /** The folds of all keys, in key order. */
  function Folds<V>(f: (V, V) -> V, zero: V, size: nat, items: seq<KV<V>>): (r: seq<V>)
    ensures |r| == size
  {
    seq(size, k requires 0 <= k < size => FoldKey(f, zero, items, k))
  }

  /** What is dumped for the batches: their folds, each batch with the flag on its final value. */
  function Dumps<V>(f: (V, V) -> V, zero: V, size: nat, batches: seq<seq<KV<V>>>): seq<Flit<V>> {
    if batches == [] then [] else
      Dumps(f, zero, size, batches[..|batches| - 1]) + Join(Folds(f, zero, size, batches[|batches| - 1]))
  }

  function AllFolds<V>(f: (V, V) -> V, zero: V, size: nat, batches: seq<seq<KV<V>>>): seq<seq<V>> {
    seq(|batches|, b requires 0 <= b < |batches| => Folds(f, zero, size, batches[b]))
  }

  lemma FoldSnoc<V>(f: (V, V) -> V, zero: V, items: seq<KV<V>>, x: KV<V>, k: nat)
    ensures var before := FoldKey(f, zero, items, k);
      FoldKey(f, zero, items + [x], k) == if x.key == k then f(x.val, before) else before
  {
    assert (items + [x])[..|items|] == items;
  }

  lemma DumpsSnoc<V>(f: (V, V) -> V, zero: V, size: nat, batches: seq<seq<KV<V>>>, batch: seq<KV<V>>)
    ensures Dumps(f, zero, size, batches + [batch]) == Dumps(f, zero, size, batches) + Join(Folds(f, zero, size, batch))
  {
    assert (batches + [batch])[..|batches|] == batches;
  }

  /** The dumps of n batches are n batches again: `size` values each, value k the fold of key k,
      only the final one flagged. */
  lemma {:induction false} DumpsSplit<V>(f: (V, V) -> V, zero: V, size: nat, batches: seq<seq<KV<V>>>)
    requires size > 0
    ensures Split(Dumps(f, zero, size, batches)) == Batches(AllFolds(f, zero, size, batches), [])
  {
    if batches != [] {
      var n := |batches| - 1;
      DumpsSplit(f, zero, size, batches[..n]);
      SplitJoin(Dumps(f, zero, size, batches[..n]), Folds(f, zero, size, batches[n]));
    }
  }

  lemma {:induction false} DumpsPrefix<V>(f: (V, V) -> V, zero: V, size: nat, a: seq<seq<KV<V>>>, b: seq<seq<KV<V>>>)
    requires a <= b
    ensures Dumps(f, zero, size, a) <= Dumps(f, zero, size, b)
    decreases |b|
  {
    if a != b {
      DumpsPrefix(f, zero, size, a, b[..|b| - 1]);
    }
  }

  // ----- The pipelined memory -----

  /** A pending or past write. */
  datatype Reg<V> = Off | On(key: nat, val: V)

  predicate InRange<V>(r: Reg<V>, size: nat) {
    r.On? ==> r.key < size
  }

  predicate Hits<V>(r: Reg<V>, k: nat) {
    r.On? && r.key == k
  }

  function Written<V>(mem: seq<V>, r: Reg<V>): (w: seq<V>)
    requires InRange(r, |mem|)
    ensures |w| == |mem|
  {
    if r.On? then mem[r.key := r.val] else mem
  }

  /** The first match among the forwarding registers, or else what the memory port shows. */
  function Forward<V>(z: Reg<V>, zz: Reg<V>, zzz: Reg<V>, k: nat, shown: V): V {
    if Hits(z, k) then z.val else if Hits(zz, k) then zz.val else if Hits(zzz, k) then zzz.val else shown
  }

  /** `zz` is the write that turned `older` into `mem`, and `zzz` the one before it. */
  ghost predicate Trails<V>(mem: seq<V>, older: seq<V>, zz: Reg<V>, zzz: Reg<V>) {
    && |older| == |mem| && InRange(zz, |mem|) && InRange(zzz, |mem|)
    && mem == Written(older, zz)
    && (zzz.On? ==> older[zzz.key] == zzz.val)
  }

  /** What a read of key `k` may show: the memory with all writes, without the write of this call,
      or without those of this call and the previous one. */
  predicate MayShow<V(==)>(mem: seq<V>, older: seq<V>, z: Reg<V>, k: nat, shown: V)
    requires |older| == |mem| && InRange(z, |mem|) && k < |mem|
  {
    shown == Written(mem, z)[k] || shown == mem[k] || shown == older[k]
  }

  /** Forwarding hides the latency of the memory: whichever of the three the read shows, the value
      used is the up-to-date bucket. */
  lemma ForwardingIsCurrent<V>(mem: seq<V>, older: seq<V>, z: Reg<V>, zz: Reg<V>, zzz: Reg<V>, k: nat, shown: V)
    requires Trails(mem, older, zz, zzz) && InRange(z, |mem|) && k < |mem| && MayShow(mem, older, z, k, shown)
    ensures Forward(z, zz, zzz, k, shown) == Written(mem, z)[k]
  {
  }

  // ----- The machine -----

  datatype State = FEED | SETTLE1 | SETTLE2 | DUMP

  /** The buckets, and the outputs emitted so far, as functions of the items taken. */
  ghost predicate Agrees<V>(f: (V, V) -> V, zero: V, st: State, ptr: nat, buckets: seq<V>, b: Batches<KV<V>>,
                            emitted: seq<Flit<V>>) {
    var size := |buckets|;
    if st == FEED then
      && ptr == 0 && emitted == Dumps(f, zero, size, b.done)
      && forall k :: 0 <= k < size ==> buckets[k] == FoldKey(f, zero, b.cur, k)
    else
      && b.cur == [] && b.done != [] && ptr < size && (st != DUMP ==> ptr == 0)
      && var batch := b.done[|b.done| - 1];
         && emitted == Dumps(f, zero, size, b.done[..|b.done| - 1]) + Join(Folds(f, zero, size, batch))[..ptr]
         && (forall k :: ptr <= k < size ==> buckets[k] == FoldKey(f, zero, batch, k))
         && (forall k :: 0 <= k < ptr ==> buckets[k] == zero)
  }

  /** After SETTLE1 the pending write has reached the memory; while dumping, the part still to be
      dumped has been stable for two calls. */
  ghost predicate Settled<V>(st: State, ptr: nat, mem: seq<V>, older: seq<V>, z: Reg<V>)
    requires |older| == |mem| && InRange(z, |mem|)
  {
    && (st == SETTLE2 ==> Written(mem, z) == mem)
    && (st == DUMP ==> forall k :: ptr <= k < |mem| ==> Written(mem, z)[k] == mem[k] == older[k])
  }

  function Waited(st: State): State {
    if st == SETTLE1 then SETTLE2 else if st == SETTLE2 then DUMP else st
  }

  /** A call that only waits: repeating the pending write changes nothing. */
  lemma WaitSettles<V>(st: State, ptr: nat, before: seq<V>, older: seq<V>, z: Reg<V>)
    requires |older| == |before| && InRange(z, |before|) && Settled(st, ptr, before, older, z)
    ensures Written(Written(before, z), z) == Written(before, z)
    ensures Settled(Waited(st), ptr, Written(before, z), before, z)
  {
  }

  lemma DumpSettles<V>(ptr: nat, before: seq<V>, older: seq<V>, z: Reg<V>, zero: V)
    requires |older| == |before| && InRange(z, |before|) && ptr < |before| && Settled(DUMP, ptr, before, older, z)
    ensures Settled(DUMP, ptr + 1, Written(before, z), before, On(ptr, zero))
  {
  }

  lemma FeedSettled<V>(st: State, ptr: nat, mem: seq<V>, older: seq<V>, z: Reg<V>)
    requires |older| == |mem| && InRange(z, |mem|) && (st == FEED || st == SETTLE1)
    ensures Settled(st, ptr, mem, older, z)
  {
  }

  lemma AgreesWaiting<V>(f: (V, V) -> V, zero: V, st: State, ptr: nat, buckets: seq<V>, b: Batches<KV<V>>,
                         emitted: seq<Flit<V>>)
    requires st != FEED && Agrees(f, zero, st, ptr, buckets, b, emitted)
    ensures Agrees(f, zero, Waited(st), ptr, buckets, b, emitted)
  {
  }

  lemma TakeItem<V>(f: (V, V) -> V, zero: V, buckets: seq<V>, items: seq<Flit<KV<V>>>, x: Flit<KV<V>>,
                    emitted: seq<Flit<V>>)
    requires Agrees(f, zero, FEED, 0, buckets, Split(items), emitted) && x.val.key < |buckets|
    ensures Agrees(f, zero, if x.last then SETTLE1 else FEED, 0, buckets[x.val.key := f(x.val.val, buckets[x.val.key])],
                   Split(items + [x]), emitted)
  {
    SplitSnoc(items, x);
    var b := Split(items);
    forall k | 0 <= k < |buckets|
      ensures buckets[x.val.key := f(x.val.val, buckets[x.val.key])][k] == FoldKey(f, zero, b.cur + [x.val], k)
    {
      FoldSnoc(f, zero, b.cur, x.val, k);
    }
    assert (b.done + [b.cur + [x.val]])[..|b.done|] == b.done;
    assert emitted + [] == emitted;
  }

  /** Dumping key `ptr` emits its fold and clears its bucket; the last key starts the next batch
      from all-zero buckets. */
  lemma DumpItem<V>(f: (V, V) -> V, zero: V, ptr: nat, buckets: seq<V>, b: Batches<KV<V>>, emitted: seq<Flit<V>>)
    requires Agrees(f, zero, DUMP, ptr, buckets, b, emitted)
    ensures var last := ptr == |buckets| - 1;
      Agrees(f, zero, if last then FEED else DUMP, if last then 0 else ptr + 1, buckets[ptr := zero], b,
             emitted + [Flit(last, buckets[ptr])])
  {
    var size := |buckets|;
    var prior, batch := b.done[..|b.done| - 1], b.done[|b.done| - 1];
    var d := Join(Folds(f, zero, size, batch));
    assert d[..ptr + 1] == d[..ptr] + [d[ptr]];
    assert emitted + [d[ptr]] == Dumps(f, zero, size, prior) + d[..ptr + 1];
    if ptr == size - 1 {
      assert b.done == prior + [batch] && d[..size] == d;
      DumpsSnoc(f, zero, size, prior, batch);
    }
  }

  /** What has been emitted is the beginning of the dumps of the finished batches; all of them when the
      machine feeds. */
  lemma EmittedPrefix<V>(f: (V, V) -> V, zero: V, st: State, ptr: nat, buckets: seq<V>, b: Batches<KV<V>>,
                         emitted: seq<Flit<V>>)
    requires Agrees(f, zero, st, ptr, buckets, b, emitted)
    ensures emitted <= Dumps(f, zero, |buckets|, b.done)
    ensures st == FEED ==> emitted == Dumps(f, zero, |buckets|, b.done)
  {
    hide *;
    AgreesEmitted(f, zero, st, ptr, buckets, b, emitted);
    if st != FEED {
      var front, batch := b.done[..|b.done| - 1], b.done[|b.done| - 1];
      DumpsSnoc(f, zero, |buckets|, front, batch);
      assert front + [batch] == b.done;
      BeginningOfSum(Dumps(f, zero, |buckets|, front), Join(Folds(f, zero, |buckets|, batch)), ptr);
    }
  }

  lemma AgreesEmitted<V>(f: (V, V) -> V, zero: V, st: State, ptr: nat, buckets: seq<V>, b: Batches<KV<V>>,
                         emitted: seq<Flit<V>>)
    requires Agrees(f, zero, st, ptr, buckets, b, emitted)
    ensures st == FEED ==> emitted == Dumps(f, zero, |buckets|, b.done)
    ensures st != FEED ==>
      && b.done != [] && ptr < |buckets|
      && var before, d := b.done[..|b.done| - 1], Join(Folds(f, zero, |buckets|, b.done[|b.done| - 1]));
         emitted == Dumps(f, zero, |buckets|, before) + d[..ptr]
  {
    hide FoldKey, Dumps, Folds, Join;
  }

  lemma BeginningOfSum<T>(a: seq<T>, b: seq<T>, k: nat)
    requires k <= |b|
    ensures a + b[..k] <= a + b
  {
  }

  /** The controlling registers: state, dump pointer, and whether an output is pending. */
  datatype Control = Control(state: State, ptr: nat, pending: bool)

  /** One call: a pending output that is taken makes way for the next one; `gotLast` tells whether the last item of a
      batch has been read. */
  function ControlNext(size: nat, c: Control, gotLast: bool, ready: bool): Control {
    var pending := c.pending && !ready;
    match c.state
    case FEED => Control(if gotLast then SETTLE1 else FEED, c.ptr, pending)
    case SETTLE1 => Control(SETTLE2, c.ptr, pending)
    case SETTLE2 => Control(DUMP, c.ptr, pending)
    case DUMP =>
      if pending then Control(DUMP, c.ptr, true)
      else if c.ptr + 1 == size then Control(FEED, 0, true)
      else Control(DUMP, c.ptr + 1, true)
  }

  function GotLast<V>(st: State, x: Option<Flit<KV<V>>>): bool {
    st == FEED && x.Some? && x.value.last
  }

  class Collector<V(==)> {
    const f: (V, V) -> V
    const zero: V
    const mem: array<V>
    var state: State
    var dumpPtr: nat
    var z: Reg<V>
    var zz: Reg<V>
    var zzz: Reg<V>
    var y: Option<Flit<V>>
    /** The memory as it was before the write of the previous call. */
    var older: seq<V>
    ghost var taken: seq<Flit<KV<V>>>
    ghost var sent: seq<Flit<V>>

    /** The up-to-date buckets: the memory with the pending write. */
    ghost function Buckets(): seq<V>
      requires InRange(z, mem.Length)
      reads this, mem
    {
      Written(mem[..], z)
    }

    function Registers(): Control
      reads this
    {
      Control(state, dumpPtr, y.Some?)
    }

    ghost function Emitted(): seq<Flit<V>>
      reads this
    {
      if y.Some? then sent + [y.value] else sent
    }

    ghost predicate Valid()
      reads this, mem
    {
      && mem.Length > 0 && InRange(z, mem.Length)
      && Trails(mem[..], older, zz, zzz)
      && Settled(state, dumpPtr, mem[..], older, z)
      && Agrees(f, zero, state, dumpPtr, Buckets(), Split(taken), Emitted())
    }

    constructor (f: (V, V) -> V, zero: V, size: nat)
      requires size > 0
      ensures Valid() && fresh(mem) && mem.Length == size && this.f == f && this.zero == zero
      ensures taken == [] && sent == [] && y == None && state == FEED
    {
      this.f, this.zero := f, zero;
      mem := new V[size](i => zero);
      state, dumpPtr, z, zz, zzz, y := FEED, 0, Off, Off, Off, None;
      older := seq(size, i => zero);
      taken, sent := [], [];
    }

    /** The start of a call: the pending write reaches the memory. */
    method Commit()
      requires mem.Length > 0 && InRange(z, mem.Length)
      modifies mem
      ensures mem[..] == Written(old(mem[..]), z)
    {
      if z.On? {
        mem[z.key] := z.val;
      }
    }

    /** A read of the memory port; `miss` of the last two writes may not show yet. */
    method Port(k: nat, before: seq<V>, miss: nat) returns (shown: V)
      requires InRange(z, mem.Length) && k < mem.Length == |before| == |older| && mem[..] == Written(before, z)
      ensures MayShow(before, older, z, k, shown)
    {
      shown := if miss == 0 then mem[k] else if miss == 1 then before[k] else older[k];
    }

    /** FEED: fold the item that is there, if any, into its bucket. */
    method Feed(x: Option<Flit<KV<V>>>, before: seq<V>, miss: nat)
      requires state == FEED && mem.Length > 0 && InRange(z, mem.Length) && |before| == mem.Length
      requires Trails(before, older, zz, zzz) && mem[..] == Written(before, z)
      requires Agrees(f, zero, FEED, dumpPtr, mem[..], Split(taken), Emitted())
      requires x.Some? ==> x.value.val.key < mem.Length
      modifies this`z, this`state, this`taken
      ensures InRange(z, mem.Length) && state == if x.Some? && x.value.last then SETTLE1 else FEED
      ensures Agrees(f, zero, state, dumpPtr, Buckets(), Split(taken), Emitted())
      ensures taken == if x.Some? then old(taken) + [x.value] else old(taken)
    {
      match x
      case None =>
        z := Off;
      case Some(item) =>
        var shown := Port(item.val.key, before, miss);
        ForwardingIsCurrent(before, older, z, zz, zzz, item.val.key, shown);
        var val := f(item.val.val, Forward(z, zz, zzz, item.val.key, shown));
        TakeItem(f, zero, mem[..], taken, item, Emitted());
        z := On(item.val.key, val);
        taken := taken + [item];
        if item.last {
          state := SETTLE1;
        }
    }

    /** DUMP: put the next bucket into the output register and clear it. */
    method DumpNext(before: seq<V>, miss: nat)
      requires state == DUMP && y == None && mem.Length > 0 && InRange(z, mem.Length)
      requires |before| == mem.Length == |older| && mem[..] == Written(before, z)
      requires dumpPtr < mem.Length && Settled(DUMP, dumpPtr, before, older, z)
      requires Agrees(f, zero, DUMP, dumpPtr, mem[..], Split(taken), Emitted())
      modifies this`z, this`state, this`y, this`dumpPtr
      ensures InRange(z, mem.Length)
      ensures Agrees(f, zero, state, dumpPtr, Buckets(), Split(taken), Emitted())
      ensures z == On(old(dumpPtr), zero)
      ensures Registers() == ControlNext(mem.Length, old(Registers()), false, true)
    {
      hide Agrees, Split;
      var last := dumpPtr == mem.Length - 1;
      var shown := Port(dumpPtr, before, miss);
      assert shown == mem[..][dumpPtr];
      DumpItem(f, zero, dumpPtr, mem[..], Split(taken), Emitted());
      y := Some(Flit(last, shown));
      z := On(dumpPtr, zero);
      if last {
        state := FEED;
      }
      dumpPtr := if last then 0 else dumpPtr + 1;
    }

    /** The controlling machine, after the pending write and output have been executed. */
    method Act(x: Option<Flit<KV<V>>>, before: seq<V>, miss: nat)
      requires mem.Length > 0 && InRange(z, mem.Length) && |before| == mem.Length && mem[..] == Written(before, z)
      requires Trails(before, older, zz, zzz) && Settled(state, dumpPtr, before, older, z)
      requires Agrees(f, zero, state, dumpPtr, mem[..], Split(taken), Emitted())
      requires x.Some? ==> x.value.val.key < mem.Length
      modifies this`z, this`state, this`y, this`dumpPtr, this`taken
      ensures InRange(z, mem.Length)
      ensures Settled(state, dumpPtr, mem[..], before, z)
      ensures Agrees(f, zero, state, dumpPtr, Buckets(), Split(taken), Emitted())
      ensures taken == if old(state) == FEED && x.Some? then old(taken) + [x.value] else old(taken)
      ensures Registers() == ControlNext(mem.Length, old(Registers()), GotLast(old(state), x), false)
    {
      hide Agrees, Split, Settled, Written;
      if state == FEED {
        ActFeed(x, before, miss);
      } else if state == DUMP && y == None {
        ActDump(before, miss);
      } else {
        ActWait(before);
      }
    }

    /** FEED. */
    method ActFeed(x: Option<Flit<KV<V>>>, before: seq<V>, miss: nat)
      requires state == FEED
      requires mem.Length > 0 && InRange(z, mem.Length) && |before| == mem.Length && mem[..] == Written(before, z)
      requires Trails(before, older, zz, zzz)
      requires Agrees(f, zero, state, dumpPtr, mem[..], Split(taken), Emitted())
      requires x.Some? ==> x.value.val.key < mem.Length
      modifies this`z, this`state, this`taken
      ensures InRange(z, mem.Length)
      ensures Settled(state, dumpPtr, mem[..], before, z)
      ensures Agrees(f, zero, state, dumpPtr, Buckets(), Split(taken), Emitted())
      ensures taken == if x.Some? then old(taken) + [x.value] else old(taken)
      ensures Registers() == ControlNext(mem.Length, old(Registers()), GotLast(old(state), x), false)
    {
      hide Agrees, Split, Settled, Written, MayShow, Forward;
      Feed(x, before, miss);
      FeedSettled(state, dumpPtr, mem[..], before, z);
    }

    /** DUMP with an empty output register. */
    method ActDump(before: seq<V>, miss: nat)
      requires state == DUMP && y == None
      requires mem.Length > 0 && InRange(z, mem.Length)
      requires |before| == mem.Length == |older| && mem[..] == Written(before, z)
      requires Settled(state, dumpPtr, before, older, z)
      requires Agrees(f, zero, state, dumpPtr, mem[..], Split(taken), Emitted())
      modifies this`z, this`state, this`y, this`dumpPtr
      ensures InRange(z, mem.Length)
      ensures Settled(state, dumpPtr, mem[..], before, z)
      ensures Agrees(f, zero, state, dumpPtr, Buckets(), Split(taken), Emitted())
      ensures Registers() == ControlNext(mem.Length, old(Registers()), false, false)
    {
      hide Agrees, Split, Settled, Written;
      AgreesPtr(f, zero, state, dumpPtr, mem[..], Split(taken), Emitted());
      DumpSettles(dumpPtr, before, older, z, zero);
      DumpNext(before, miss);
      if state == FEED {
        FeedSettled(state, dumpPtr, mem[..], before, z);
      }
    }

    /** The settle states, and DUMP while the output is blocked. */
    method ActWait(before: seq<V>)
      requires state != FEED && (state == DUMP ==> y.Some?)
      requires mem.Length > 0 && InRange(z, mem.Length)
      requires |before| == mem.Length == |older| && mem[..] == Written(before, z)
      requires Settled(state, dumpPtr, before, older, z)
      requires Agrees(f, zero, state, dumpPtr, mem[..], Split(taken), Emitted())
      modifies this`state
      ensures Settled(state, dumpPtr, mem[..], before, z)
      ensures Agrees(f, zero, state, dumpPtr, Buckets(), Split(taken), Emitted())
      ensures Registers() == ControlNext(mem.Length, old(Registers()), false, false)
    {
      hide Agrees, Split, Settled, Written;
      WaitSettles(state, dumpPtr, before, older, z);
      AgreesWaiting(f, zero, state, dumpPtr, mem[..], Split(taken), Emitted());
      state := Waited(state);
    }

    /** Pass the pending output on if the destination takes it. */
    method Deliver(ready: bool) returns (out: Option<Flit<V>>)
      modifies this`sent, this`y
      ensures out == (if ready then old(y) else None) && sent == old(sent) + (if out.Some? then [out.value] else [])
      ensures y == (if ready then None else old(y)) && Emitted() == old(Emitted())
    {
      out := None;
      if y.Some? && ready {
        out := y;
        sent := sent + [y.value];
        y := None;
      }
    }

    /** One call.  `x` is the head of the source if there is one, `ready` tells whether the
        destination takes a value, and `miss` how many writes the memory port does not show. */
    method Collect(x: Option<Flit<KV<V>>>, ready: bool, miss: nat) returns (out: Option<Flit<V>>)
      requires Valid() && (x.Some? ==> x.value.val.key < mem.Length)
      modifies this, mem
      ensures Valid()
      ensures out == (if ready then old(y) else None) && sent == old(sent) + (if out.Some? then [out.value] else [])
      ensures taken == if old(state) == FEED && x.Some? then old(taken) + [x.value] else old(taken)
      ensures Registers() == ControlNext(mem.Length, old(Registers()), GotLast(old(state), x), ready)
    {
      hide Agrees, Split, Settled;
      ghost var emitted := Emitted();
      var before := mem[..];
      var z0 := z;
      Commit();
      out := Deliver(ready);
      assert Emitted() == emitted;
      Act(x, before, miss);
      zzz := zz;
      zz := z0;
      older := before;
    }
  }

  lemma AgreesPtr<V>(f: (V, V) -> V, zero: V, st: State, ptr: nat, buckets: seq<V>, b: Batches<KV<V>>,
                     emitted: seq<Flit<V>>)
    requires Agrees(f, zero, st, ptr, buckets, b, emitted)
    ensures if st == FEED then ptr == 0 else ptr < |buckets|
  {
  }

  /** In FEED with an empty output register, exactly the dumps of all finished batches have been
      sent, whatever the pattern of empty inputs, blocked outputs and stale reads was, and the
      buckets hold nothing but the fold of the open batch. */
  lemma CollectedIsFold<V>(c: Collector<V>)
    requires c.Valid() && c.state == FEED && c.y == None
    ensures c.sent == Dumps(c.f, c.zero, c.mem.Length, Split(c.taken).done)
    ensures Split(c.taken).cur == [] ==> forall k :: 0 <= k < c.mem.Length ==> c.Buckets()[k] == c.zero
  {
  }
}
