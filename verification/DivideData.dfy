/** divide_data of hllsketch_16x32.hpp: input lines are dealt to the lanes, each lane holding one
    item back so that its final item of a batch can carry the batch end. */
module DivideData {
  import opened Flits

  /** One value and one keep flag per lane; the flag is set when all four keep bits are. */
  datatype Line = Line(vals: seq<nat>, keep: seq<bool>, last: bool)

  datatype Held = Held(keep: bool, val: nat)

  ghost predicate OnLanes(n: nat, w: Line) {
    |w.vals| == |w.keep| == n
  }

  // ----- What a lane emits -----

  /** The value the lane still holds from the batches before. */
  function Leftover(i: nat, done: seq<seq<Line>>): nat
    requires forall b :: 0 <= b < |done| ==> done[b] != [] && i < |done[b][|done[b]| - 1].vals|
  {
    if done == [] then 0 else
      var batch := done[|done| - 1];
      batch[|batch| - 1].vals[i]
  }

  function LaneVals(i: nat, lines: seq<Line>): (r: seq<nat>)
    requires forall j :: 0 <= j < |lines| ==> i < |lines[j].vals|
    ensures |r| == |lines|
  {
    seq(|lines|, j requires 0 <= j < |lines| => lines[j].vals[i])
  }

  /** The items of a batch on a lane: the leftover, then every value except that of a last line the
      lane does not keep. */
  function LaneBatch(i: nat, leftover: nat, batch: seq<Line>): (r: seq<nat>)
    requires batch != [] && forall j :: 0 <= j < |batch| ==> i < |batch[j].vals| == |batch[j].keep|
    ensures r != []
  {
    var vals := [leftover] + LaneVals(i, batch);
    if batch[|batch| - 1].keep[i] then vals else vals[..|vals| - 1]
  }

  ghost predicate Lines(n: nat, batch: seq<Line>) {
    forall j :: 0 <= j < |batch| ==> OnLanes(n, batch[j])
  }

  ghost predicate AllLines(n: nat, done: seq<seq<Line>>) {
    forall b :: 0 <= b < |done| ==> done[b] != [] && Lines(n, done[b])
  }

  function LaneBatches(n: nat, i: nat, done: seq<seq<Line>>): (r: seq<seq<nat>>)
    requires i < n && AllLines(n, done)
    ensures |r| == |done|
  {
    if done == [] then [] else
      var front := done[..|done| - 1];
      LaneBatches(n, i, front) + [LaneBatch(i, Leftover(i, front), done[|done| - 1])]
  }

  /** What lane i has sent, given the finished batches and the open one; after a last line it still
      owes a kept value. */
  ghost predicate LaneInv(n: nat, i: nat, flush: bool, held: Held, done: seq<seq<Line>>, cur: seq<Line>,
                          sent: seq<Flit<nat>>)
    requires i < n && AllLines(n, done) && Lines(n, cur)
  {
    if flush then
      && cur == [] && done != []
      && held == Held(done[|done| - 1][|done[|done| - 1]| - 1].keep[i], Leftover(i, done))
      && Split(if held.keep then sent + [Flit(true, held.val)] else sent) == Batches(LaneBatches(n, i, done), [])
    else
      var vals := [Leftover(i, done)] + LaneVals(i, cur);
      held.val == vals[|vals| - 1] && Split(sent) == Batches(LaneBatches(n, i, done), vals[..|vals| - 1])
  }

  lemma LaneLine(n: nat, i: nat, held: Held, done: seq<seq<Line>>, cur: seq<Line>, w: Line, sent: seq<Flit<nat>>)
    requires i < n && AllLines(n, done) && Lines(n, cur) && OnLanes(n, w)
    requires LaneInv(n, i, false, held, done, cur, sent)
    ensures AllLines(n, done + [cur + [w]]) && Lines(n, cur + [w])
    ensures LaneInv(n, i, w.last, Held(w.keep[i], w.vals[i]), if w.last then done + [cur + [w]] else done,
                    if w.last then [] else cur + [w], sent + [Flit(w.last && !w.keep[i], held.val)])
  {
    assert Lines(n, cur + [w]);
    if w.last {
      LaneLastLine(n, i, held, done, cur, w, sent);
    } else {
      LaneOpenLine(n, i, held, done, cur, w, sent);
    }
  }

  /** With one more line, a lane has sent the value held before, and holds the new one. */
  lemma LaneValsSnoc(n: nat, i: nat, leftover: nat, cur: seq<Line>, w: Line)
    requires i < n && Lines(n, cur) && OnLanes(n, w)
    ensures Lines(n, cur + [w])
    ensures [leftover] + LaneVals(i, cur + [w]) == [leftover] + LaneVals(i, cur) + [w.vals[i]]
  {
    assert Lines(n, cur + [w]);
    assert LaneVals(i, cur + [w]) == LaneVals(i, cur) + [w.vals[i]];
  }

  lemma LaneOpenLine(n: nat, i: nat, held: Held, done: seq<seq<Line>>, cur: seq<Line>, w: Line, sent: seq<Flit<nat>>)
    requires i < n && AllLines(n, done) && Lines(n, cur) && OnLanes(n, w)
    requires LaneInv(n, i, false, held, done, cur, sent)
    ensures Lines(n, cur + [w])
    ensures LaneInv(n, i, false, Held(w.keep[i], w.vals[i]), done, cur + [w], sent + [Flit(false, held.val)])
  {
    LaneValsSnoc(n, i, Leftover(i, done), cur, w);
    SplitSnoc(sent, Flit(false, held.val));
    var vals := [Leftover(i, done)] + LaneVals(i, cur);
    var vals' := [Leftover(i, done)] + LaneVals(i, cur + [w]);
    assert vals' == vals + [w.vals[i]];
    assert vals'[..|vals'| - 1] == vals[..|vals| - 1] + [held.val];
  }

  lemma LaneLastLine(n: nat, i: nat, held: Held, done: seq<seq<Line>>, cur: seq<Line>, w: Line, sent: seq<Flit<nat>>)
    requires i < n && AllLines(n, done) && Lines(n, cur) && OnLanes(n, w)
    requires LaneInv(n, i, false, held, done, cur, sent)
    ensures AllLines(n, done + [cur + [w]])
    ensures LaneInv(n, i, true, Held(w.keep[i], w.vals[i]), done + [cur + [w]], [], sent + [Flit(!w.keep[i], held.val)])
  {
    var batch := cur + [w];
    LaneBatchesSnoc(n, i, done, batch);
    LastBatch(n, i, Leftover(i, done), cur, w);
    hide Split, LaneBatches, LaneBatch, Leftover, LaneVals, Lines, AllLines, OnLanes;
    LastSplits(sent, LaneBatches(n, i, done), [Leftover(i, done)] + LaneVals(i, cur), w.keep[i], w.vals[i]);
  }

  /** The items of a batch on a lane, once its last line has come. */
  lemma LastBatch(n: nat, i: nat, leftover: nat, cur: seq<Line>, w: Line)
    requires i < n && Lines(n, cur) && OnLanes(n, w)
    ensures Lines(n, cur + [w])
    ensures var vals := [leftover] + LaneVals(i, cur);
      LaneBatch(i, leftover, cur + [w]) == if w.keep[i] then vals + [w.vals[i]] else vals
  {
    LaneValsSnoc(n, i, leftover, cur, w);
  }

  /** The value held ends the batch, or the next one does. */
  lemma LastSplits(sent: seq<Flit<nat>>, batches: seq<seq<nat>>, vals: seq<nat>, keep: bool, next: nat)
    requires vals != [] && Split(sent) == Batches(batches, vals[..|vals| - 1])
    ensures var sent' := sent + [Flit(!keep, vals[|vals| - 1])];
      Split(if keep then sent' + [Flit(true, next)] else sent')
      == Batches(batches + [if keep then vals + [next] else vals], [])
  {
    hide Split;
    var x := Flit(!keep, vals[|vals| - 1]);
    assert vals == vals[..|vals| - 1] + [x.val];
    SplitSnoc(sent, x);
    if keep {
      SplitSnoc(sent + [x], Flit(true, next));
    }
  }

  lemma LaneBatchesSnoc(n: nat, i: nat, done: seq<seq<Line>>, batch: seq<Line>)
    requires i < n && AllLines(n, done) && batch != [] && Lines(n, batch)
    ensures AllLines(n, done + [batch])
    ensures LaneBatches(n, i, done + [batch]) == LaneBatches(n, i, done) + [LaneBatch(i, Leftover(i, done), batch)]
    ensures Leftover(i, done + [batch]) == batch[|batch| - 1].vals[i]
  {
    assert (done + [batch])[..|done|] == done;
  }

  lemma LaneFlush(n: nat, i: nat, held: Held, done: seq<seq<Line>>, sent: seq<Flit<nat>>)
    requires i < n && AllLines(n, done)
    requires LaneInv(n, i, true, held, done, [], sent)
    ensures LaneInv(n, i, false, held, done, [], if held.keep then sent + [Flit(true, held.val)] else sent)
  {
    assert [Leftover(i, done)] + LaneVals(i, []) == [Leftover(i, done)];
  }

  /** With the next line dealt, all lines still fit the lanes. */
  lemma LinesNext(n: nat, done: seq<seq<Line>>, cur: seq<Line>, src: seq<Line>)
    requires AllLines(n, done) && Lines(n, cur) && Lines(n, src) && src != []
    ensures OnLanes(n, src[0]) && Lines(n, src[1..]) && Lines(n, cur + [src[0]]) && Lines(n, [])
    ensures AllLines(n, done + [cur + [src[0]]])
  {
    assert Lines(n, cur + [src[0]]);
  }

  class Divider {
    const n: nat
    var src: seq<Line>
    var dst: seq<seq<Flit<nat>>>
    var buf: seq<Held>
    var flush: bool
    /** The lines read: finished batches and the open one. */
    ghost var done: seq<seq<Line>>
    ghost var cur: seq<Line>
    /** All that has been written to each lane, and what the next stage has read of it. */
    ghost var sent: seq<seq<Flit<nat>>>
    ghost var read: seq<seq<Flit<nat>>>

    ghost predicate Valid()
      reads this
    {
      && (flush ==> cur == [] && done != [])
      && |dst| == |buf| == |sent| == |read| == n && Lines(n, src) && Lines(n, cur) && AllLines(n, done)
      && (forall i :: 0 <= i < n ==> LaneInv(n, i, flush, buf[i], done, cur, sent[i]))
      && forall i :: 0 <= i < n ==> sent[i] == read[i] + dst[i]
    }

    constructor (n: nat)
      ensures Valid() && this.n == n && src == [] && done == [] && cur == [] && !flush
      ensures read == seq(n, i => []) == dst
    {
      this.n, src, flush, done, cur := n, [], false, [], [];
      dst, buf := seq(n, i => []), seq(n, i => Held(false, 0));
      sent, read := seq(n, i => []), seq(n, i => []);
    }

    /** The write side of the input FIFO. */
    method Give(w: Line)
      requires Valid() && OnLanes(n, w)
      modifies this`src
      ensures Valid() && src == old(src) + [w]
    {
      src := src + [w];
    }

    /** The read side of a lane. */
    method Take(i: nat) returns (x: Flit<nat>)
      requires Valid() && i < n && dst[i] != []
      modifies this`dst, this`read
      ensures Valid() && x == old(dst)[i][0] && dst == old(dst)[i := old(dst)[i][1..]]
      ensures read == old(read)[i := old(read)[i] + [x]]
    {
      hide LaneInv;
      x := dst[i][0];
      dst := dst[i := dst[i][1..]];
      read := read[i := read[i] + [x]];
    }

    /** One write to a lane. */
    method Put(i: nat, x: Flit<nat>)
      requires i < |dst| == |sent|
      modifies this`dst, this`sent
      ensures dst == old(dst)[i := old(dst)[i] + [x]] && sent == old(sent)[i := old(sent)[i] + [x]]
    {
      dst := dst[i := dst[i] + [x]];
      sent := sent[i := sent[i] + [x]];
    }

    /** After a last line: send the values held, where they are kept. */
    method Flush()
      requires Valid() && flush
      modifies this
      ensures Valid() && !flush && read == old(read) && src == old(src) && done == old(done) && cur == old(cur)
      ensures buf == old(buf)
      ensures forall k :: 0 <= k < n ==> dst[k] == old(dst)[k] + if buf[k].keep then [Flit(true, buf[k].val)] else []
    {
      hide LaneInv;
      for i := 0 to n
        invariant |dst| == |sent| == |buf| == |read| == n && buf == old(buf) && read == old(read)
        invariant src == old(src) && done == old(done) && cur == [] && flush
        invariant forall k :: 0 <= k < i ==> LaneInv(n, k, false, buf[k], done, [], sent[k])
        invariant forall k :: i <= k < n ==> sent[k] == old(sent)[k] && dst[k] == old(dst)[k]
        invariant forall k :: 0 <= k < n ==> sent[k] == read[k] + dst[k]
        invariant forall k :: 0 <= k < i ==>
          dst[k] == old(dst)[k] + if buf[k].keep then [Flit(true, buf[k].val)] else []
      {
        LaneFlush(n, i, buf[i], done, sent[i]);
        if buf[i].keep {
          Put(i, Flit(true, buf[i].val));
        }
      }
      flush := false;
    }

    /** Deal one line to one lane. */
    method DealLane(i: nat, x: Line)
      requires i < n == |buf| == |dst| == |sent| && AllLines(n, done) && Lines(n, cur) && OnLanes(n, x)
      requires LaneInv(n, i, false, buf[i], done, cur, sent[i])
      modifies this`dst, this`sent, this`buf
      ensures AllLines(n, done + [cur + [x]]) && Lines(n, cur + [x])
      ensures var y := Flit(x.last && !x.keep[i], old(buf)[i].val);
        && buf == old(buf)[i := Held(x.keep[i], x.vals[i])]
        && dst == old(dst)[i := old(dst)[i] + [y]] && sent == old(sent)[i := old(sent)[i] + [y]]
      ensures LaneInv(n, i, x.last, buf[i], if x.last then done + [cur + [x]] else done,
                      if x.last then [] else cur + [x], sent[i])
    {
      hide LaneInv, Lines, AllLines;
      LaneLine(n, i, buf[i], done, cur, x, sent[i]);
      Put(i, Flit(x.last && !x.keep[i], buf[i].val));
      buf := buf[i := Held(x.keep[i], x.vals[i])];
    }

    /** Deal one line to the lanes. */
    method Deal()
      requires Valid() && !flush && src != []
      modifies this
      ensures Valid() && read == old(read)
      ensures var w := old(src)[0];
        && src == old(src)[1..] && flush == w.last
        && done == (if w.last then old(done) + [old(cur) + [w]] else old(done))
        && cur == (if w.last then [] else old(cur) + [w])
        && forall k :: 0 <= k < n ==> dst[k] == old(dst)[k] + [Flit(w.last && !w.keep[k], old(buf)[k].val)]
    {
      hide LaneInv, Lines, AllLines;
      LinesNext(n, done, cur, src);
      var x := src[0];
      src := src[1..];
      ghost var done', cur' := if x.last then done + [cur + [x]] else done, if x.last then [] else cur + [x];
      for i := 0 to n
        invariant |dst| == |sent| == |buf| == |read| == n && AllLines(n, done') && Lines(n, cur')
        invariant src == old(src)[1..] && done == old(done) && cur == old(cur) && !flush && read == old(read)
        invariant forall k :: 0 <= k < i ==> LaneInv(n, k, x.last, buf[k], done', cur', sent[k])
        invariant forall k :: i <= k < n ==> sent[k] == old(sent)[k] && buf[k] == old(buf)[k] && dst[k] == old(dst)[k]
        invariant forall k :: 0 <= k < n ==> sent[k] == read[k] + dst[k]
        invariant forall k :: 0 <= k < i ==>
          dst[k] == old(dst)[k] + [Flit(x.last && !x.keep[k], old(buf)[k].val)]
      {
        DealLane(i, x);
      }
      flush := x.last;
      done, cur := done', cur';
    }

    /** One call: send the kept last values of a batch, or deal one line to the lanes. */
    method Step()
      requires Valid()
      modifies this
      ensures Valid() && read == old(read)
      ensures old(flush) ==>
        && !flush && src == old(src) && done == old(done) && cur == old(cur)
        && forall k :: 0 <= k < n ==>
             |dst[k]| == |old(dst)[k]| + if old(buf)[k].keep then 1 else 0
      ensures !old(flush) && old(src) == [] ==>
        src == [] && done == old(done) && cur == old(cur) && dst == old(dst) && !flush
      ensures !old(flush) && old(src) != [] ==>
        var w := old(src)[0];
        && src == old(src)[1..] && flush == w.last
        && done == (if w.last then old(done) + [old(cur) + [w]] else old(done))
        && cur == (if w.last then [] else old(cur) + [w])
        && forall k :: 0 <= k < n ==> |dst[k]| == |old(dst)[k]| + 1
    {
      if flush {
        Flush();
      } else if src != [] {
        Deal();
      }
    }
  }

  /** Between batches, every lane has sent its batches, each with exactly one batch end, on its
      final item. */
  lemma LanesCarryBatches(d: Divider, i: nat)
    requires d.Valid() && i < d.n && !d.flush && d.cur == []
    ensures Split(d.sent[i]) == Batches(LaneBatches(d.n, i, d.done), [])
  {
  }

  /** The values a lane keeps of a batch: all but that of a last line it does not keep. */
  function OwnVals(i: nat, batch: seq<Line>): (r: seq<nat>)
    requires batch != [] && forall j :: 0 <= j < |batch| ==> i < |batch[j].vals| == |batch[j].keep|
  {
    var vals := LaneVals(i, batch);
    if batch[|batch| - 1].keep[i] then vals else vals[..|vals| - 1]
  }

  /** Every batch of a lane begins with the value left over from the batch before, 0 at first. */
  lemma {:induction false} LeftoverFirst(n: nat, i: nat, done: seq<seq<Line>>, b: nat)
    requires i < n && AllLines(n, done) && b < |done|
    ensures AllLines(n, done[..b])
    ensures LaneBatches(n, i, done)[b] == [Leftover(i, done[..b])] + OwnVals(i, done[b])
  {
    var front := done[..|done| - 1];
    assert AllLines(n, done[..b]) && AllLines(n, front) && done[b] != [] && Lines(n, done[b]);
    assert LaneBatches(n, i, done) == LaneBatches(n, i, front) + [LaneBatch(i, Leftover(i, front), done[|done| - 1])];
    hide LaneBatches, LaneBatch, Leftover, LaneVals, OwnVals;
    if b < |front| {
      LeftoverFirst(n, i, front, b);
      assert front[..b] == done[..b];
    } else {
      assert front == done[..b];
      LeftoverOnly(n, i, Leftover(i, front), done[b]);
    }
  }

  lemma LeftoverOnly(n: nat, i: nat, leftover: nat, batch: seq<Line>)
    requires i < n && Lines(n, batch) && batch != []
    ensures LaneBatch(i, leftover, batch) == [leftover] + OwnVals(i, batch)
  {
    var vals := LaneVals(i, batch);
    assert ([leftover] + vals)[..|vals|] == [leftover] + vals[..|vals| - 1];
  }
}
