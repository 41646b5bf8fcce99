/** compute_crc32, round_robin_arbiter and round_robin_merger of crc.cpp: two CRC engines that
    take packets in turn. */
module Crc32 {
  import opened Fifos
  import opened Words

  type Crc = bv32

  /** 0x04C11DB7 of section 3.2.9 of IEEE 802.3, bits reversed. */
  const POLYNOMIAL: Crc := 0xEDB88320
  const INITIAL: Crc := 0xdebb20e3

  function BitStep(crc: Crc): Crc {
    var mask := 0 - (crc & 1);
    (crc >> 1) ^ (POLYNOMIAL & mask)
  }

  function BitSteps(crc: Crc, k: nat): Crc {
    if k == 0 then crc else BitStep(BitSteps(crc, k - 1))
  }

  function ByteStep(crc: Crc, b: Byte): Crc {
    BitSteps(crc ^ (b as Crc), 8)
  }

  /** The CRC register after the bytes, one at a time and in order. */
  function CrcOf(crc: Crc, bytes: seq<Byte>): Crc {
    if bytes == [] then crc else ByteStep(CrcOf(crc, bytes[..|bytes| - 1]), bytes[|bytes| - 1])
  }

  function Crcs(packets: seq<seq<Byte>>): seq<Crc> {
    seq(|packets|, i requires 0 <= i < |packets| => CrcOf(INITIAL, packets[i]))
  }

  lemma {:induction false} CrcConcat(crc: Crc, a: seq<Byte>, b: seq<Byte>)
    ensures CrcOf(crc, a + b) == CrcOf(CrcOf(crc, a), b)
    decreases |b|
  {
    if b == [] {
      assert a + b == a;
    } else {
      var b' := b[..|b| - 1];
      assert (a + b)[..|a + b| - 1] == a + b';
      CrcConcat(crc, a, b');
    }
  }

  lemma CrcNext(crc: Crc, data: seq<Byte>, lo: nat, i: nat)
    requires lo <= i < |data|
    ensures CrcOf(crc, data[lo..i + 1]) == ByteStep(CrcOf(crc, data[lo..i]), data[i])
  {
    var part := data[lo..i + 1];
    assert part[..|part| - 1] == data[lo..i];
  }

  lemma ByteStepUnrolled(crc: Crc, b: Byte)
    ensures ByteStep(crc, b) == BitStep(BitStep(BitStep(BitStep(BitStep(BitStep(BitStep(BitStep(crc ^ (b as Crc)))))))))
  {
    var c := crc ^ (b as Crc);
    assert BitSteps(c, 0) == c;
    assert BitSteps(c, 1) == BitStep(c);
    assert BitSteps(c, 2) == BitStep(BitSteps(c, 1));
    assert BitSteps(c, 3) == BitStep(BitSteps(c, 2));
    assert BitSteps(c, 4) == BitStep(BitSteps(c, 3));
    assert BitSteps(c, 5) == BitStep(BitSteps(c, 4));
    assert BitSteps(c, 6) == BitStep(BitSteps(c, 5));
    assert BitSteps(c, 7) == BitStep(BitSteps(c, 6));
  }

  lemma FirstFour(header: seq<Byte>)
    requires |header| == 8 && forall i :: 0 <= i < 8 ==> header[i] == 0xFF
    ensures CrcOf(0xFFFF_FFFF, header[..4]) == 0
  {
    assert header[..0] == [] && CrcOf(0xFFFF_FFFF, []) == 0xFFFF_FFFF;
    Take(0xFFFF_FFFF, header, 0, 0xFFFF_FFFF, 0x00FF_FFFF);
    Take(0xFFFF_FFFF, header, 1, 0x00FF_FFFF, 0x0000_FFFF);
    Take(0xFFFF_FFFF, header, 2, 0x0000_FFFF, 0x0000_00FF);
    Take(0xFFFF_FFFF, header, 3, 0x0000_00FF, 0x0000_0000);
  }

  /** The preset of the engine is the register after eight bytes 0xFF from all ones: the ICRC
      runs over a masked 8-byte local route header before the packet. */
  lemma InitialIsMaskedHeader(header: seq<Byte>)
    requires |header| == 8 && forall i :: 0 <= i < 8 ==> header[i] == 0xFF
    ensures CrcOf(0xFFFF_FFFF, header) == INITIAL
  {
    FirstFour(header);
    Take(0xFFFF_FFFF, header, 4, 0x0000_0000, 0x2d02_ef8d);
    Take(0xFFFF_FFFF, header, 5, 0x2d02_ef8d, 0xbe26_12ff);
    Take(0xFFFF_FFFF, header, 6, 0xbe26_12ff, 0x00be_2612);
    Take(0xFFFF_FFFF, header, 7, 0x00be_2612, 0xdebb_20e3);
    assert header[..8] == header;
  }

  lemma Take(crc: Crc, header: seq<Byte>, i: nat, before: Crc, after: Crc)
    requires i < |header| && header[i] == 0xFF && CrcOf(crc, header[..i]) == before
    requires after == BitStep(BitStep(BitStep(BitStep(BitStep(BitStep(BitStep(BitStep(before ^ 0xFF))))))))
    ensures CrcOf(crc, header[..i + 1]) == after
  {
    assert header[..i + 1][..i] == header[..i];
    ByteStepUnrolled(before, 0xFF);
  }

  // ----- One engine -----

  /** The first `k` of the kept bytes. */
  function Head(w: Word, k: nat): seq<Byte>
    requires |w.data| == |w.keep|
  {
    w.data[..if k < Len(w.keep) then k else Len(w.keep)]
  }

  /** Between calls: `second` means that the upper half of `cur` is still to be processed. */
  ghost predicate EngineInv(n: nat, second: bool, crc: Crc, cur: Word, read: seq<Word>, sent: seq<Crc>) {
    && Stream(n, read)
    && if second then
         && read != [] && cur == read[|read| - 1]
         && var p := Parse(read[..|read| - 1]);
            sent == Crcs(p.done) && crc == CrcOf(INITIAL, p.cur + Head(cur, n / 2))
       else
         sent == Crcs(Parse(read).done) && crc == CrcOf(INITIAL, Parse(read).cur)
  }

  lemma CrcsSnoc(ps: seq<seq<Byte>>, p: seq<Byte>)
    ensures Crcs(ps + [p]) == Crcs(ps) + [CrcOf(INITIAL, p)]
  {
  }

  lemma EngineFirst(n: nat, crc: Crc, any: Word, read: seq<Word>, cur: Word, sent: seq<Crc>)
    requires EngineInv(n, false, crc, any, read, sent) && WellFormed(n, cur)
    ensures EngineInv(n, true, CrcOf(crc, Head(cur, n / 2)), cur, read + [cur], sent)
  {
    Append(n, read, cur);
    assert (read + [cur])[..|read|] == read;
    CrcConcat(INITIAL, Parse(read).cur, Head(cur, n / 2));
  }

  lemma EngineSecond(n: nat, crc: Crc, cur: Word, read: seq<Word>, sent: seq<Crc>, upper: seq<Byte>)
    requires EngineInv(n, true, crc, cur, read, sent)
    requires Head(cur, n / 2) + upper == Kept(cur)
    ensures var crc' := CrcOf(crc, upper);
      EngineInv(n, false, if cur.last then INITIAL else crc', cur, read, if cur.last then sent + [crc'] else sent)
  {
    var p := Parse(read[..|read| - 1]);
    CrcConcat(INITIAL, p.cur + Head(cur, n / 2), upper);
    assert (p.cur + Head(cur, n / 2)) + upper == p.cur + Kept(cur);
    CrcsSnoc(p.done, p.cur + Kept(cur));
  }

  /** The word in work, cut in the middle. */
  lemma EngineHalves(n: nat, crc: Crc, cur: Word, read: seq<Word>, sent: seq<Crc>)
    requires EngineInv(n, true, crc, cur, read, sent)
    ensures |cur.data| == |cur.keep| == n && Low(cur.keep)
    ensures var lo := if n / 2 < Len(cur.keep) then n / 2 else Len(cur.keep);
      Head(cur, n / 2) + cur.data[lo..Len(cur.keep)] == Kept(cur)
  {
    assert WellFormed(n, cur);
  }

  class Engine {
    const n: nat
    const input: Fifo<Word>
    const output: Fifo<Crc>
    var second: bool
    var crc: Crc
    var currWord: Word

    ghost predicate Valid()
      reads this, input`popped, output`pushed
    {
      && |currWord.data| == |currWord.keep| == n
      && (Stream(n, input.popped) ==> EngineInv(n, second, crc, currWord, input.popped, output.pushed))
    }

    ghost function Run(): EngineRun
      reads this, input`popped, output`pushed
    {
      EngineRun(second, crc, currWord, input.popped, output.pushed)
    }

    constructor (n: nat, input: Fifo<Word>, output: Fifo<Crc>, any: Word)
      requires |any.data| == |any.keep| == n
      requires input.popped == [] && output.pushed == []
      ensures Valid() && this.n == n && this.input == input && this.output == output && !second
    {
      this.n, this.input, this.output := n, input, output;
      second, crc, currWord := false, INITIAL, any;
    }

    /** The inner loop: one byte, bit by bit. */
    method OneByte(b: Byte)
      modifies this`crc
      ensures crc == ByteStep(old(crc), b)
    {
      ghost var before := crc;
      crc := crc ^ (b as Crc);
      for j := 0 to 8
        invariant crc == BitSteps(before ^ (b as Crc), j)
      {
        crc := BitStep(crc);
      }
    }

    /** Run the kept bytes lo..hi-1 of the current word through the register. */
    method Bytes(lo: nat, hi: nat)
      requires lo <= hi <= |currWord.keep| == |currWord.data|
      modifies this`crc
      ensures Low(currWord.keep) ==>
        crc == CrcOf(old(crc), currWord.data[Clip(lo)..Clip(hi)])
    {
      hide ByteStep;
      for i := lo to hi
        invariant Low(currWord.keep) ==> crc == CrcOf(old(crc), currWord.data[Clip(lo)..Clip(i)])
      {
        if currWord.keep[i] {
          if Low(currWord.keep) {
            CrcNext(old(crc), currWord.data, Clip(lo), i);
          }
          OneByte(currWord.data[i]);
        }
      }
    }

    ghost function Clip(k: nat): nat
      reads this
    {
      if k < Len(currWord.keep) then k else Len(currWord.keep)
    }

    /** State FIRST: read a word and process its lower half. */
    method First()
      requires Valid() && input.Valid() && Bus(n, input.q) && !second && input.q != []
      modifies this, input`q, input`popped
      ensures Valid() && input.Valid() && second
      ensures input.popped == old(input.popped) + [old(input.q)[0]] && currWord == old(input.q)[0]
    {
      ghost var before, crc0, any := input.popped, crc, currWord;
      currWord := input.Read();
      Bytes(0, n / 2);
      second := true;
      if Stream(n, input.popped) {
        StreamGrows(n, before, currWord);
        EngineFirst(n, crc0, any, before, currWord, output.pushed);
      }
    }

    /** State SECOND: process the upper half and, at the end of a packet, send its CRC. */
    method Second()
      requires Valid() && output.Valid() && second
      modifies this, output`q, output`pushed
      ensures Valid() && output.Valid() && !second
      ensures |output.pushed| == |old(output.pushed)| + if old(currWord).last then 1 else 0
    {
      hide EngineInv, CrcOf, Parse, Stream, WellFormed, Len, Low;
      ghost var crc0 := crc;
      Bytes(n / 2, n);
      if Stream(n, input.popped) {
        ghost var upper := currWord.data[Clip(n / 2)..Clip(n)];
        EngineHalves(n, crc0, currWord, input.popped, output.pushed);
        EngineSecond(n, crc0, currWord, input.popped, output.pushed, upper);
      }
      if currWord.last {
        output.Write(crc);
        crc := INITIAL;
      }
      second := false;
    }

    method Step()
      requires Valid() && input.Valid() && output.Valid() && Bus(n, input.q)
      modifies this, input`q, input`popped, output`q, output`pushed
      ensures Valid() && input.Valid() && output.Valid()
      ensures old(second) ==>
        && input.popped == old(input.popped) && !second
        && |output.pushed| == |old(output.pushed)| + if old(currWord).last then 1 else 0
      ensures !old(second) ==> output.pushed == old(output.pushed)
      ensures !old(second) && old(input.q) == [] ==> input.popped == old(input.popped) && !second
      ensures !old(second) && old(input.q) != [] ==>
        input.popped == old(input.popped) + [old(input.q)[0]] && second && currWord == old(input.q)[0]
    {
      if second {
        Second();
      } else if input.q != [] {
        First();
      }
    }
  }

  // ----- Two engines in turn -----

  function Evens<T>(s: seq<T>): (r: seq<T>)
    ensures |r| == (|s| + 1) / 2
    ensures forall i :: 0 <= i < |r| ==> r[i] == s[2 * i]
  {
    seq((|s| + 1) / 2, i requires 0 <= i < (|s| + 1) / 2 => s[2 * i])
  }

  function Odds<T>(s: seq<T>): (r: seq<T>)
    ensures |r| == |s| / 2
    ensures forall i :: 0 <= i < |r| ==> r[i] == s[2 * i + 1]
  {
    seq(|s| / 2, i requires 0 <= i < |s| / 2 => s[2 * i + 1])
  }

  lemma TurnsSnoc<T>(s: seq<T>, x: T)
    ensures Evens(s + [x]) == if |s| % 2 == 0 then Evens(s) + [x] else Evens(s)
    ensures Odds(s + [x]) == if |s| % 2 == 0 then Odds(s) else Odds(s) + [x]
  {
  }

  /** Packets 0, 2, 4, ... have gone to the first output, the others to the second; the open packet
      goes where its turn is. */
  ghost predicate InTurns(one: bool, p: Packets, o1: Packets, o2: Packets) {
    && (one <==> |p.done| % 2 == 0)
    && o1 == Packets(Evens(p.done), if one then p.cur else [])
    && o2 == Packets(Odds(p.done), if one then [] else p.cur)
  }

  ghost predicate ArbiterInv(n: nat, one: bool, read: seq<Word>, sent1: seq<Word>, sent2: seq<Word>) {
    && Stream(n, read) && Stream(n, sent1) && Stream(n, sent2)
    && InTurns(one, Parse(read), Parse(sent1), Parse(sent2))
  }

  lemma InTurnsStep(one: bool, p: Packets, o1: Packets, o2: Packets, bytes: seq<Byte>, last: bool)
    requires InTurns(one, p, o1, o2)
    ensures InTurns(if last then !one else one, Add(p, bytes, last),
                    if one then Add(o1, bytes, last) else o1, if one then o2 else Add(o2, bytes, last))
  {
    TurnsSnoc(p.done, p.cur + bytes);
  }

  lemma ArbiterKeeps(n: nat, one: bool, read: seq<Word>, w: Word, sent1: seq<Word>, sent2: seq<Word>)
    requires ArbiterInv(n, one, read, sent1, sent2) && WellFormed(n, w)
    ensures ArbiterInv(n, if w.last then !one else one, read + [w],
                       if one then sent1 + [w] else sent1, if one then sent2 else sent2 + [w])
  {
    hide InTurns;
    Append(n, read, w);
    Append(n, if one then sent1 else sent2, w);
    InTurnsStep(one, Parse(read), Parse(sent1), Parse(sent2), Kept(w), w.last);
  }

  class RoundRobinArbiter {
    const n: nat
    const input: Fifo<Word>
    const output1: Fifo<Word>
    const output2: Fifo<Word>
    var one: bool

    ghost predicate Valid()
      reads this, input`popped, output1`pushed, output2`pushed
    {
      Stream(n, input.popped) ==> ArbiterInv(n, one, input.popped, output1.pushed, output2.pushed)
    }

    ghost function Run(): ArbiterRun
      reads this, input`popped, output1`pushed, output2`pushed
    {
      ArbiterRun(one, input.popped, output1.pushed, output2.pushed)
    }

    constructor (n: nat, input: Fifo<Word>, output1: Fifo<Word>, output2: Fifo<Word>)
      requires input.popped == [] && output1.pushed == [] && output2.pushed == []
      ensures Valid() && this.n == n && this.input == input && this.output1 == output1 && this.output2 == output2
      ensures one
    {
      this.n, this.input, this.output1, this.output2, one := n, input, output1, output2, true;
    }

    method Step()
      requires Valid() && input.Valid() && output1.Valid() && output2.Valid()
      requires input != output1 && input != output2 && output1 != output2
      modifies this, input`q, input`popped, output1`q, output1`pushed, output2`q, output2`pushed
      ensures Valid() && input.Valid() && output1.Valid() && output2.Valid()
      ensures input.popped == old(input.popped) + Next(old(input.q))
      ensures output1.pushed == old(output1.pushed) + if old(one) then Next(old(input.q)) else []
      ensures output2.pushed == old(output2.pushed) + if old(one) then [] else Next(old(input.q))
      ensures one == if old(input.q) != [] && old(input.q)[0].last then !old(one) else old(one)
    {
      if input.q != [] {
        ghost var before := input.popped;
        var currWord := input.Read();
        if Stream(n, input.popped) {
          StreamGrows(n, before, currWord);
          ArbiterKeeps(n, one, before, currWord, output1.pushed, output2.pushed);
        }
        if one {
          output1.Write(currWord);
        } else {
          output2.Write(currWord);
        }
        if currWord.last {
          one := !one;
        }
      }
    }
  }

  ghost predicate TakenInTurn<T>(one: bool, taken1: seq<T>, taken2: seq<T>, sent: seq<T>) {
    (one <==> |sent| % 2 == 0) && taken1 == Evens(sent) && taken2 == Odds(sent)
  }

  class RoundRobinMerger {
    const input1: Fifo<Crc>
    const input2: Fifo<Crc>
    const output: Fifo<Crc>
    var one: bool

    ghost predicate Valid()
      reads this, input1`popped, input2`popped, output`pushed
    {
      TakenInTurn(one, input1.popped, input2.popped, output.pushed)
    }

    ghost function Run(): MergerRun
      reads this, input1`popped, input2`popped, output`pushed
    {
      MergerRun(one, input1.popped, input2.popped, output.pushed)
    }

    constructor (input1: Fifo<Crc>, input2: Fifo<Crc>, output: Fifo<Crc>)
      requires input1.popped == [] && input2.popped == [] && output.pushed == []
      ensures Valid() && this.input1 == input1 && this.input2 == input2 && this.output == output && one
    {
      this.input1, this.input2, this.output, one := input1, input2, output, true;
    }

    /** One call forwards one value from the input whose turn it is, if there is one. */
    method Step()
      requires Valid() && input1.Valid() && input2.Valid() && output.Valid()
      requires input1 != input2 && input1 != output && input2 != output
      modifies this, input1`q, input1`popped, input2`q, input2`popped, output`q, output`pushed
      ensures Valid() && input1.Valid() && input2.Valid() && output.Valid()
      ensures var q := if old(one) then old(input1.q) else old(input2.q);
        output.pushed == old(output.pushed) + Next(q) && one == if q == [] then old(one) else !old(one)
      ensures input1.popped == old(input1.popped) + if old(one) then Next(old(input1.q)) else []
      ensures input2.popped == old(input2.popped) + if old(one) then [] else Next(old(input2.q))
    {
      if one {
        if input1.q != [] {
          var x := input1.Read();
          TurnsSnoc(output.pushed, x);
          output.Write(x);
          one := !one;
        }
      } else {
        if input2.q != [] {
          var x := input2.Read();
          TurnsSnoc(output.pushed, x);
          output.Write(x);
          one := !one;
        }
      }
    }
  }

  // A moment in the run of each stage: its registers and what it has read and sent.

  datatype ArbiterRun = ArbiterRun(one: bool, read: seq<Word>, lane1: seq<Word>, lane2: seq<Word>) {
    ghost predicate Inv(n: nat) {
      ArbiterInv(n, one, read, lane1, lane2)
    }
  }

  datatype EngineRun = EngineRun(second: bool, crc: Crc, cur: Word, read: seq<Word>, sent: seq<Crc>) {
    ghost predicate Inv(n: nat, lane: seq<Word>) {
      read <= lane && EngineInv(n, second, crc, cur, read, sent)
    }

    predicate AtRest(lane: seq<Word>) {
      read == lane && !second
    }

    /** The words worked off. */
    function Whole(): seq<Word> {
      if second && read != [] then read[..|read| - 1] else read
    }
  }

  datatype MergerRun = MergerRun(one: bool, taken1: seq<Crc>, taken2: seq<Crc>, merged: seq<Crc>) {
    ghost predicate Inv(sent1: seq<Crc>, sent2: seq<Crc>) {
      taken1 <= sent1 && taken2 <= sent2 && TakenInTurn(one, taken1, taken2, merged)
    }
  }

  /** Whatever the order in which arbiter, engines and merger run, the merged values are, in packet
      order, the byte-by-byte CRCs of the packets read; and they are all of them once the engine
      whose turn it is has done its work. */
  lemma TwoEnginesInOrder(n: nat, arbiter: ArbiterRun, engine1: EngineRun, engine2: EngineRun, merger: MergerRun)
    requires arbiter.Inv(n) && engine1.Inv(n, arbiter.lane1) && engine2.Inv(n, arbiter.lane2)
    requires merger.Inv(engine1.sent, engine2.sent)
    ensures merger.merged <= Crcs(Parse(arbiter.read).done)
    ensures (if merger.one then engine1.AtRest(arbiter.lane1) && merger.taken1 == engine1.sent
             else engine2.AtRest(arbiter.lane2) && merger.taken2 == engine2.sent)
            ==> && merger.merged == Crcs(Parse(arbiter.read).done)
                && merger.taken1 == engine1.sent && merger.taken2 == engine2.sent
  {
    hide *;
    TurnsOf(n, arbiter, engine1, engine2, merger);
    var d := Parse(arbiter.read).done;
    EngineSent(n, engine1, arbiter.lane1);
    EngineSent(n, engine2, arbiter.lane2);
    Between(merger.taken1, engine1.sent, Crcs(Evens(d)));
    Between(merger.taken2, engine2.sent, Crcs(Odds(d)));
    InTurn(merger.one, merger.taken1, merger.taken2, merger.merged, d);
  }

  lemma TurnsOf(n: nat, arbiter: ArbiterRun, engine1: EngineRun, engine2: EngineRun, merger: MergerRun)
    requires arbiter.Inv(n) && merger.Inv(engine1.sent, engine2.sent)
    ensures Stream(n, arbiter.read) && Stream(n, arbiter.lane1) && Stream(n, arbiter.lane2)
    ensures Sized(arbiter.read) && Sized(arbiter.lane1) && Sized(arbiter.lane2)
    ensures Parse(arbiter.lane1).done == Evens(Parse(arbiter.read).done)
    ensures Parse(arbiter.lane2).done == Odds(Parse(arbiter.read).done)
    ensures TakenInTurn(merger.one, merger.taken1, merger.taken2, merger.merged)
    ensures merger.taken1 <= engine1.sent && merger.taken2 <= engine2.sent
  {
  }

  lemma Between<T>(a: seq<T>, b: seq<T>, c: seq<T>)
    requires a <= b <= c
    ensures a <= c
    ensures a == c ==> a == b
  {
  }

  lemma EngineSent(n: nat, engine: EngineRun, lane: seq<Word>)
    requires Stream(n, lane) && engine.Inv(n, lane)
    ensures engine.sent <= Crcs(Parse(lane).done)
    ensures engine.AtRest(lane) ==> engine.sent == Crcs(Parse(lane).done)
  {
    hide *;
    var whole := engine.Whole();
    SentOfWhole(n, engine, lane);
    StreamSized(n, lane);
    ParsePrefix(whole, lane);
    CrcsPrefix(Parse(whole).done, Parse(lane).done);
  }

  lemma SentOfWhole(n: nat, engine: EngineRun, lane: seq<Word>)
    requires engine.Inv(n, lane)
    ensures engine.Whole() <= lane && (engine.AtRest(lane) ==> engine.Whole() == lane)
    ensures Sized(engine.Whole()) && engine.sent == Crcs(Parse(engine.Whole()).done)
  {
  }

  lemma CrcsPrefix(a: seq<seq<Byte>>, b: seq<seq<Byte>>)
    requires a <= b
    ensures Crcs(a) <= Crcs(b)
  {
  }

  lemma InTurn(one: bool, taken1: seq<Crc>, taken2: seq<Crc>, merged: seq<Crc>, d: seq<seq<Byte>>)
    requires TakenInTurn(one, taken1, taken2, merged)
    requires taken1 <= Crcs(Evens(d)) && taken2 <= Crcs(Odds(d))
    ensures merged <= Crcs(d)
    ensures (if one then taken1 == Crcs(Evens(d)) else taken2 == Crcs(Odds(d))) ==>
      merged == Crcs(d) && taken1 == Crcs(Evens(d)) && taken2 == Crcs(Odds(d))
  {
    forall i | 0 <= i < |merged| ensures i < |d| && merged[i] == Crcs(d)[i] {
      var j := i / 2;
      if i == 2 * j {
        assert Evens(merged)[j] == Crcs(Evens(d))[j];
      } else {
        assert i == 2 * j + 1;
        assert Odds(merged)[j] == Crcs(Odds(d))[j];
      }
    }
  }
}
