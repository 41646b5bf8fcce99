/** One side of the CRC unit as it runs: mask, arbiter, two engines and merger joined by FIFOs.
    Any stage may take the next step. */
module CrcPaths {
  import opened Fifos
  import opened Words
  import opened Crc32
  import opened Icrc
  import opened Masking
  import opened IcrcLink

  lemma Waiting(n: nat, f: Fifo<Word>)
    requires f.Valid() && Stream(n, f.pushed)
    ensures Stream(n, f.popped) && Bus(n, f.q)
  {
    assert forall i :: 0 <= i < |f.popped| ==> f.popped[i] == f.pushed[i];
    assert forall i :: 0 <= i < |f.q| ==> f.q[i] == f.pushed[|f.popped| + i];
  }

  ghost predicate Untouched<T>(f: Fifo<T>)
    reads f
  {
    f.Valid() && f.q == [] && f.pushed == [] && f.popped == []
  }

  /** The FIFOs inside a path. */
  method NewFifos() returns (m: Fifo<Word>, l1: Fifo<Word>, l2: Fifo<Word>, c1: Fifo<Crc>, c2: Fifo<Crc>)
    ensures fresh(m) && fresh(l1) && fresh(l2) && fresh(c1) && fresh(c2)
    ensures m != l1 && m != l2 && l1 != l2 && c1 != c2
    ensures c1 as object !in {m, l1, l2} && c2 as object !in {m, l1, l2}
    ensures Untouched(m) && Untouched(l1) && Untouched(l2) && Untouched(c1) && Untouched(c2)
  {
    m := new Fifo<Word>();
    l1 := new Fifo<Word>();
    l2 := new Fifo<Word>();
    c1 := new Fifo<Crc>();
    c2 := new Fifo<Crc>();
  }

  /** How many elements the FIFOs of a path hold. */
  datatype Depths = Depths(data: nat, masked: nat, lane: nat, crcs: nat, crcOut: nat) {
    predicate Positive() {
      data > 0 && masked > 0 && lane > 0 && crcs > 0 && crcOut > 0
    }
  }

  const EMPTY: Depths := Depths(0, 0, 0, 0, 0)
  const TX_DEPTHS: Depths := Depths(384, 4, 128, 2, 2)
  const RX_DEPTHS: Depths := Depths(512, 4, 256, 2, 32)

  class CrcPath {
    const n: nat
    const input: Fifo<Word>
    const dataOut: Fifo<Word>
    const crcOut: Fifo<Crc>
    const masked: Fifo<Word>
    const lane1: Fifo<Word>
    const lane2: Fifo<Word>
    const crcs1: Fifo<Crc>
    const crcs2: Fifo<Crc>
    const mask: MaskHeaderFields
    const arbiter: RoundRobinArbiter
    const engine1: Engine
    const engine2: Engine
    const merger: RoundRobinMerger

    /** Every FIFO joins the one stage that writes it to the one that reads it. */
    ghost predicate Wiring() {
      && Width(n)
      && mask.n == arbiter.n == engine1.n == engine2.n == n
      && mask.input == input && mask.dataOut == dataOut && mask.maskedDataOut == masked
      && arbiter.input == masked && arbiter.output1 == lane1 && arbiter.output2 == lane2
      && engine1.input == lane1 && engine1.output == crcs1
      && engine2.input == lane2 && engine2.output == crcs2
      && merger.input1 == crcs1 && merger.input2 == crcs2 && merger.output == crcOut
      && engine1 != engine2
      && input != dataOut && input != masked && input != lane1 && input != lane2
      && dataOut != masked && dataOut != lane1 && dataOut != lane2
      && masked != lane1 && masked != lane2 && lane1 != lane2
      && crcs1 != crcs2 && crcs1 != crcOut && crcs2 != crcOut
      && Apart(crcs1) && Apart(crcs2) && Apart(crcOut)
    }

    ghost predicate Apart(c: object) {
      input as object != c && dataOut as object != c && masked as object != c && lane1 as object != c
        && lane2 as object != c
    }

    ghost function Inner(): set<object> {
      {mask, arbiter, engine1, engine2, merger, masked, lane1, lane2, crcs1, crcs2}
    }

    /** The FIFOs on the outside. */
    ghost function Ends(): set<object> {
      {input, dataOut, crcOut}
    }

    ghost predicate Stages()
      reads mask, arbiter, engine1, engine2, merger
      reads mask.input`popped, mask.dataOut`pushed, mask.maskedDataOut`pushed
      reads arbiter.input`popped, arbiter.output1`pushed, arbiter.output2`pushed
      reads engine1.input`popped, engine1.output`pushed, engine2.input`popped, engine2.output`pushed
      reads merger.input1`popped, merger.input2`popped, merger.output`pushed
    {
      mask.Valid() && arbiter.Valid() && engine1.Valid() && engine2.Valid() && merger.Valid()
    }

    /** The part that no stage outside can disturb. */
    ghost predicate Core()
      reads Inner(), input`popped, dataOut`pushed, crcOut`pushed
    {
      && Wiring()
      && masked.Valid() && lane1.Valid() && lane2.Valid() && crcs1.Valid() && crcs2.Valid()
      && Stages()
    }

    ghost predicate Outer()
      reads input, dataOut, crcOut
    {
      input.Valid() && dataOut.Valid() && crcOut.Valid() && Stream(n, input.pushed)
    }

    ghost predicate Valid()
      reads Inner(), input, dataOut, crcOut
    {
      Core() && Outer()
    }

    constructor (n: nat, input: Fifo<Word>, dataOut: Fifo<Word>, crcOut: Fifo<Crc>, any: Word)
      requires Width(n) && |any.data| == |any.keep| == n && input != dataOut
      requires input.Valid() && dataOut.Valid() && crcOut.Valid() && Stream(n, input.pushed)
      requires crcOut as object != input && crcOut as object != dataOut
      requires input.popped == [] && dataOut.pushed == [] && crcOut.pushed == []
      ensures Valid() && this.n == n && this.input == input && this.dataOut == dataOut && this.crcOut == crcOut
      ensures Room(EMPTY)
      ensures fresh(masked) && fresh(lane1) && fresh(lane2) && fresh(crcs1) && fresh(crcs2)
      ensures fresh(mask) && fresh(arbiter) && fresh(engine1) && fresh(engine2) && fresh(merger)
    {
      hide Valid, Stream, Width, Room;
      hide MaskHeaderFields.Valid, RoundRobinArbiter.Valid, Engine.Valid, RoundRobinMerger.Valid;
      this.n, this.input, this.dataOut, this.crcOut := n, input, dataOut, crcOut;
      var m, l1, l2, c1, c2 := NewFifos();
      masked, lane1, lane2, crcs1, crcs2 := m, l1, l2, c1, c2;
      mask := new MaskHeaderFields(n, input, dataOut, m);
      arbiter := new RoundRobinArbiter(n, m, l1, l2);
      engine1 := new Engine(n, l1, c1, any);
      engine2 := new Engine(n, l2, c2, any);
      merger := new RoundRobinMerger(c1, c2, crcOut);
      new;
      Start();
    }

    lemma Start()
      requires Wiring() && Outer() && masked.Valid() && lane1.Valid() && lane2.Valid() && crcs1.Valid() && crcs2.Valid()
      requires mask.Valid() && arbiter.Valid() && engine1.Valid() && engine2.Valid() && merger.Valid()
      requires masked.q == lane1.q == lane2.q == dataOut.q == [] && crcs1.q == crcs2.q == crcOut.q == []
      ensures Valid() && Room(EMPTY)
    {
    }

    lemma Streams()
      requires Valid()
      ensures Stream(n, input.popped) && Bus(n, input.q)
      ensures Stream(n, masked.pushed) && Stream(n, masked.popped) && Bus(n, masked.q)
      ensures Stream(n, lane1.pushed) && Bus(n, lane1.q)
      ensures Stream(n, lane2.pushed) && Bus(n, lane2.q)
    {
      Waiting(n, input);
      Waiting(n, masked);
      Waiting(n, lane1);
      Waiting(n, lane2);
    }

    method StepMask()
      requires Valid()
      modifies mask, input`q, input`popped, dataOut`q, dataOut`pushed, masked`q, masked`pushed
      ensures Valid() && input.popped == old(input.popped) + Next(old(input.q))
      ensures var k := |Next(old(input.q))|;
        |input.q| == |old(input.q)| - k && |dataOut.q| == |old(dataOut.q)| + k && |masked.q| == |old(masked.q)| + k
    {
      Streams();
      mask.Step();
    }

    method StepArbiter()
      requires Valid()
      modifies arbiter, masked`q, masked`popped, lane1`q, lane1`pushed, lane2`q, lane2`pushed
      ensures Valid() && masked.popped == old(masked.popped) + Next(old(masked.q))
      ensures var k := |Next(old(masked.q))|;
        && |masked.q| == |old(masked.q)| - k
        && |lane1.q| == |old(lane1.q)| + (if old(arbiter.one) then k else 0)
        && |lane2.q| == |old(lane2.q)| + (if old(arbiter.one) then 0 else k)
    {
      arbiter.Step();
    }

    method StepEngine1()
      requires Valid()
      modifies engine1, lane1`q, lane1`popped, crcs1`q, crcs1`pushed
      ensures Valid()
      ensures old(engine1.second) ==>
        && !engine1.second && |lane1.q| == |old(lane1.q)|
        && |crcs1.q| == |old(crcs1.q)| + if old(engine1.currWord).last then 1 else 0
      ensures !old(engine1.second) ==>
        && |lane1.q| == |old(lane1.q)| - |Next(old(lane1.q))|
        && engine1.second == (old(lane1.q) != []) && |crcs1.q| == |old(crcs1.q)|
    {
      Streams();
      engine1.Step();
    }

    method StepEngine2()
      requires Valid()
      modifies engine2, lane2`q, lane2`popped, crcs2`q, crcs2`pushed
      ensures Valid()
      ensures old(engine2.second) ==>
        && !engine2.second && |lane2.q| == |old(lane2.q)|
        && |crcs2.q| == |old(crcs2.q)| + if old(engine2.currWord).last then 1 else 0
      ensures !old(engine2.second) ==>
        && |lane2.q| == |old(lane2.q)| - |Next(old(lane2.q))|
        && engine2.second == (old(lane2.q) != []) && |crcs2.q| == |old(crcs2.q)|
    {
      Streams();
      engine2.Step();
    }

    method StepMerger()
      requires Valid()
      modifies merger, crcs1`q, crcs1`popped, crcs2`q, crcs2`popped, crcOut`q, crcOut`pushed
      ensures Valid()
      ensures var k := |Next(if old(merger.one) then old(crcs1.q) else old(crcs2.q))|;
        && |crcs1.q| == |old(crcs1.q)| - (if old(merger.one) then k else 0)
        && |crcs2.q| == |old(crcs2.q)| - (if old(merger.one) then 0 else k)
        && |crcOut.q| == |old(crcOut.q)| + k
    {
      merger.Step();
    }

    /** The stage finds what it reads, and room in every FIFO it would write. */
    predicate CanStep(stage: nat, depths: Depths)
      reads input, dataOut, masked, lane1, lane2, crcs1, crcs2, crcOut, arbiter, engine1, engine2, merger
    {
      match stage
      case 0 => input.q != [] && |dataOut.q| < depths.data && |masked.q| < depths.masked
      case 1 => masked.q != [] && |if arbiter.one then lane1.q else lane2.q| < depths.lane
      case 2 => if engine1.second then engine1.currWord.last ==> |crcs1.q| < depths.crcs else lane1.q != []
      case 3 => if engine2.second then engine2.currWord.last ==> |crcs2.q| < depths.crcs else lane2.q != []
      case 4 => (if merger.one then crcs1.q else crcs2.q) != [] && |crcOut.q| < depths.crcOut
      case _ => false
    }

    /** No FIFO holds more than its depth. */
    ghost predicate Room(depths: Depths)
      reads dataOut`q, masked`q, lane1`q, lane2`q, crcs1`q, crcs2`q, crcOut`q
    {
      && |dataOut.q| <= depths.data && |masked.q| <= depths.masked
      && |lane1.q| <= depths.lane && |lane2.q| <= depths.lane
      && |crcs1.q| <= depths.crcs && |crcs2.q| <= depths.crcs && |crcOut.q| <= depths.crcOut
    }

    /** The work left behind the mask stage: a masked word makes up to five steps. */
    ghost function Inside(): nat
      reads masked`q, lane1`q, lane2`q, crcs1`q, crcs2`q, engine1`second, engine2`second
    {
      5 * |masked.q| + 4 * (|lane1.q| + |lane2.q|) + 2 * (|crcs1.q| + |crcs2.q|)
      + (if engine1.second then 3 else 0) + (if engine2.second then 3 else 0)
    }

    lemma Apartness()
      requires Valid()
      ensures Wiring()
    {
    }

    /** Any stage may take the next step, if it can. */
    method Step(stage: nat, depths: Depths) returns (moved: bool)
      requires Valid() && Room(depths)
      modifies Inner(), input`q, input`popped, dataOut`q, dataOut`pushed, crcOut`q, crcOut`pushed
      ensures Valid() && Room(depths) && moved == old(CanStep(stage, depths))
      ensures input.popped == old(input.popped) + if moved && stage == 0 then Next(old(input.q)) else []
      ensures moved && stage == 0 ==>
        && |input.q| == |old(input.q)| - 1 && |dataOut.q| == |old(dataOut.q)| + 1
        && Inside() == old(Inside()) + 5 && |crcOut.q| == |old(crcOut.q)| && |old(dataOut.q)| < depths.data
      ensures !(moved && stage == 0) ==>
        && |input.q| == |old(input.q)| && |dataOut.q| == |old(dataOut.q)|
      ensures !(moved && stage == 0) ==>
        if moved then Inside() + |crcOut.q| < old(Inside() + |crcOut.q|)
        else Inside() + |crcOut.q| == old(Inside() + |crcOut.q|)
    {
      hide Core, Outer, Stages;
      Apartness();
      moved := CanStep(stage, depths);
      if moved {
        if stage == 0 {
          StepMask();
        } else {
          StepInside(stage, depths);
        }
      }
    }

    /** Any stage behind the mask. */
    method StepInside(stage: nat, depths: Depths)
      requires Valid() && Room(depths) && stage != 0 && CanStep(stage, depths)
      modifies Inner(), crcOut`q, crcOut`pushed
      ensures Valid() && Room(depths) && Inside() + |crcOut.q| < old(Inside() + |crcOut.q|)
    {
      hide Core, Outer, Stages;
      Apartness();
      match stage
      case 1 => StepArbiter();
      case 2 => StepEngine1();
      case 3 => StepEngine2();
      case _ => StepMerger();
    }

    ghost function Run(): PathRun
      reads input`popped, dataOut`pushed, crcOut`pushed
    {
      PathRun(input.popped, dataOut.pushed, crcOut.pushed)
    }

    /** What the stages have done stands in the relations of their invariants. */
    lemma Runs()
      requires Valid()
      ensures arbiter.Run().Inv(n) && engine1.Run().Inv(n, lane1.pushed) && engine2.Run().Inv(n, lane2.pushed)
      ensures merger.Run().Inv(crcs1.pushed, crcs2.pushed)
    {
      Streams();
    }

    lemma Named()
      requires Valid()
      ensures arbiter.Run() == ArbiterRun(arbiter.one, masked.popped, lane1.pushed, lane2.pushed)
      ensures engine1.Run().read == lane1.popped && engine1.Run().sent == crcs1.pushed
      ensures engine1.Run().second == engine1.second
      ensures engine2.Run().read == lane2.popped && engine2.Run().sent == crcs2.pushed
      ensures engine2.Run().second == engine2.second
      ensures merger.Run() == MergerRun(merger.one, crcs1.popped, crcs2.popped, crcOut.pushed)
    {
    }

    lemma Masks()
      requires Valid()
      ensures Width(n) && MaskInv(n, mask.wordCount, input.popped, dataOut.pushed, masked.pushed)
      ensures masked.popped <= masked.pushed
    {
      Streams();
    }

    /** In every reachable state the words are passed on and the CRCs are those of the masked
        packets, in order. */
    lemma Result()
      requires Valid()
      ensures Run().Inv(n)
    {
      hide *;
      Streams();
      Runs();
      Named();
      Masks();
      TwoEnginesInOrder(n, arbiter.Run(), engine1.Run(), engine2.Run(), merger.Run());
      PathAgrees(n, mask.wordCount, input.popped, dataOut.pushed, masked.pushed, masked.popped, crcOut.pushed);
      RunIs();
    }

    lemma RunIs()
      requires n > 0 && Stream(n, input.popped)
      ensures Sized(input.popped)
      ensures Run().Inv(n) <==> PathResult(n, input.popped, dataOut.pushed, crcOut.pushed)
    {
    }

    ghost predicate Stuck(depths: Depths)
      reads input, dataOut, masked, lane1, lane2, crcs1, crcs2, crcOut, arbiter, engine1, engine2, merger
    {
      forall stage :: 0 <= stage < 5 ==> !CanStep(stage, depths)
    }
  }

  twostate lemma FreshInner(new p: CrcPath)
    requires fresh(p.masked) && fresh(p.lane1) && fresh(p.lane2) && fresh(p.crcs1) && fresh(p.crcs2)
    requires fresh(p.mask) && fresh(p.arbiter) && fresh(p.engine1) && fresh(p.engine2) && fresh(p.merger)
    ensures fresh(p.Inner()) && forall o :: o in p.Inner() ==> allocated(o)
  {
  }

  lemma InnerAllocated(p: CrcPath)
    ensures forall o :: o in p.Inner() ==> allocated(o)
  {
  }

  /** A path together with the freshness of everything inside it. */
  method NewPath(n: nat, input: Fifo<Word>, dataOut: Fifo<Word>, crcOut: Fifo<Crc>, any: Word) returns (p: CrcPath)
    requires Width(n) && |any.data| == |any.keep| == n && input != dataOut
    requires input.Valid() && dataOut.Valid() && crcOut.Valid() && Stream(n, input.pushed)
    requires crcOut as object != input && crcOut as object != dataOut
    requires input.popped == [] && dataOut.pushed == [] && crcOut.pushed == []
    ensures p.Valid() && p.n == n && p.input == input && p.dataOut == dataOut && p.crcOut == crcOut
    ensures p.Room(EMPTY)
    ensures fresh(p.Inner()) && forall o :: o in p.Inner() ==> allocated(o)
  {
    hide CrcPath.Valid, CrcPath.Inner;
    p := new CrcPath(n, input, dataOut, crcOut, any);
    FreshInner(p);
  }
}
