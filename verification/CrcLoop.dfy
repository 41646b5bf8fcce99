/** A sender whose output is fed straight into a receiver: both CRC paths, insert, extract and the
    comparison, with every stage free to take the next step. */
module CrcLoops {
  import opened Fifos
  import opened Words
  import opened Crc32
  import opened Icrc
  import opened Masking
  import opened IcrcLink
  import opened OpenPackets
  import opened CrcPaths

  ghost predicate Outside(tx: CrcPath, rx: CrcPath, o: object) {
    o !in tx.Inner() && o !in rx.Inner()
  }

  ghost predicate NotAWordFifo(tx: CrcPath, rx: CrcPath, c: object) {
    tx.input as object != c && tx.dataOut as object != c && rx.input as object != c && rx.dataOut as object != c
  }

  /** The two paths share nothing. */
  ghost predicate PathsApart(tx: CrcPath, rx: CrcPath) {
    && tx.Inner() !! rx.Inner()
    && tx.dataOut != tx.input && rx.input !in {tx.input, tx.dataOut} && rx.dataOut !in {tx.input, tx.dataOut, rx.input}
    && rx.crcOut != tx.crcOut && NotAWordFifo(tx, rx, tx.crcOut) && NotAWordFifo(tx, rx, rx.crcOut)
    && Outside(tx, rx, tx.input) && Outside(tx, rx, tx.dataOut) && Outside(tx, rx, tx.crcOut)
    && Outside(tx, rx, rx.input) && Outside(tx, rx, rx.dataOut) && Outside(tx, rx, rx.crcOut)
  }

  /** Nothing has happened yet on the outside of a path. */
  ghost predicate Idle(p: CrcPath)
    reads p.input, p.dataOut, p.crcOut
  {
    p.input.Valid() && p.input.pushed == [] && p.dataOut.Valid() && p.dataOut.pushed == []
    && p.crcOut.Valid() && p.crcOut.pushed == []
  }

  /** A path and its outside FIFOs are different objects. */
  ghost predicate Alone(p: CrcPath) {
    && p.Inner() !! p.Ends() && p.input != p.dataOut
    && p.crcOut as object != p.input && p.crcOut as object != p.dataOut
  }

  method NewIdlePath(n: nat, any: Word) returns (p: CrcPath)
    requires Width(n) && |any.data| == |any.keep| == n
    ensures p.Valid() && p.n == n && Idle(p) && Alone(p) && p.Room(EMPTY)
    ensures fresh(p.Inner()) && fresh(p.Ends())
    ensures forall o :: o in p.Inner() + p.Ends() ==> allocated(o)
  {
    hide CrcPath.Core, CrcPath.Inner, CrcPath.Room, Width, Stream;
    var input := new Fifo<Word>();
    var dataOut := new Fifo<Word>();
    var crcOut := new Fifo<Crc>();
    EmptyStream(n);
    p := NewPath(n, input, dataOut, crcOut, any);
  }

  lemma EmptyStream(n: nat)
    ensures Stream(n, [])
  {
  }

  lemma ApartBySets(tx: CrcPath, rx: CrcPath)
    requires Alone(tx) && Alone(rx) && tx.Inner() + tx.Ends() !! rx.Inner() + rx.Ends()
    ensures PathsApart(tx, rx)
  {
    hide CrcPath.Inner;
    assert {tx.input as object, tx.dataOut, tx.crcOut} == tx.Ends();
    assert {rx.input as object, rx.dataOut, rx.crcOut} == rx.Ends();
    assert tx.input as object in tx.Ends() && tx.dataOut as object in tx.Ends() && tx.crcOut as object in tx.Ends();
    assert rx.input as object in rx.Ends() && rx.dataOut as object in rx.Ends() && rx.crcOut as object in rx.Ends();
  }

  method NewPaths(n: nat, any: Word) returns (tx: CrcPath, rx: CrcPath)
    requires Width(n) && |any.data| == |any.keep| == n
    ensures tx.Valid() && rx.Valid() && tx.n == rx.n == n && PathsApart(tx, rx) && Idle(tx) && Idle(rx)
    ensures tx.Room(EMPTY) && rx.Room(EMPTY)
    ensures fresh(tx.Inner()) && fresh(tx.Ends()) && fresh(rx.Inner()) && fresh(rx.Ends())
  {
    hide CrcPath.Valid, CrcPath.Inner, CrcPath.Room, PathsApart, Alone, Width;
    tx := NewIdlePath(n, any);
    rx := NewIdlePath(n, any);
    ApartBySets(tx, rx);
  }

  /** The stages between and behind the paths, with the FIFOs they own. */
  method NewMiddle(n: nat, crcs: Fifo<Crc>, data: Fifo<Word>, words: Fifo<Word>, rxData: Fifo<Word>, rxCrcs: Fifo<Crc>,
                   any: Word)
    returns (link: Fifo<Word>, tags: Fifo<Crc>, sink: Fifo<Word>,
             insert: InsertIcrc, extract: ExtractIcrc, drop: DropInvalidCrc)
    requires Width(n) && |any.data| == |any.keep| == n
    requires crcs.popped == [] && data.popped == [] && words.pushed == [] && rxData.popped == [] && rxCrcs.popped == []
    ensures fresh(link) && fresh(tags) && fresh(sink) && fresh(insert) && fresh(extract) && fresh(drop)
    ensures link != sink && link as object != tags && sink as object != tags
    ensures link.Valid() && tags.Valid() && sink.Valid() && link.q == [] && tags.q == []
    ensures insert.Valid() && insert.n == n
    ensures insert.crcIn == crcs && insert.input == data && insert.output == link
    ensures extract.Valid() && extract.n == n
    ensures extract.input == link && extract.output == words && extract.crcOut == tags
    ensures drop.Valid()
    ensures drop.input == rxData && drop.crcFifo == tags && drop.calcCrcFifo == rxCrcs && drop.output == sink
  {
    hide Width, InsertIcrc.Valid, ExtractIcrc.Valid, DropInvalidCrc.Valid;
    link := new Fifo<Word>();
    tags := new Fifo<Crc>();
    sink := new Fifo<Word>();
    insert := new InsertIcrc(n, crcs, data, link);
    extract := new ExtractIcrc(n, link, words, tags, any);
    drop := new DropInvalidCrc(rxData, tags, rxCrcs, sink);
  }

  /** The depths of all FIFOs; words and tags are what extract_icrc writes. */
  datatype LoopDepths = LoopDepths(tx: Depths, rx: Depths, link: nat, words: nat, tags: nat) {
    predicate Positive() {
      tx.Positive() && rx.Positive() && link > 0 && words > 0 && tags > 0
    }
  }

  /** The depths of crc.cpp; the link is outside of it. */
  function CrcDepths(link: nat): LoopDepths {
    LoopDepths(TX_DEPTHS, RX_DEPTHS, link, 4, 32)
  }

  /** What a step of a path does to the numbers of words and CRCs on its outside and inside. */
  twostate predicate Counted(p: CrcPath, stage: nat, depths: Depths, moved: bool)
    reads p.input, p.dataOut, p.crcOut, p.masked, p.lane1, p.lane2, p.crcs1, p.crcs2, p.engine1, p.engine2
  {
    && p.input.popped == old(p.input.popped) + (if moved && stage == 0 then Next(old(p.input.q)) else [])
    && (moved && stage == 0 ==>
          && |p.input.q| == |old(p.input.q)| - 1 && |p.dataOut.q| == |old(p.dataOut.q)| + 1
          && p.Inside() == old(p.Inside()) + 5 && |p.crcOut.q| == |old(p.crcOut.q)| && |old(p.dataOut.q)| < depths.data)
    && (!(moved && stage == 0) ==>
          && |p.input.q| == |old(p.input.q)| && |p.dataOut.q| == |old(p.dataOut.q)|
          && if moved then p.Inside() + |p.crcOut.q| < old(p.Inside() + |p.crcOut.q|)
             else p.Inside() + |p.crcOut.q| == old(p.Inside() + |p.crcOut.q|))
  }

  class CrcLoop {
    const n: nat
    const depths: LoopDepths
    const tx: CrcPath
    const insert: InsertIcrc
    const link: Fifo<Word>
    const extract: ExtractIcrc
    const rx: CrcPath
    const drop: DropInvalidCrc
    const tags: Fifo<Crc>
    const sink: Fifo<Word>

    /** Everything that the stages may change. */
    ghost function Machines(): set<object> {
      tx.Inner() + tx.Ends() + rx.Inner() + rx.Ends() + {insert, link, extract, drop, tags, sink}
    }

    ghost predicate Wiring() {
      && Width(n) && tx.n == rx.n == insert.n == extract.n == n
      && insert.crcIn == tx.crcOut && insert.input == tx.dataOut && insert.output == link
      && extract.input == link && extract.output == rx.input && extract.crcOut == tags
      && drop.input == rx.dataOut && drop.crcFifo == tags && drop.calcCrcFifo == rx.crcOut && drop.output == sink
    }

    /** All objects of the loop are different ones. */
    ghost predicate Apart() {
      && PathsApart(tx, rx)
      && link !in {tx.input, tx.dataOut, rx.input, rx.dataOut}
        && sink !in {tx.input, tx.dataOut, rx.input, rx.dataOut, link}
      && tags !in {tx.crcOut, rx.crcOut}
      && NotAWordFifo(tx, rx, tags)
      && link as object !in {tx.crcOut, rx.crcOut, tags} && sink as object !in {tx.crcOut, rx.crcOut, tags}
      && Outside(tx, rx, link) && Outside(tx, rx, sink) && Outside(tx, rx, tags)
      && Outside(tx, rx, insert) && Outside(tx, rx, extract) && Outside(tx, rx, drop)
    }

    ghost predicate Fifos()
      reads tx.input, tx.dataOut, tx.crcOut, link, rx.input, rx.dataOut, rx.crcOut, tags, sink
    {
      && tx.input.Valid() && tx.dataOut.Valid() && tx.crcOut.Valid() && link.Valid()
      && rx.input.Valid() && rx.dataOut.Valid() && rx.crcOut.Valid() && tags.Valid() && sink.Valid()
    }

    /** What the stages keep, whatever the order of their steps. */
    ghost predicate Inv()
      reads tx.Inner(), rx.Inner(), insert, extract, drop
      reads tx.input, tx.dataOut, tx.crcOut, link, rx.input, rx.dataOut, rx.crcOut, tags, sink
      reads insert.crcIn, insert.input, insert.output, extract.input, extract.output, extract.crcOut
      reads drop.crcFifo, drop.calcCrcFifo, drop.input, drop.output
    {
      && Wiring() && Apart() && Fifos()
      && tx.Core() && rx.Core() && insert.Valid() && extract.Valid() && drop.Valid()
      && Stream(n, tx.input.pushed) && Quads(tx.input.pushed)
    }

    constructor (tx: CrcPath, rx: CrcPath, any: Word, depths: LoopDepths)
      requires tx.Core() && rx.Core() && tx.n == rx.n && PathsApart(tx, rx) && Idle(tx) && Idle(rx)
      requires tx.Room(EMPTY) && rx.Room(EMPTY)
      requires Width(tx.n) && |any.data| == |any.keep| == tx.n
      ensures Inv() && Room() && Fitting()
      ensures this.tx == tx && this.rx == rx && this.depths == depths && this.n == tx.n
      ensures fresh(insert) && fresh(link) && fresh(extract) && fresh(drop) && fresh(tags) && fresh(sink)
    {
      hide Inv, Room, Fitting, Stream, Quads, WellFormed, Parse, Width;
      hide CrcPath.Room, CrcPath.Outer, CrcPath.Core, CrcPath.Inner, CrcPath.Valid;
      hide InsertIcrc.Valid, ExtractIcrc.Valid, DropInvalidCrc.Valid;
      InnerAllocated(tx);
      InnerAllocated(rx);
      var between, rxTags, delivered, ins, ext, drp :=
        NewMiddle(tx.n, tx.crcOut, tx.dataOut, rx.input, rx.dataOut, rx.crcOut, any);
      this.n, this.depths, this.tx, this.rx := tx.n, depths, tx, rx;
      link, tags, sink, insert, extract, drop := between, rxTags, delivered, ins, ext, drp;
      new;
      Start();
    }

    lemma Start()
      requires Wiring() && Apart() && Fifos()
      requires tx.Core() && rx.Core() && insert.Valid() && extract.Valid() && drop.Valid()
      requires tx.input.pushed == [] && rx.input.pushed == [] && tx.Room(EMPTY) && rx.Room(EMPTY)
      requires link.q == [] && rx.input.q == [] && tags.q == []
      ensures Inv() && Room() && Fitting()
    {
      hide CrcPath.Core, InsertIcrc.Valid, ExtractIcrc.Valid, DropInvalidCrc.Valid, Apart;
    }

    /** Well-formed input keeps every FIFO well formed. */
    lemma Streams()
      requires Inv()
      ensures Stream(n, tx.input.popped) && Stream(n, tx.dataOut.pushed) && Quads(tx.dataOut.pushed)
      ensures Stream(n, link.pushed) && Carrying(n, link.pushed) && Stream(n, rx.input.pushed)
      ensures Bus(n, tx.dataOut.q) && Bus(n, link.q)
    {
      Waiting(n, tx.input);
      tx.Result();
      QuadsPrefix(tx.input.popped, tx.input.pushed);
      Waiting(n, tx.dataOut);
      QuadsPrefix(tx.dataOut.popped, tx.dataOut.pushed);
      InsertCarries(n, insert.state, insert.crc, tx.crcOut.popped, tx.dataOut.popped, link.pushed);
      Waiting(n, link);
      CarryingPrefix(n, link.popped, link.pushed);
    }

    lemma Ready()
      requires Inv()
      ensures insert.Wired() && extract.Wired() && rx.Valid() && tx.Valid() && drop.Wired()
    {
      Streams();
    }

    /** A word of a well-formed packet of 4k bytes enters the sender. */
    method Send(w: Word)
      requires Inv() && Room() && Fitting() && WellFormed(n, w) && Len(w.keep) % 4 == 0
      modifies tx.input`q, tx.input`pushed
      ensures Inv() && Room() && Fitting() && tx.input.pushed == old(tx.input.pushed) + [w]
    {
      hide CrcPath.Core, InsertIcrc.Valid, ExtractIcrc.Valid, DropInvalidCrc.Valid;
      hide WellFormed, Fits, Stream, Quads, Fitting, CrcPath.Outer;
      KeptAtMost(n, w);
      StreamSized(n, tx.input.pushed);
      StreamSnoc(n, tx.input.pushed, w);
      QuadsSnoc(tx.input.pushed, w);
      tx.input.Write(w);
    }

    // ----- Room, and the length of packets -----

    /** No FIFO holds more than its depth. */
    ghost predicate Room()
      reads tx.dataOut`q, tx.masked`q, tx.lane1`q, tx.lane2`q, tx.crcs1`q, tx.crcs2`q, tx.crcOut`q
      reads rx.dataOut`q, rx.masked`q, rx.lane1`q, rx.lane2`q, rx.crcs1`q, rx.crcs2`q, rx.crcOut`q
      reads link`q, rx.input`q, tags`q
    {
      && tx.Room(depths.tx) && rx.Room(depths.rx)
      && |link.q| <= depths.link && |rx.input.q| <= depths.words && |tags.q| <= depths.tags
    }

    /** Every finished packet that has passed a mask stage fits into the FIFO behind it. */
    ghost predicate Fitting()
      reads tx.input`popped, rx.input`popped
    {
      Fits(n, tx.input.popped, depths.tx.data) && Fits(n, rx.input.popped, depths.rx.data)
    }

    predicate CanInsert()
      reads insert, tx.crcOut, tx.dataOut, link
    {
      match insert.state
      case CRC => tx.crcOut.q != []
      case FWD => tx.dataOut.q != [] && |link.q| < depths.link
      case POST => |link.q| < depths.link
    }

    predicate CanExtract()
      reads extract, link, rx.input, tags
    {
      match extract.state
      case FIRST => link.q != []
      case PKG => link.q != [] && |rx.input.q| < depths.words && (EndsWithCrc(link.q[0]) ==> |tags.q| < depths.tags)
      case LAST => |rx.input.q| < depths.words && |tags.q| < depths.tags
    }

    predicate CanDrop()
      reads drop, rx.dataOut, rx.crcOut, tags
    {
      if drop.forwarding then rx.dataOut.q != [] else tags.q != [] && rx.crcOut.q != []
    }

    /** No stage can take a step. */
    ghost predicate Stuck()
      reads tx.input, tx.dataOut, tx.crcOut, tx.masked, tx.lane1, tx.lane2, tx.crcs1, tx.crcs2
      reads rx.input, rx.dataOut, rx.crcOut, rx.masked, rx.lane1, rx.lane2, rx.crcs1, rx.crcs2
      reads tx.arbiter, tx.engine1, tx.engine2, tx.merger, rx.arbiter, rx.engine1, rx.engine2, rx.merger
      reads insert, link, extract, tags, drop
    {
      tx.Stuck(depths.tx) && rx.Stuck(depths.rx) && !CanInsert() && !CanExtract() && !CanDrop()
    }

    /** The work left: every stage takes more off its inputs than it puts on its outputs. */
    ghost function Work(): nat
      reads tx.masked`q, tx.lane1`q, tx.lane2`q, tx.crcs1`q, tx.crcs2`q, tx.engine1`second, tx.engine2`second
      reads rx.masked`q, rx.lane1`q, rx.lane2`q, rx.crcs1`q, rx.crcs2`q, rx.engine1`second, rx.engine2`second
      reads tx.input`q, tx.dataOut`q, tx.crcOut`q, rx.input`q, rx.dataOut`q, rx.crcOut`q, link`q
      reads insert`state, extract`state
    {
      26 * |tx.input.q| + 20 * |tx.dataOut.q| + (tx.Inside() + |tx.crcOut.q|)
      + (if insert.state == POST then 10 else 0) + 9 * |link.q| + (if extract.state == FIRST then 0 else 8)
      + 7 * |rx.input.q| + |rx.dataOut.q| + (rx.Inside() + |rx.crcOut.q|)
    }

    // ----- The steps -----

    lemma Apartness()
      requires Inv()
      ensures Wiring() && Apart() && Fifos()
    {
    }

    /** The open packet behind the mask of the sender lies in the FIFO behind it as a whole. */
    lemma TxOpen()
      requires Inv()
      ensures Stream(n, tx.input.popped) && Sized(tx.input.popped)
      ensures |Parse(tx.input.popped).cur| <= Whole(|tx.dataOut.q|, n)
    {
      hide *;
      Runs();
      Named();
      Read();
      SentThrough();
      Queued();
      InsertRunClosed(n, insert.Run(), tx.dataOut.pushed);
      OpenBetween(n, tx.dataOut.popped, tx.dataOut.pushed);
    }

    /** So does that of the receiver. */
    lemma RxOpen()
      requires Inv()
      ensures Stream(n, rx.input.popped) && Sized(rx.input.popped)
      ensures |Parse(rx.input.popped).cur| <= Whole(|rx.dataOut.q|, n)
    {
      hide *;
      Read();
      Drops();
      SentThrough();
      Queued();
      DropClosed(n, drop.forwarding, rx.dataOut.popped, |tags.popped|, rx.dataOut.pushed);
      OpenBetween(n, rx.dataOut.popped, rx.dataOut.pushed);
    }

    lemma Queued()
      requires Inv()
      ensures |tx.dataOut.q| == |tx.dataOut.pushed| - |tx.dataOut.popped|
      ensures |rx.dataOut.q| == |rx.dataOut.pushed| - |rx.dataOut.popped|
    {
    }

    method StepTx(stage: nat) returns (moved: bool)
      requires Inv() && Room() && Fitting()
      modifies tx.Inner(), tx.input`q, tx.input`popped, tx.dataOut`q, tx.dataOut`pushed, tx.crcOut`q, tx.crcOut`pushed
      ensures Inv() && Room() && Fitting() && moved == old(tx.CanStep(stage, depths.tx))
      ensures if moved then Work() < old(Work()) else Work() == old(Work())
    {
      hide CrcPath.Core, CrcPath.Outer, CrcPath.Inside, CrcPath.Room, Fits, Stream, Sized, Inv;
      TxOpen();
      Apartness();
      ghost var before, held := tx.input.popped, |tx.dataOut.q|;
      moved := AdvanceTx(stage);
      SentThrough();
      PassedMask(n, before, tx.input.popped, held, depths.tx.data);
    }

    /** The step, as far as the invariant is concerned. */
    method AdvanceTx(stage: nat) returns (moved: bool)
      requires Inv() && tx.Room(depths.tx)
      modifies tx.Inner(), tx.input`q, tx.input`popped, tx.dataOut`q, tx.dataOut`pushed, tx.crcOut`q, tx.crcOut`pushed
      ensures Inv() && tx.Room(depths.tx) && moved == old(tx.CanStep(stage, depths.tx))
      ensures Counted(tx, stage, depths.tx, moved)
    {
      hide CrcPath.Core, CrcPath.Inside, CrcPath.Room, WellFormed, Fits, Stream, Quads, InsertIcrc.Valid;
      hide ExtractIcrc.Valid, DropInvalidCrc.Valid;
      Ready();
      moved := tx.Step(stage, depths.tx);
    }

    method StepRx(stage: nat) returns (moved: bool)
      requires Inv() && Room() && Fitting()
      modifies rx.Inner(), rx.input`q, rx.input`popped, rx.dataOut`q, rx.dataOut`pushed, rx.crcOut`q, rx.crcOut`pushed
      ensures Inv() && Room() && Fitting() && moved == old(rx.CanStep(stage, depths.rx))
      ensures if moved then Work() < old(Work()) else Work() == old(Work())
    {
      hide CrcPath.Core, CrcPath.Outer, CrcPath.Inside, CrcPath.Room, Fits, Stream, Sized, Inv;
      RxOpen();
      Apartness();
      ghost var before, held := rx.input.popped, |rx.dataOut.q|;
      moved := AdvanceRx(stage);
      SentThrough();
      PassedMask(n, before, rx.input.popped, held, depths.rx.data);
    }

    method AdvanceRx(stage: nat) returns (moved: bool)
      requires Inv() && rx.Room(depths.rx)
      modifies rx.Inner(), rx.input`q, rx.input`popped, rx.dataOut`q, rx.dataOut`pushed, rx.crcOut`q, rx.crcOut`pushed
      ensures Inv() && rx.Room(depths.rx) && moved == old(rx.CanStep(stage, depths.rx))
      ensures Counted(rx, stage, depths.rx, moved)
    {
      hide CrcPath.Core, CrcPath.Inside, CrcPath.Room, WellFormed, Fits, Stream, Quads, InsertIcrc.Valid;
      hide ExtractIcrc.Valid, DropInvalidCrc.Valid;
      Ready();
      moved := rx.Step(stage, depths.rx);
    }

    method StepInsert() returns (moved: bool)
      requires Inv() && Room() && Fitting()
      modifies insert, tx.crcOut`q, tx.crcOut`popped, tx.dataOut`q, tx.dataOut`popped, link`q, link`pushed
      ensures Inv() && Room() && Fitting() && moved == old(CanInsert())
      ensures if moved then Work() < old(Work()) else Work() == old(Work())
    {
      hide CrcPath.Core, CrcPath.Outer, CrcPath.Inside, Fits, Stream, Sized, Inv;
      Apartness();
      moved := AdvanceInsert();
    }

    /** What a step of insert_icrc does to the numbers of words and CRCs. */
    twostate predicate InsertCounted(moved: bool)
      reads insert, tx.dataOut, tx.crcOut, link
    {
      var st := old(insert.state);
      && |tx.crcOut.q| + (if moved && st == CRC then 1 else 0) == |old(tx.crcOut.q)|
      && |tx.dataOut.q| + (if moved && st == FWD then 1 else 0) == |old(tx.dataOut.q)|
      && |link.q| == |old(link.q)| + (if moved && st != CRC then 1 else 0)
      && (!moved ==> insert.state == st)
      && (moved && st != FWD ==> insert.state != POST)
      && (moved && st != CRC ==> |old(link.q)| < depths.link)
    }

    method AdvanceInsert() returns (moved: bool)
      requires Inv()
      modifies insert, tx.crcOut`q, tx.crcOut`popped, tx.dataOut`q, tx.dataOut`popped, link`q, link`pushed
      ensures Inv() && moved == old(CanInsert())
      ensures InsertCounted(moved)
    {
      hide CrcPath.Core, CrcPath.Inside, CrcPath.Room, WellFormed, Fits, Stream, Quads, ExtractIcrc.Valid;
      hide DropInvalidCrc.Valid;
      Ready();
      moved := CanInsert();
      if moved {
        insert.Step();
      }
    }

    method StepExtract(any: Crc) returns (moved: bool)
      requires Inv() && Room() && Fitting()
      modifies extract, link`q, link`popped, rx.input`q, rx.input`pushed, tags`q, tags`pushed
      ensures Inv() && Room() && Fitting() && moved == old(CanExtract())
      ensures if moved then Work() < old(Work()) else Work() == old(Work())
    {
      hide CrcPath.Core, CrcPath.Inside, CrcPath.Room, WellFormed, Fits, Stream, Quads, InsertIcrc.Valid;
      hide DropInvalidCrc.Valid;
      Ready();
      moved := CanExtract();
      if moved {
        extract.Step(any);
      }
    }

    method StepDrop() returns (moved: bool)
      requires Inv() && Room() && Fitting()
      modifies drop, tags`q, tags`popped, rx.crcOut`q, rx.crcOut`popped
      modifies rx.dataOut`q, rx.dataOut`popped, sink`q, sink`pushed
      ensures Inv() && Room() && Fitting() && moved == old(CanDrop())
      ensures if moved then Work() < old(Work()) else Work() == old(Work())
    {
      hide CrcPath.Core, CrcPath.Outer, CrcPath.Inside, Fits, Stream, Sized, Inv;
      Apartness();
      moved := AdvanceDrop();
    }

    /** What a step of drop_invalid_crc does to the numbers of words and CRCs. */
    twostate predicate DropCounted(moved: bool)
      reads drop, rx.dataOut, rx.crcOut, tags
    {
      var waiting := moved && !old(drop.forwarding);
      && |rx.crcOut.q| + (if waiting then 1 else 0) == |old(rx.crcOut.q)|
      && |tags.q| + (if waiting then 1 else 0) == |old(tags.q)|
      && |rx.dataOut.q| + (if moved && !waiting then 1 else 0) == |old(rx.dataOut.q)|
    }

    method AdvanceDrop() returns (moved: bool)
      requires Inv()
      modifies drop, tags`q, tags`popped, rx.crcOut`q, rx.crcOut`popped
      modifies rx.dataOut`q, rx.dataOut`popped, sink`q, sink`pushed
      ensures Inv() && moved == old(CanDrop())
      ensures DropCounted(moved)
    {
      hide CrcPath.Core, CrcPath.Inside, WellFormed, CrcPath.Outer, Fits, Stream, Quads, InsertIcrc.Valid;
      hide ExtractIcrc.Valid;
      hide DropInvalidCrc.Valid, DropInvalidCrc.Wired;
      Ready();
      moved := CanDrop();
      if moved {
        drop.Step();
      }
    }

    /** What the stages have done stands in the relations of their invariants. */
    lemma Runs()
      requires Inv()
      ensures Width(n) && Stream(n, tx.input.pushed) && Quads(tx.input.pushed)
      ensures tx.Run().Inv(n) && Quads(tx.input.popped) && Quads(tx.dataOut.popped) && insert.Run().Inv(n)
      ensures extract.Run().Inv(n, link.pushed) && rx.Run().Inv(n)
    {
      Streams();
      QuadsPrefix(tx.input.popped, tx.input.pushed);
      Waiting(n, tx.dataOut);
      QuadsPrefix(tx.dataOut.popped, tx.dataOut.pushed);
      Waiting(n, link);
      CarryingPrefix(n, link.popped, link.pushed);
      hide Stream, WellFormed, Quads, Parse, CrcPath.Core, InsertInv, ExtractInv;
      tx.Result();
      rx.Result();
    }

    /** The runs in terms of the FIFOs. */
    lemma Named()
      requires Inv()
      ensures tx.Run() == PathRun(tx.input.popped, tx.dataOut.pushed, tx.crcOut.pushed)
      ensures insert.Run() == InsertRun(insert.state, insert.crc, tx.crcOut.popped, tx.dataOut.popped, link.pushed)
      ensures extract.Run() ==
        ExtractRun(extract.state, extract.prevWord, link.popped, rx.input.pushed, tags.pushed)
      ensures rx.Run() == PathRun(rx.input.popped, rx.dataOut.pushed, rx.crcOut.pushed)
    {
    }

    /** What has been read is a part of what has been written. */
    lemma Read()
      requires Inv()
      ensures tx.input.popped <= tx.input.pushed && tx.dataOut.popped <= tx.dataOut.pushed
      ensures tx.crcOut.popped <= tx.crcOut.pushed && link.popped <= link.pushed
      ensures rx.input.popped <= rx.input.pushed && rx.dataOut.popped <= rx.dataOut.pushed
      ensures rx.crcOut.popped <= rx.crcOut.pushed && tags.popped <= tags.pushed
    {
    }

    /** What drop_invalid_crc has done. */
    lemma Drops()
      requires Inv()
      ensures |tags.popped| == |rx.crcOut.popped| && sink.pushed == rx.dataOut.popped
      ensures Mismatches(tags.popped, rx.crcOut.popped) == 0 ==> drop.droppedPackets == 0
      ensures Paced(drop.forwarding, rx.dataOut.popped, |tags.popped|)
    {
    }

    /** In every reachable state no packet has been counted as damaged. */
    lemma NothingDropped()
      requires Inv()
      ensures drop.droppedPackets == 0
    {
      hide *;
      Runs();
      Named();
      Read();
      Drops();
      SentThrough();
      LinkAgrees(n, tx.Run(), insert.Run(), extract.Run(), rx.Run(), tags.popped, rx.crcOut.popped);
    }

    /** And the packets delivered are the first ones sent. */
    lemma DeliveredInOrder()
      requires Inv()
      ensures Sized(sink.pushed) && Sized(tx.input.pushed)
      ensures Parse(sink.pushed).done <= Parse(tx.input.pushed).done
      ensures Sized(tx.input.popped) && Parse(sink.pushed).done <= Parse(tx.input.popped).done
    {
      hide *;
      Runs();
      Named();
      Read();
      Drops();
      SentThrough();
      InsertExtractUndo(n, insert.Run(), extract.Run());
      ParsePrefix(tx.dataOut.popped, tx.dataOut.pushed);
      ParsePrefix(tx.input.popped, tx.input.pushed);
      ParsePrefix(sink.pushed, rx.dataOut.pushed);
      ParsePrefix(rx.input.popped, rx.input.pushed);
      PrefixTrans(Parse(sink.pushed).done, Parse(rx.dataOut.pushed).done, Parse(rx.input.pushed).done);
      PrefixTrans(Parse(tx.dataOut.popped).done, Parse(tx.dataOut.pushed).done, Parse(tx.input.pushed).done);
      PrefixTrans(Parse(sink.pushed).done, Parse(tx.dataOut.popped).done, Parse(tx.input.pushed).done);
    }

    /** The paths pass on what they read. */
    lemma SentThrough()
      requires Inv()
      ensures tx.dataOut.pushed == tx.input.popped && rx.dataOut.pushed == rx.input.popped
      ensures Stream(n, tx.input.pushed) && Sized(tx.input.pushed)
      ensures Stream(n, tx.input.popped) && Sized(tx.input.popped)
      ensures Stream(n, rx.input.pushed) && Sized(rx.input.pushed)
      ensures Stream(n, rx.input.popped) && Sized(rx.input.popped)
      ensures |tx.crcOut.pushed| <= |Parse(tx.input.popped).done|
      ensures |rx.crcOut.pushed| <= |Parse(rx.input.popped).done|
      ensures extract.Run().sent == rx.input.pushed && insert.Run().read == tx.dataOut.popped
    {
      Streams();
      hide *;
      Runs();
      Named();
      Passed(n, tx.Run());
      Passed(n, rx.Run());
      StreamSized(n, tx.input.pushed);
      StreamSized(n, rx.input.pushed);
    }
  }

  lemma Passed(n: nat, path: PathRun)
    requires path.Inv(n)
    ensures Stream(n, path.read) && Sized(path.read) && path.data == path.read
    ensures |path.crcs| <= |Parse(path.read).done|
  {
  }

  /** Sender and receiver that nobody else knows, ready to be stepped. */
  method NewLoop(n: nat, any: Word, depths: LoopDepths) returns (c: CrcLoop)
    requires Width(n) && |any.data| == |any.keep| == n
    ensures c.Inv() && c.Room() && c.Fitting() && c.n == n && c.depths == depths && fresh(c) && fresh(c.Machines())
  {
    hide CrcPath.Core, CrcPath.Inner, CrcPath.Ends, CrcPath.Room, CrcPath.Outer, CrcLoop.Inv, CrcLoop.Room;
    hide CrcLoop.Fitting, PathsApart, Idle, Width;
    var tx, rx := NewPaths(n, any);
    c := new CrcLoop(tx, rx, any, depths);
  }

  lemma QuadsPrefix(a: seq<Word>, b: seq<Word>)
    requires a <= b && Quads(b)
    ensures Quads(a)
  {
    assert forall i :: 0 <= i < |a| ==> a[i] == b[i];
  }
}
