/** What is delivered when no stage of sender or receiver can move any more, with FIFOs of bounded
    depth.  The mask stage fills the FIFO behind it while the packet waits there for its CRC, and the
    CRC needs the last word of the packet through the same mask stage: a packet with more words than
    that FIFO holds blocks its side for good.  All packets before it come out. */
module CrcDelivery {
  import opened Fifos
  import opened Words
  import opened Crc32
  import opened Icrc
  import opened Masking
  import opened IcrcLink
  import opened OpenPackets
  import opened CrcPaths
  import opened CrcLoops

  // ----- One path -----

  /** The stages behind the mask that cannot move have nothing to do, as long as there is room for
      a CRC at the end. */
  lemma StuckStages(p: CrcPath, depths: Depths)
    requires depths.Positive() && p.Stuck(depths) && |p.crcOut.q| < depths.crcOut
    ensures (if p.merger.one then p.crcs1.q else p.crcs2.q) == []
    ensures p.crcs1.q == [] ==> p.lane1.q == [] && !p.engine1.second
    ensures p.crcs2.q == [] ==> p.lane2.q == [] && !p.engine2.second
    ensures p.lane1.q == [] && p.lane2.q == [] ==> p.masked.q == []
    ensures p.masked.q == [] ==> p.input.q == [] || |p.dataOut.q| >= depths.data
  {
    assert !p.CanStep(0, depths) && !p.CanStep(1, depths) && !p.CanStep(2, depths);
    assert !p.CanStep(3, depths) && !p.CanStep(4, depths);
  }

  lemma Emptied(p: CrcPath)
    requires p.Valid()
    ensures p.lane1.q == [] && !p.engine1.second ==> p.engine1.Run().AtRest(p.lane1.pushed)
    ensures p.lane2.q == [] && !p.engine2.second ==> p.engine2.Run().AtRest(p.lane2.pushed)
    ensures p.crcs1.q == [] <==> p.crcs1.popped == p.crcs1.pushed
    ensures p.crcs2.q == [] <==> p.crcs2.popped == p.crcs2.pushed
    ensures p.masked.q == [] ==> p.masked.popped == p.masked.pushed
  {
  }

  /** Then every packet that has passed the mask has got its CRC. */
  lemma PathDrained(p: CrcPath, depths: Depths)
    requires p.Valid() && depths.Positive() && p.Stuck(depths) && |p.crcOut.q| < depths.crcOut
    ensures Sized(p.input.popped) && |p.crcOut.pushed| == |Parse(p.input.popped).done|
    ensures p.input.q == [] || |p.dataOut.q| >= depths.data
  {
    hide *;
    StuckStages(p, depths);
    Emptied(p);
    p.Runs();
    p.Named();
    p.Masks();
    p.Streams();
    TwoEnginesInOrder(p.n, p.arbiter.Run(), p.engine1.Run(), p.engine2.Run(), p.merger.Run());
    assert p.merger.Run().taken1 == p.engine1.Run().sent && p.merger.Run().taken2 == p.engine2.Run().sent;
    assert p.masked.popped == p.masked.pushed;
    StreamSized(p.n, p.input.popped);
    StreamSized(p.n, p.masked.pushed);
    MaskedCount(p.n, p.mask.wordCount, p.input.popped, p.dataOut.pushed, p.masked.pushed);
    CrcsCount(Parse(p.masked.pushed).done);
  }

  lemma MaskedCount(n: nat, wordCount: nat, read: seq<Word>, data: seq<Word>, masked: seq<Word>)
    requires n > 0 && MaskInv(n, wordCount, read, data, masked)
    ensures Sized(read) && Sized(masked) && |Parse(masked).done| == |Parse(read).done|
  {
  }

  lemma CrcsCount(ps: seq<seq<Byte>>)
    ensures |Crcs(ps)| == |ps|
  {
  }

  // ----- The receiver -----

  /** What the FIFOs hold, as far as they are empty. */
  lemma Empties(c: CrcLoop)
    requires c.Inv()
    ensures c.rx.dataOut.q == [] ==> c.rx.dataOut.popped == c.rx.dataOut.pushed
    ensures c.tx.dataOut.q == [] ==> c.tx.dataOut.popped == c.tx.dataOut.pushed
    ensures c.rx.input.q == [] <==> c.rx.input.popped == c.rx.input.pushed
    ensures c.tx.input.q == [] <==> c.tx.input.popped == c.tx.input.pushed
    ensures c.link.q == [] ==> c.link.popped == c.link.pushed
    ensures c.tags.q == [] <==> |c.tags.popped| == |c.tags.pushed|
    ensures c.rx.crcOut.q == [] <==> |c.rx.crcOut.popped| == |c.rx.crcOut.pushed|
    ensures c.tx.crcOut.q == [] <==> |c.tx.crcOut.popped| == |c.tx.crcOut.pushed|
  {
  }

  /** extract_icrc has sent one CRC for every packet finished at the receiver. */
  lemma TagCounts(c: CrcLoop)
    requires c.Inv()
    ensures Sized(c.rx.input.pushed) && |c.tags.pushed| == |Parse(c.rx.input.pushed).done|
  {
    hide *;
    c.Runs();
    c.Named();
    ExtractLength(c.n, c.link.pushed, c.extract.Run());
  }

  /** drop_invalid_crc can only be waiting for the CRCs of the next packet. */
  lemma DropRests(c: CrcLoop)
    requires c.Inv() && !c.CanDrop()
    ensures !c.drop.forwarding && c.rx.crcOut.q == []
  {
    hide *;
    c.SentThrough();
    c.Drops();
    c.Read();
    Empties(c);
    TagCounts(c);
    DropWaits(c);
    EndsOfPackets(c.rx.dataOut.pushed);
    ParsePrefix(c.rx.input.popped, c.rx.input.pushed);
    PacedEnds(c.drop.forwarding, c.rx.dataOut.popped, |c.tags.popped|);
  }

  lemma DropWaits(c: CrcLoop)
    requires !c.CanDrop()
    ensures c.drop.forwarding ==> c.rx.dataOut.q == []
    ensures !c.drop.forwarding ==> c.tags.q == [] || c.rx.crcOut.q == []
  {
  }

  lemma PacedEnds(forwarding: bool, words: seq<Word>, compared: nat)
    requires Paced(forwarding, words, compared)
    ensures compared == if forwarding then Ends(words) + 1 else Ends(words)
    ensures !forwarding ==> words == [] || words[|words| - 1].last
  {
  }

  lemma StuckParts(c: CrcLoop)
    requires c.Stuck()
    ensures c.tx.Stuck(c.depths.tx) && c.rx.Stuck(c.depths.rx)
    ensures !c.CanInsert() && !c.CanExtract() && !c.CanDrop()
  {
  }

  lemma Depth(d: LoopDepths)
    requires d.Positive()
    ensures d.tx.Positive() && d.rx.Positive() && d.link > 0 && d.words > 0 && d.tags > 0
    ensures d.tx.data > 0 && d.tx.crcOut > 0 && d.rx.data > 0 && d.rx.crcOut > 0
  {
  }

  /** The receiver at rest: every packet that has passed its mask is delivered, and if it cannot
      read on, the FIFO behind the mask is full of the words of one open packet. */
  lemma ReceiverRests(c: CrcLoop)
    requires c.Inv() && c.Stuck() && c.depths.Positive()
    ensures Sized(c.sink.pushed) && Sized(c.rx.input.popped) && Sized(c.rx.input.pushed)
    ensures Parse(c.sink.pushed) == Packets(Parse(c.rx.input.popped).done, [])
    ensures |c.tags.popped| == |Parse(c.sink.pushed).done|
    ensures c.rx.input.popped != c.rx.input.pushed ==>
      |Parse(c.rx.input.popped).cur| >= Whole(c.depths.rx.data, c.n)
  {
    hide *;
    StuckParts(c);
    Depth(c.depths);
    DropRests(c);
    c.Ready();
    PathDrained(c.rx, c.depths.rx);
    c.SentThrough();
    c.Drops();
    c.Read();
    Empties(c);
    c.Queued();
    PacedEnds(false, c.rx.dataOut.popped, |c.tags.popped|);
    ParsePrefix(c.rx.dataOut.popped, c.rx.dataOut.pushed);
    EndsOfPackets(c.rx.dataOut.popped);
    StreamPrefix(c.n, c.rx.dataOut.popped, c.rx.dataOut.pushed);
    CurEmpty(c.n, c.rx.dataOut.popped);
    SameDone(Parse(c.rx.dataOut.popped), Parse(c.rx.dataOut.pushed));
    OpenWhole(c.n, c.rx.dataOut.popped, c.rx.dataOut.pushed);
    if c.rx.input.popped != c.rx.input.pushed {
      WholeMono(c.depths.rx.data, |c.rx.dataOut.q|, c.n);
    }
  }

  lemma StreamPrefix(n: nat, a: seq<Word>, b: seq<Word>)
    requires a <= b && Stream(n, b)
    ensures Stream(n, a)
  {
    assert forall i :: 0 <= i < |a| ==> a[i] == b[i];
  }

  lemma SameDone(p: Packets, q: Packets)
    requires p.done <= q.done && |p.done| == |q.done| && p.cur == []
    ensures p == Packets(q.done, [])
  {
  }

  // ----- The sender -----

  /** insert_icrc with room on the link waits for a CRC, or for a word. */
  lemma InsertWaits(c: CrcLoop)
    requires !c.CanInsert() && |c.link.q| < c.depths.link
    ensures (c.insert.state == CRC && c.tx.crcOut.q == []) || (c.insert.state == FWD && c.tx.dataOut.q == [])
  {
  }

  lemma ExtractWaits(c: CrcLoop)
    requires !c.CanExtract() && |c.rx.input.q| < c.depths.words && |c.tags.q| < c.depths.tags
    ensures c.extract.state != LAST && c.link.q == []
  {
  }

  /** It never waits for a word, because CRCs come no earlier than the ends of their packets. */
  lemma NotInside(n: nat, insert: InsertRun)
    requires insert.Inv(n) && Sized(insert.read) && |insert.crcs| <= |Parse(insert.read).done|
    ensures insert.state != FWD
  {
  }

  /** insert_icrc and extract_icrc between packets. */
  lemma MiddleRests(n: nat, insert: InsertRun, extract: ExtractRun)
    requires Width(n) && insert.Inv(n) && extract.Inv(n, insert.sent)
    requires insert.state == CRC && extract.state != LAST && extract.read == insert.sent
    ensures Sized(insert.read) && Sized(extract.sent) && Parse(insert.read).cur == []
    ensures |insert.crcs| == |Parse(insert.read).done| == |Parse(extract.sent).done|
  {
    assert Parse(extract.read).cur == [];
    assert extract.state == FIRST;
  }

  lemma LinkIdle(c: CrcLoop)
    requires c.Inv() && c.Stuck() && c.depths.Positive()
    requires c.rx.input.q == [] && c.tags.q == []
    ensures c.insert.state == CRC && c.tx.crcOut.q == [] && c.extract.state != LAST && c.link.q == []
  {
    hide *;
    StuckParts(c);
    Depth(c.depths);
    ExtractWaits(c);
    InsertWaits(c);
    c.Runs();
    c.Named();
    c.SentThrough();
    c.Read();
    Empties(c);
    if c.insert.state == FWD {
      NotInside(c.n, c.insert.Run());
    }
  }

  /** The sender at rest behind a receiver that has read everything. */
  lemma SenderRests(c: CrcLoop)
    requires c.Inv() && c.Stuck() && c.depths.Positive()
    requires c.rx.input.q == [] && c.tags.q == []
    ensures Sized(c.rx.input.pushed) && Sized(c.tx.input.popped)
    ensures |Parse(c.rx.input.pushed).done| == |Parse(c.tx.input.popped).done|
    ensures c.tx.input.popped != c.tx.input.pushed ==>
      |Parse(c.tx.input.popped).cur| >= Whole(c.depths.tx.data, c.n)
  {
    hide *;
    LinkIdle(c);
    StuckParts(c);
    Depth(c.depths);
    c.Ready();
    PathDrained(c.tx, c.depths.tx);
    c.Runs();
    c.Named();
    c.SentThrough();
    c.Read();
    Empties(c);
    MiddleRests(c.n, c.insert.Run(), c.extract.Run());
    c.Queued();
    OpenWhole(c.n, c.tx.dataOut.popped, c.tx.dataOut.pushed);
    if c.tx.input.popped != c.tx.input.pushed {
      WholeMono(c.depths.tx.data, |c.tx.dataOut.q|, c.n);
    }
  }

  // ----- Both -----

  /** The packet that is arriving is no longer than the one sent. */
  lemma ArrivingLength(c: CrcLoop, k: nat)
    requires c.Inv()
    ensures Sized(c.rx.input.pushed) && Sized(c.tx.input.pushed)
    ensures k <= |Parse(c.rx.input.pushed).done| ==>
      |Bytes(Parse(c.rx.input.pushed), k)| <= |Bytes(Parse(c.tx.input.pushed), k)|
  {
    hide *;
    c.Runs();
    c.Named();
    c.SentThrough();
    c.Read();
    InsertExtractUndo(c.n, c.insert.Run(), c.extract.Run());
    LinkLength(c.n, c.insert.Run(), c.extract.Run());
    BytesGrow(c.tx.dataOut.popped, c.tx.dataOut.pushed, k);
    BytesGrow(c.tx.input.popped, c.tx.input.pushed, k);
    SameOrOpen(Parse(c.rx.input.pushed), Parse(c.tx.dataOut.popped), k);
  }

  lemma SameOrOpen(o: Packets, p: Packets, k: nat)
    requires o.done <= p.done && |o.cur| <= |Bytes(p, |o.done|)|
    ensures k <= |o.done| ==> |Bytes(o, k)| <= |Bytes(p, k)|
  {
  }

  /** The longest packet, in words, that both mask stages let through. */
  function LongestWords(d: LoopDepths): nat {
    if d.tx.data < d.rx.data then d.tx.data else d.rx.data
  }

  predicate Passes(n: nat, d: LoopDepths, p: seq<Byte>) {
    |p| <= Whole(LongestWords(d), n)
  }

  /** What is delivered at the end. */
  ghost predicate Delivered(n: nat, d: LoopDepths, sent: Packets, got: Packets) {
    && got.cur == [] && got.done <= sent.done
    && (forall i :: 0 <= i < |got.done| ==> Passes(n, d, got.done[i]))
    && (|got.done| < |sent.done| ==> !Passes(n, d, sent.done[|got.done|]))
  }

  lemma NextTooLong(n: nat, d: LoopDepths, depth: nat, read: seq<Word>, all: seq<Word>)
    requires Stream(n, all) && read <= all && read != all && LongestWords(d) <= depth
    ensures Sized(read) && Sized(all)
    ensures |Parse(read).cur| >= Whole(depth, n) ==>
      |Parse(read).done| <= |Parse(all).done| && !Passes(n, d, Bytes(Parse(all), |Parse(read).done|))
  {
    StreamSized(n, all);
    ParsePrefix(read, all);
    NextBytes(n, read, all);
    WholeMono(LongestWords(d), depth, n);
  }

  lemma PassesLonger(n: nat, d: LoopDepths, p: seq<Byte>, q: seq<Byte>)
    requires |p| <= |q| && !Passes(n, d, p)
    ensures !Passes(n, d, q)
  {
  }

  /** The next packet has not been delivered because it is too long. */
  lemma NextIsTooLong(c: CrcLoop)
    requires c.Inv() && c.Stuck() && c.depths.Positive()
    ensures Sized(c.tx.input.pushed) && Sized(c.sink.pushed)
    ensures var k, all := |Parse(c.sink.pushed).done|, Parse(c.tx.input.pushed);
      k == |all.done| || !Passes(c.n, c.depths, Bytes(all, k))
  {
    hide *;
    ReceiverRests(c);
    c.SentThrough();
    c.Read();
    Empties(c);
    TagCounts(c);
    Longest(c.depths);
    var k := |Parse(c.sink.pushed).done|;
    if c.rx.input.popped != c.rx.input.pushed {
      NextTooLong(c.n, c.depths, c.depths.rx.data, c.rx.input.popped, c.rx.input.pushed);
      ArrivingLength(c, k);
      PassesLonger(c.n, c.depths, Bytes(Parse(c.rx.input.pushed), k), Bytes(Parse(c.tx.input.pushed), k));
    } else {
      SenderRests(c);
      if c.tx.input.popped != c.tx.input.pushed {
        NextTooLong(c.n, c.depths, c.depths.tx.data, c.tx.input.popped, c.tx.input.pushed);
      }
    }
  }

  lemma Longest(d: LoopDepths)
    ensures LongestWords(d) <= d.tx.data && LongestWords(d) <= d.rx.data
    ensures LongestWords(d) == d.tx.data || LongestWords(d) == d.rx.data
  {
  }

  /** Everything delivered, at any time, has passed both masks. */
  lemma DeliveredPasses(c: CrcLoop)
    requires c.Inv() && c.Fitting()
    ensures Sized(c.sink.pushed)
    ensures forall i :: 0 <= i < |Parse(c.sink.pushed).done| ==> Passes(c.n, c.depths, Parse(c.sink.pushed).done[i])
  {
    c.DeliveredInOrder();
    c.SentThrough();
    c.Drops();
    c.Read();
    ParsePrefix(c.sink.pushed, c.rx.dataOut.pushed);
    FitsBoth(c.n, c.depths, Parse(c.sink.pushed).done, c.tx.input.popped, c.rx.input.popped);
  }

  lemma FitsBoth(n: nat, d: LoopDepths, ps: seq<seq<Byte>>, a: seq<Word>, b: seq<Word>)
    requires Fits(n, a, d.tx.data) && Fits(n, b, d.rx.data) && ps <= Parse(a).done && ps <= Parse(b).done
    ensures forall i :: 0 <= i < |ps| ==> Passes(n, d, ps[i])
  {
    forall i | 0 <= i < |ps| ensures Passes(n, d, ps[i]) {
      assert ps[i] == Parse(a).done[i] == Parse(b).done[i];
    }
  }

  /** When nothing can move, exactly the packets before the first that is longer than a FIFO behind
      a mask stage have been delivered, byte for byte. */
  lemma DeliveredUpToTooLong(c: CrcLoop)
    requires c.Inv() && c.Fitting() && c.Stuck() && c.depths.Positive()
    ensures Sized(c.tx.input.pushed) && Sized(c.sink.pushed)
    ensures Delivered(c.n, c.depths, Parse(c.tx.input.pushed), Parse(c.sink.pushed))
  {
    hide *;
    c.DeliveredInOrder();
    DeliveredPasses(c);
    NextIsTooLong(c);
    ReceiverRests(c);
    MakeDelivered(c.n, c.depths, Parse(c.tx.input.pushed), Parse(c.sink.pushed));
  }

  lemma MakeDelivered(n: nat, d: LoopDepths, sent: Packets, got: Packets)
    requires got.cur == [] && got.done <= sent.done
    requires forall i :: 0 <= i < |got.done| ==> Passes(n, d, got.done[i])
    requires |got.done| == |sent.done| || !Passes(n, d, Bytes(sent, |got.done|))
    ensures Delivered(n, d, sent, got)
  {
  }

  /** So every finished packet has been delivered if and only if none is too long. */
  lemma EverythingDeliveredIff(c: CrcLoop)
    requires c.Inv() && c.Fitting() && c.Stuck() && c.depths.Positive()
    ensures Sized(c.tx.input.pushed) && Sized(c.sink.pushed)
    ensures var sent := Parse(c.tx.input.pushed).done;
      Parse(c.sink.pushed) == Packets(sent, []) <==>
      forall i :: 0 <= i < |sent| ==> Passes(c.n, c.depths, sent[i])
  {
    DeliveredUpToTooLong(c);
    hide *;
    AllDelivered(c.n, c.depths, Parse(c.tx.input.pushed), Parse(c.sink.pushed));
  }

  lemma AllDelivered(n: nat, d: LoopDepths, sent: Packets, got: Packets)
    requires Delivered(n, d, sent, got)
    ensures got == Packets(sent.done, []) <==> forall i :: 0 <= i < |sent.done| ==> Passes(n, d, sent.done[i])
  {
    if forall i :: 0 <= i < |sent.done| ==> Passes(n, d, sent.done[i]) {
      assert |got.done| == |sent.done|;
    }
  }

  /** A packet that is too long is never delivered, nor is any packet behind it, however long the
      stages run. */
  lemma TooLongSticks(c: CrcLoop, k: nat)
    requires c.Inv() && c.Fitting()
    ensures Sized(c.tx.input.pushed) && Sized(c.sink.pushed)
    ensures var sent := Parse(c.tx.input.pushed).done;
      k < |sent| && !Passes(c.n, c.depths, sent[k]) ==> |Parse(c.sink.pushed).done| <= k
  {
    hide *;
    c.DeliveredInOrder();
    DeliveredPasses(c);
    PrefixTrans(Parse(c.sink.pushed).done, Parse(c.sink.pushed).done, Parse(c.tx.input.pushed).done);
    if k < |Parse(c.sink.pushed).done| {
      assert Parse(c.sink.pushed).done[k] == Parse(c.tx.input.pushed).done[k];
    }
  }

  /** With the depths of crc.cpp the limit is 384 words, set by the sender. */
  lemma LimitOfCrc(link: nat)
    ensures CrcDepths(link) == LoopDepths(Depths(384, 4, 128, 2, 2), Depths(512, 4, 256, 2, 32), link, 4, 32)
    ensures LongestWords(CrcDepths(link)) == 384
  {
  }
}
