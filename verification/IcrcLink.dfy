/** The CRC units of crc.cpp wired together: on each side the packets are masked and dealt to two
    CRC engines; the sender inserts the results, the receiver compares. */
module IcrcLink {
  import opened Fifos
  import opened Words
  import opened Crc32
  import opened Icrc
  import opened Masking

  const DROP_COUNTER_RANGE: nat := 0x1_0000_0000

  // ----- drop_invalid_crc -----

  /** How often a received CRC differed from the complement of the recomputed one. */
  function Mismatches(act: seq<Crc>, own: seq<Crc>): nat
    requires |act| == |own|
  {
    if act == [] then 0 else
      Mismatches(act[..|act| - 1], own[..|own| - 1]) + if act[|act| - 1] == !own[|own| - 1] then 0 else 1
  }

  lemma MismatchesSnoc(act: seq<Crc>, own: seq<Crc>, a: Crc, c: Crc)
    requires |act| == |own|
    ensures Mismatches(act + [a], own + [c]) == Mismatches(act, own) + if a == !c then 0 else 1
  {
    assert (act + [a])[..|act|] == act && (own + [c])[..|own|] == own;
  }

  predicate Differ(act: seq<Crc>, own: seq<Crc>, i: nat)
    requires |act| == |own|
  {
    i < |act| && act[i] != !own[i]
  }

  /** The pairs of CRCs that differ. */
  ghost function Damaged(act: seq<Crc>, own: seq<Crc>): set<nat>
    requires |act| == |own|
  {
    set i: nat | i < |act| && Differ(act, own, i)
  }

  lemma DifferFront(act: seq<Crc>, own: seq<Crc>, k: nat)
    requires |act| == |own| == k + 1
    ensures forall i: nat | i < k :: Differ(act[..k], own[..k], i) == Differ(act, own, i)
  {
  }

  lemma DamagedNext(act: seq<Crc>, own: seq<Crc>, k: nat)
    requires |act| == |own| == k + 1
    ensures |Damaged(act, own)| == |Damaged(act[..k], own[..k])| + if Differ(act, own, k) then 1 else 0
  {
    hide Differ;
    DifferFront(act, own, k);
    var before := Damaged(act[..k], own[..k]);
    assert k !in before;
    assert Damaged(act, own) == before + if Differ(act, own, k) then {k} else {};
  }

  lemma DifferIs(act: seq<Crc>, own: seq<Crc>)
    requires |act| == |own|
    ensures forall i: nat | i < |act| :: Differ(act, own, i) <==> act[i] != !own[i]
  {
  }

  lemma MismatchNext(act: seq<Crc>, own: seq<Crc>, k: nat)
    requires |act| == |own| == k + 1
    ensures Mismatches(act, own) == Mismatches(act[..k], own[..k]) + if Differ(act, own, k) then 1 else 0
  {
  }

  /** Every received CRC that is not the complement of the recomputed one is counted, and no other. */
  lemma {:induction false} MismatchesCount(act: seq<Crc>, own: seq<Crc>)
    requires |act| == |own|
    ensures Mismatches(act, own) == |set i: nat | i < |act| && Differ(act, own, i)|
    ensures forall i: nat | i < |act| :: Differ(act, own, i) <==> act[i] != !own[i]
  {
    hide Differ, Mismatches;
    DifferIs(act, own);
    if act == [] {
      NoPairs(act, own);
    } else {
      var k := |act| - 1;
      DamagedNext(act, own, k);
      MismatchNext(act, own, k);
      MismatchesCount(act[..k], own[..k]);
    }
  }

  lemma NoPairs(act: seq<Crc>, own: seq<Crc>)
    requires act == own == []
    ensures Mismatches(act, own) == 0
  {
  }

  lemma NoMismatchIff(act: seq<Crc>, own: seq<Crc>)
    requires |act| == |own|
    ensures Mismatches(act, own) == 0 <==> forall i :: 0 <= i < |act| ==> act[i] == !own[i]
  {
    NoneDiffer(act, own);
    hide Differ, Mismatches;
    MismatchesCount(act, own);
  }

  lemma NoneDiffer(act: seq<Crc>, own: seq<Crc>)
    requires |act| == |own|
    ensures |Damaged(act, own)| == 0 <==> forall i: nat | i < |act| :: !Differ(act, own, i)
  {
    hide Differ;
    if i: nat :| i < |act| && Differ(act, own, i) {
      assert i in Damaged(act, own);
    }
  }

  lemma DropNext(m: nat)
    ensures (m % DROP_COUNTER_RANGE + 1) % DROP_COUNTER_RANGE == (m + 1) % DROP_COUNTER_RANGE
  {
  }

  /** One pair of CRCs is compared for every packet, before its first word is passed on. */
  ghost predicate Paced(forwarding: bool, words: seq<Word>, compared: nat) {
    && compared == Ends(words) + (if forwarding then 1 else 0)
    && (!forwarding ==> words == [] || words[|words| - 1].last)
  }

  lemma PacedNext(words: seq<Word>, w: Word, compared: nat)
    requires Paced(true, words, compared)
    ensures Paced(!w.last, words + [w], compared)
  {
    EndsSnoc(words, w);
  }

  lemma PacedStart(words: seq<Word>, compared: nat)
    requires Paced(false, words, compared)
    ensures Paced(true, words, compared + 1)
  {
  }

  class DropInvalidCrc {
    const input: Fifo<Word>
    const crcFifo: Fifo<Crc>
    const calcCrcFifo: Fifo<Crc>
    const output: Fifo<Word>
    /** FWD when true, META otherwise; the DROP state is never entered. */
    var forwarding: bool
    var droppedPackets: nat

    ghost predicate Valid()
      reads this, crcFifo`popped, calcCrcFifo`popped, input`popped, output`pushed
    {
      && |crcFifo.popped| == |calcCrcFifo.popped|
      && droppedPackets == Mismatches(crcFifo.popped, calcCrcFifo.popped) % DROP_COUNTER_RANGE
      && output.pushed == input.popped
      && Paced(forwarding, input.popped, |crcFifo.popped|)
    }

    constructor (input: Fifo<Word>, crcFifo: Fifo<Crc>, calcCrcFifo: Fifo<Crc>, output: Fifo<Word>)
      requires crcFifo.popped == [] && calcCrcFifo.popped == [] && input.popped == [] && output.pushed == []
      ensures Valid() && this.input == input && this.crcFifo == crcFifo
      ensures this.calcCrcFifo == calcCrcFifo && this.output == output
    {
      this.input, this.crcFifo, this.calcCrcFifo, this.output := input, crcFifo, calcCrcFifo, output;
      forwarding, droppedPackets := false, 0;
    }

    ghost predicate Wired()
      reads crcFifo, calcCrcFifo, input, output
    {
      && crcFifo.Valid() && calcCrcFifo.Valid() && input.Valid() && output.Valid()
      && crcFifo != calcCrcFifo && input != output
      && crcFifo as object != input && crcFifo as object != output
      && calcCrcFifo as object != input && calcCrcFifo as object != output
    }

    /** META: compare the next received and recomputed CRC; either way the packet is forwarded. */
    method Compare()
      requires Valid() && Wired() && !forwarding && crcFifo.q != [] && calcCrcFifo.q != []
      modifies this, crcFifo`q, crcFifo`popped, calcCrcFifo`q, calcCrcFifo`popped
      ensures Valid() && Wired() && forwarding
      ensures crcFifo.popped == old(crcFifo.popped) + [old(crcFifo.q)[0]]
      ensures calcCrcFifo.popped == old(calcCrcFifo.popped) + [old(calcCrcFifo.q)[0]]
      ensures var actCrc, calcCrc := old(crcFifo.q)[0], old(calcCrcFifo.q)[0];
        droppedPackets
        == if actCrc == !calcCrc then old(droppedPackets) else (old(droppedPackets) + 1) % 0x1_0000_0000
    {
      hide Mismatches, Paced, Ends;
      PacedStart(input.popped, |crcFifo.popped|);
      ghost var acts, owns := crcFifo.popped, calcCrcFifo.popped;
      var actCrc := crcFifo.Read();
      var calcCrc := calcCrcFifo.Read();
      Count(actCrc, calcCrc, acts, owns);
      forwarding := true;
    }

    /** Count a received CRC that is not the complement of the recomputed one. */
    method Count(actCrc: Crc, calcCrc: Crc, ghost acts: seq<Crc>, ghost owns: seq<Crc>)
      requires |acts| == |owns| && droppedPackets == Mismatches(acts, owns) % DROP_COUNTER_RANGE
      modifies this`droppedPackets
      ensures droppedPackets == Mismatches(acts + [actCrc], owns + [calcCrc]) % DROP_COUNTER_RANGE
      ensures droppedPackets
              == if actCrc == !calcCrc then old(droppedPackets) else (old(droppedPackets) + 1) % 0x1_0000_0000
    {
      hide Mismatches;
      DropNext(Mismatches(acts, owns));
      MismatchesSnoc(acts, owns, actCrc, calcCrc);
      if actCrc != !calcCrc {
        droppedPackets := (droppedPackets + 1) % DROP_COUNTER_RANGE;
      }
    }

    /** One call: compare two CRCs, or forward a word of the packet they belong to. */
    method Step()
      requires Valid() && Wired()
      modifies this, crcFifo`q, crcFifo`popped, calcCrcFifo`q, calcCrcFifo`popped
      modifies input`q, input`popped, output`q, output`pushed
      ensures Valid() && Wired()
      ensures old(forwarding) ==>
        && input.popped == old(input.popped) + Next(old(input.q))
        && crcFifo.popped == old(crcFifo.popped) && calcCrcFifo.popped == old(calcCrcFifo.popped)
      ensures !old(forwarding) ==> input.popped == old(input.popped)
      ensures !old(forwarding) && old(crcFifo.q) != [] && old(calcCrcFifo.q) != [] ==>
        && crcFifo.popped == old(crcFifo.popped) + [old(crcFifo.q)[0]]
        && calcCrcFifo.popped == old(calcCrcFifo.popped) + [old(calcCrcFifo.q)[0]] && forwarding
      ensures droppedPackets ==
        if !old(forwarding) && old(crcFifo.q) != [] && old(calcCrcFifo.q) != []
           && old(crcFifo.q)[0] != !old(calcCrcFifo.q)[0]
        then (old(droppedPackets) + 1) % 0x1_0000_0000 else old(droppedPackets)
    {
      if !forwarding {
        if crcFifo.q != [] && calcCrcFifo.q != [] {
          Compare();
        }
      } else {
        if input.q != [] {
          var currWord := input.Read();
          output.Write(currWord);
          PacedNext(old(input.popped), currWord, |crcFifo.popped|);
          if currWord.last {
            forwarding := false;
          }
        }
      }
    }
  }

  // ----- Mask and two engines -----

  /** What the five stages of one side have done together: the words are passed on, and the CRCs
      sent are, in packet order, those of the masked packets. */
  ghost predicate PathResult(n: nat, read: seq<Word>, data: seq<Word>, crcs: seq<Crc>)
    requires n > 0 && Sized(read)
  {
    data == read && crcs <= Crcs(MaskedAll(n, Parse(read).done))
  }

  lemma PathAgrees(n: nat, wordCount: nat, read: seq<Word>, data: seq<Word>, masked: seq<Word>,
                   dealt: seq<Word>, crcs: seq<Crc>)
    requires n > 0 && MaskInv(n, wordCount, read, data, masked)
    requires dealt <= masked && crcs <= Crcs(Parse(dealt).done)
    ensures PathResult(n, read, data, crcs)
  {
    ParsePrefix(dealt, masked);
    CrcsPrefix(Parse(dealt).done, Parse(masked).done);
  }

  // ----- Both sides -----

  /** A moment in the run of one path: the words read and passed on, and the CRCs sent. */
  datatype PathRun = PathRun(read: seq<Word>, data: seq<Word>, crcs: seq<Crc>) {
    ghost predicate Inv(n: nat) {
      n > 0 && Stream(n, read) && PathResult(n, read, data, crcs)
    }
  }

  /** Sender and receiver joined back to back, in any state that the stages can reach: the k-th
      CRC received is the complement of the k-th CRC recomputed. */
  lemma LinkAgrees(n: nat, tx: PathRun, insert: InsertRun, extract: ExtractRun, rx: PathRun,
                   act: seq<Crc>, own: seq<Crc>)
    requires Width(n) && tx.Inv(n) && Quads(tx.read)
    requires insert.Inv(n) && insert.crcs <= tx.crcs && insert.read <= tx.data
    requires extract.Inv(n, insert.sent)
    requires rx.Inv(n) && rx.read <= extract.sent
    requires act <= extract.tags && own <= rx.crcs && |act| == |own|
    ensures Mismatches(act, own) == 0
  {
    hide *;
    LinkStreams(n, tx, insert, extract, rx);
    InsertExtractUndo(n, insert, extract);
    ParsePrefix(insert.read, tx.read);
    ParsePrefix(rx.read, extract.sent);
    AgreeAll(n, Parse(tx.read).done, Parse(rx.read).done, tx.crcs, rx.crcs, insert.crcs, act, own);
    NoMismatchIff(act, own);
  }

  lemma LinkStreams(n: nat, tx: PathRun, insert: InsertRun, extract: ExtractRun, rx: PathRun)
    requires tx.Inv(n) && rx.Inv(n) && insert.Inv(n) && extract.Inv(n, insert.sent) && Quads(tx.read)
    requires insert.read <= tx.data && rx.read <= extract.sent
    ensures insert.read <= tx.read && Sized(tx.read) && Sized(rx.read) && Sized(extract.sent) && Quads(insert.read)
    ensures n > 0 && tx.crcs <= Crcs(MaskedAll(n, Parse(tx.read).done))
    ensures rx.crcs <= Crcs(MaskedAll(n, Parse(rx.read).done))
  {
  }

  lemma AgreeAll(n: nat, p: seq<seq<Byte>>, r: seq<seq<Byte>>, txCrcs: seq<Crc>, rxCrcs: seq<Crc>,
                 inserted: seq<Crc>, act: seq<Crc>, own: seq<Crc>)
    requires n > 0 && r <= p && txCrcs <= Crcs(MaskedAll(n, p)) && rxCrcs <= Crcs(MaskedAll(n, r))
    requires inserted <= txCrcs && own <= rxCrcs && |act| == |own| && |act| <= |inserted|
    requires forall i :: 0 <= i < |act| ==> act[i] == !inserted[i]
    ensures forall i :: 0 <= i < |act| ==> act[i] == !own[i]
  {
    hide Masked;
    forall i | 0 <= i < |act| ensures act[i] == !own[i] {
      assert own[i] == Crcs(MaskedAll(n, r))[i] == CrcOf(INITIAL, Masked(n, p[i]));
      assert inserted[i] == Crcs(MaskedAll(n, p))[i];
    }
  }
}
