/** mask_header_fields of crc.cpp: a second copy of every packet in which the header fields that
    routers may change are set to ones. */
module Masking {
  import opened Arith
  import opened Fifos
  import opened Words
  import opened Icrc

  /** 424 mask bits: traffic class, flow label and hop limit of IPv6, the UDP checksum and the
      reserved byte of the base transport header. */
  const HEADER_BYTES: nat := 53
  const WORD_COUNT_RANGE: nat := 256

  predicate MaskBit(bit: nat) {
    bit <= 3 || 8 <= bit <= 11 || 12 <= bit <= 31 || 56 <= bit <= 63 || 368 <= bit <= 383 || 416 <= bit <= 423
  }

  /** Byte number `pos` of the mask. */
  function MaskByte(pos: nat): (b: Byte)
    ensures pos >= HEADER_BYTES ==> b == 0
  {
    if pos == 0 then 0x0F
    else if 1 <= pos <= 3 || pos == 7 || pos == 46 || pos == 47 || pos == 52 then 0xFF
    else 0
  }

  lemma MaskByteBits(pos: nat, k: bv8, bit: nat)
    requires k < 8 && bit == 8 * pos + k as nat
    ensures (MaskByte(pos) >> k) & 1 == 1 <==> MaskBit(bit)
  {
  }

  /** The first `count` bytes with mask bytes base, base+1, ... ORed in. */
  function OrMask(data: seq<Byte>, base: nat, count: nat): (r: seq<Byte>)
    ensures |r| == |data|
  {
    seq(|data|, j requires 0 <= j < |data| => if j < count then data[j] | MaskByte(base + j) else data[j])
  }

  /** 424/WIDTH, held in three bits. */
  function HeaderLength(n: nat): nat
    requires n > 0
  {
    HEADER_BYTES / n % 8
  }

  function MaskedWord(n: nat, wordCount: nat, w: Word): (r: Word)
    requires n > 0 && |w.data| == |w.keep| == n
    ensures |r.data| == |r.keep| == n
  {
    if wordCount < HeaderLength(n) then w.(data := OrMask(w.data, wordCount * n, n))
    else if wordCount == HeaderLength(n) then w.(data := OrMask(w.data, wordCount * n, HEADER_BYTES % n))
    else w
  }

  // ----- What masking does to packets -----

  /** The mask position of byte `j` of a packet; the word counter has eight bits. */
  function Pos(n: nat, j: nat): nat
    requires n > 0
  {
    j / n % WORD_COUNT_RANGE * n + j % n
  }

  function Masked(n: nat, p: seq<Byte>): (r: seq<Byte>)
    requires n > 0
    ensures |r| == |p|
  {
    seq(|p|, j requires 0 <= j < |p| => p[j] | MaskByte(Pos(n, j)))
  }

  function MaskedAll(n: nat, ps: seq<seq<Byte>>): seq<seq<Byte>>
    requires n > 0
  {
    seq(|ps|, i requires 0 <= i < |ps| => Masked(n, ps[i]))
  }

  lemma PosAt(n: nat, m: nat, i: nat)
    requires i < n
    ensures Pos(n, m * n + i) == m % WORD_COUNT_RANGE * n + i
  {
    DivModUnique(n, m, i);
  }

  /** The mask stays in the header exactly in packets of at most 256 words; after that the word
      counter wraps and the mask is applied again. */
  lemma MaskPositionsIff(n: nat, length: nat)
    requires n > 0
    ensures (forall j :: 0 <= j < length ==> Pos(n, j) == j) <==> length <= 256 * n
  {
    hide Pos;
    if length <= WORD_COUNT_RANGE * n {
      forall j | 0 <= j < length ensures Pos(n, j) == j {
        Split(n, j);
        PosInRange(n, j / n, j % n);
      }
    } else {
      PosAt(n, WORD_COUNT_RANGE, 0);
      assert Pos(n, WORD_COUNT_RANGE * n) == 0;
    }
  }

  /** Behind the header the masked packet is the packet. */
  ghost predicate HeaderOnly(n: nat, p: seq<Byte>)
    requires n > 0
  {
    forall j :: HEADER_BYTES <= j < |p| ==> Masked(n, p)[j] == p[j]
  }

  /** Whatever its content, a packet is masked in its header only if it has at most 256 words; of
      longer ones, that of zeros is not. */
  lemma HeaderOnlyIff(n: nat, length: nat)
    requires Width(n)
    ensures (forall p: seq<Byte> :: |p| == length ==> HeaderOnly(n, p)) <==> length <= 256 * n
  {
    hide Pos;
    MaskPositionsIff(n, length);
    if length <= WORD_COUNT_RANGE * n {
      forall p: seq<Byte> | |p| == length ensures HeaderOnly(n, p) {
      }
    } else {
      var zeros: seq<Byte> := seq(length, i => 0);
      var j := WORD_COUNT_RANGE * n;
      PosAt(n, WORD_COUNT_RANGE, 0);
      MulLe(WORD_COUNT_RANGE, 1, n);
      assert Masked(n, zeros)[j] == zeros[j] | MaskByte(0);
      assert !HeaderOnly(n, zeros);
    }
  }

  lemma Split(n: nat, j: nat)
    requires n > 0
    ensures j == j / n * n + j % n && 0 <= j / n && 0 <= j % n < n
  {
  }

  lemma PosInRange(n: nat, m: nat, i: nat)
    requires i < n && m * n + i < WORD_COUNT_RANGE * n
    ensures Pos(n, m * n + i) == m * n + i
  {
    PosAt(n, m, i);
    if m > WORD_COUNT_RANGE {
      MulStep(WORD_COUNT_RANGE, m, n);
    }
  }

  /** Three bits are enough for 424/WIDTH, and words beyond it lie behind the header. */
  lemma HeaderWords(n: nat, wordCount: nat)
    requires Width(n)
    ensures HeaderLength(n) * n + HEADER_BYTES % n == HEADER_BYTES
    ensures wordCount > HeaderLength(n) ==> wordCount * n >= HEADER_BYTES
  {
    var h := HEADER_BYTES / n;
    assert HEADER_BYTES == h * n + HEADER_BYTES % n;
    MulLe(h, 8, n);
    if wordCount > h {
      MulStep(h, wordCount, n);
    }
  }

  /** Inside and beyond the header, a masked word is the word with its mask bytes ORed in. */
  lemma MaskedWordBytes(n: nat, wordCount: nat, w: Word, j: nat)
    requires Width(n) && |w.data| == |w.keep| == n && j < n
    ensures MaskedWord(n, wordCount, w).data[j] == w.data[j] | MaskByte(wordCount * n + j)
  {
    hide *;
    var base := wordCount * n;
    HeaderWords(n, wordCount);
    MaskedWordIs(n, wordCount, base, w, j);
    if base + j >= HEADER_BYTES {
      NoMask(base + j, w.data[j]);
    }
  }

  lemma MaskedWordIs(n: nat, wordCount: nat, base: nat, w: Word, j: nat)
    requires n > 0 && |w.data| == |w.keep| == n && j < n && base == wordCount * n
    ensures MaskedWord(n, wordCount, w).data[j]
            == if wordCount < HeaderLength(n) || (wordCount == HeaderLength(n) && j < HEADER_BYTES % n)
               then w.data[j] | MaskByte(base + j) else w.data[j]
  {
    hide MaskByte, HeaderLength, OrMask;
    OrMaskAt(w.data, base, n, j);
    OrMaskAt(w.data, base, HEADER_BYTES % n, j);
  }

  lemma OrMaskAt(data: seq<Byte>, base: nat, count: nat, j: nat)
    requires j < |data|
    ensures OrMask(data, base, count)[j] == if j < count then data[j] | MaskByte(base + j) else data[j]
  {
  }

  lemma NoMask(pos: nat, b: Byte)
    requires pos >= HEADER_BYTES
    ensures b | MaskByte(pos) == b
  {
  }

  lemma MaskedWordKept(n: nat, wordCount: nat, w: Word)
    requires Width(n) && WellFormed(n, w)
    ensures var r := MaskedWord(n, wordCount, w);
      && WellFormed(n, r) && r.last == w.last && r.keep == w.keep
      && forall j :: 0 <= j < Len(w.keep) ==> Kept(r)[j] == Kept(w)[j] | MaskByte(wordCount * n + j)
  {
    var r := MaskedWord(n, wordCount, w);
    forall j | 0 <= j < Len(w.keep) ensures Kept(r)[j] == Kept(w)[j] | MaskByte(wordCount * n + j) {
      MaskedWordBytes(n, wordCount, w, j);
    }
  }

  lemma MaskedGrows(n: nat, m: nat, cur: seq<Byte>, kept: seq<Byte>, masked: seq<Byte>)
    requires n > 0 && |cur| == m * n && |kept| == |masked| <= n
    requires forall j :: 0 <= j < |kept| ==> masked[j] == kept[j] | MaskByte(m % WORD_COUNT_RANGE * n + j)
    ensures Masked(n, cur + kept) == Masked(n, cur) + masked
  {
    var all := Masked(n, cur + kept);
    forall i | 0 <= i < |all| ensures all[i] == (Masked(n, cur) + masked)[i] {
      if |cur| <= i {
        PosAt(n, m, i - |cur|);
      }
    }
  }

  // ----- The stage -----

  ghost predicate MaskPackets(n: nat, p: Packets, o: Packets)
    requires n > 0
  {
    o == Packets(MaskedAll(n, p.done), Masked(n, p.cur))
  }

  ghost predicate MaskInv(n: nat, wordCount: nat, read: seq<Word>, data: seq<Word>, masked: seq<Word>)
    requires n > 0
  {
    && Stream(n, read) && data == read && Stream(n, masked)
    && wordCount == WordNumber(n, |Parse(read).cur|)
    && MaskPackets(n, Parse(read), Parse(masked))
  }

  lemma MaskPacketsStep(n: nat, p: Packets, o: Packets, kept: seq<Byte>, masked: seq<Byte>, last: bool)
    requires n > 0 && MaskPackets(n, p, o) && Masked(n, p.cur + kept) == Masked(n, p.cur) + masked
    ensures MaskPackets(n, Add(p, kept, last), Add(o, masked, last))
  {
    assert Masked(n, []) == [];
    assert MaskedAll(n, p.done + [p.cur + kept]) == MaskedAll(n, p.done) + [Masked(n, p.cur + kept)];
  }

  /** The number of the next word after `k` bytes, as the counter holds it. */
  function WordNumber(n: nat, k: nat): nat
    requires n > 0
  {
    k / n % WORD_COUNT_RANGE
  }

  lemma CountNext(n: nat, m: nat, k: nat)
    requires n > 0 && k == m * n
    ensures WordNumber(n, k) == m % WORD_COUNT_RANGE
    ensures (WordNumber(n, k) + 1) % WORD_COUNT_RANGE == WordNumber(n, k + n)
    ensures WordNumber(n, 0) == 0
  {
    NumberOf(n, m, k);
    NumberOf(n, m + 1, k + n);
    NumberOf(n, 0, 0);
    hide WordNumber;
    WrapNext(m);
  }

  lemma NumberOf(n: nat, m: nat, k: nat)
    requires n > 0 && k == m * n
    ensures WordNumber(n, k) == m % WORD_COUNT_RANGE
  {
    DivModUnique(n, m, 0);
  }

  lemma WrapNext(m: nat)
    ensures (m % WORD_COUNT_RANGE + 1) % WORD_COUNT_RANGE == (m + 1) % WORD_COUNT_RANGE
  {
  }

  /** The word counter tells where in the packet the word lies, so the word is masked like the
      bytes of the packet that it carries. */
  lemma MaskStep(n: nat, wordCount: nat, read: seq<Word>, w: Word)
    requires Width(n) && Stream(n, read) && WellFormed(n, w)
    requires wordCount == WordNumber(n, |Parse(read).cur|)
    ensures var cur := Parse(read).cur;
      && Masked(n, cur + Kept(w)) == Masked(n, cur) + Kept(MaskedWord(n, wordCount, w))
      && (!w.last ==> (wordCount + 1) % WORD_COUNT_RANGE == WordNumber(n, |cur + Kept(w)|))
  {
    var cur := Parse(read).cur;
    MaskedWordKept(n, wordCount, w);
    hide MaskedWord, MaskByte, WordNumber, Masked;
    var m := WholeWords(n, read);
    hide Stream, Parse;
    CountNext(n, m, |cur|);
    MaskedGrows(n, m, cur, Kept(w), Kept(MaskedWord(n, wordCount, w)));
  }

  lemma MaskKeeps(n: nat, wordCount: nat, read: seq<Word>, w: Word, data: seq<Word>, masked: seq<Word>)
    requires Width(n) && MaskInv(n, wordCount, read, data, masked) && WellFormed(n, w)
    ensures MaskInv(n, if w.last then 0 else (wordCount + 1) % WORD_COUNT_RANGE,
                    read + [w], data + [w], masked + [MaskedWord(n, wordCount, w)])
  {
    hide MaskedWord, Masked, MaskPackets, MaskByte, WordNumber;
    var r := MaskedWord(n, wordCount, w);
    var p := Parse(read);
    MaskedWordKept(n, wordCount, w);
    MaskStep(n, wordCount, read, w);
    Append(n, read, w);
    Append(n, masked, r);
    MaskPacketsStep(n, p, Parse(masked), Kept(w), Kept(r), w.last);
    CountNext(n, 0, 0);
  }

  /** Before the first word. */
  lemma MaskStart(n: nat)
    requires Width(n)
    ensures n > 0 && MaskInv(n, 0, [], [], [])
  {
    CountNext(n, 0, 0);
    hide WordNumber;
    assert MaskedAll(n, []) == [] && Masked(n, []) == [];
  }

  class MaskHeaderFields {
    const n: nat
    const input: Fifo<Word>
    const dataOut: Fifo<Word>
    const maskedDataOut: Fifo<Word>
    var wordCount: nat

    ghost predicate Valid()
      reads this, input`popped, dataOut`pushed, maskedDataOut`pushed
    {
      Width(n) && (Stream(n, input.popped) ==>
        MaskInv(n, wordCount, input.popped, dataOut.pushed, maskedDataOut.pushed))
    }

    constructor (n: nat, input: Fifo<Word>, dataOut: Fifo<Word>, maskedDataOut: Fifo<Word>)
      requires Width(n) && input.popped == [] && dataOut.pushed == [] && maskedDataOut.pushed == []
      ensures Valid() && this.n == n && this.input == input && this.dataOut == dataOut
        && this.maskedDataOut == maskedDataOut
    {
      hide MaskInv, Stream, Width;
      this.n, this.input, this.dataOut, this.maskedDataOut, wordCount := n, input, dataOut, maskedDataOut, 0;
      MaskStart(n);
    }

    ghost predicate Wired()
      reads input, dataOut, maskedDataOut
    {
      && input.Valid() && dataOut.Valid() && maskedDataOut.Valid() && Bus(n, input.q)
      && input != dataOut && input != maskedDataOut && dataOut != maskedDataOut
    }

    /** The word with the mask of its place in the packet. */
    method MaskWord(currWord: Word) returns (crcWord: Word)
      requires n > 0 && |currWord.data| == |currWord.keep| == n
      ensures crcWord == MaskedWord(n, wordCount, currWord)
    {
      crcWord := currWord;
      if wordCount < HeaderLength(n) {
        crcWord := crcWord.(data := OrMask(crcWord.data, wordCount * n, n));
      } else if wordCount == HeaderLength(n) {
        crcWord := crcWord.(data := OrMask(crcWord.data, wordCount * n, HEADER_BYTES % n));
      }
    }

    method Step()
      requires Valid() && Wired()
      modifies this, input`q, input`popped, dataOut`q, dataOut`pushed, maskedDataOut`q, maskedDataOut`pushed
      ensures Valid() && Wired()
      ensures input.popped == old(input.popped) + Next(old(input.q))
      ensures dataOut.pushed == old(dataOut.pushed) + Next(old(input.q))
      ensures |maskedDataOut.pushed| == |old(maskedDataOut.pushed)| + |Next(old(input.q))|
    {
      hide WellFormed, Parse, MaskInv, MaskedWord, OrMask, HeaderLength;
      if input.q != [] {
        ghost var before := input.popped;
        var currWord := input.Read();
        if Stream(n, input.popped) {
          StreamGrows(n, before, currWord);
          MaskKeeps(n, wordCount, before, currWord, dataOut.pushed, maskedDataOut.pushed);
        }
        var crcWord := MaskWord(currWord);
        maskedDataOut.Write(crcWord);
        dataOut.Write(currWord);
        wordCount := (wordCount + 1) % WORD_COUNT_RANGE;
        if currWord.last {
          wordCount := 0;
        }
      }
    }
  }
}
