/** insert_icrc and extract_icrc of crc.cpp: every packet of 4k bytes gets its 4 CRC bytes
    appended, and they are taken off again on the other side. */
module Icrc {
  import opened Collections
  import opened Fifos
  import opened Words
  import opened Crc32

  /** The four bytes of a CRC as they lie in the data bus, lowest first. */
  function Le(c: Crc): (b: seq<Byte>)
    ensures |b| == 4
  {
    [(c & 0xFF) as Byte, ((c >> 8) & 0xFF) as Byte, ((c >> 16) & 0xFF) as Byte, ((c >> 24) & 0xFF) as Byte]
  }

  function FromLe(b: seq<Byte>): Crc
    requires |b| == 4
  {
    (b[0] as Crc) | ((b[1] as Crc) << 8) | ((b[2] as Crc) << 16) | ((b[3] as Crc) << 24)
  }

  lemma FromLeLe(c: Crc)
    ensures FromLe(Le(c)) == c
  {
  }

  /** Buses of 8, 12, ..., 64 bytes: the switches over the keep value cover exactly these. */
  predicate Width(n: nat) {
    8 <= n <= 64 && n % 4 == 0
  }

  /** Words of packets of 4k bytes. */
  ghost predicate Quads(ws: seq<Word>)
  {
    forall i :: 0 <= i < |ws| ==> Len(ws[i].keep) % 4 == 0
  }

  // ----- What the two stages do to packets -----

  /** A packet of 4k bytes gets its complemented CRC; any other one stays as it is. */
  function WithCrc(p: seq<Byte>, c: Crc): seq<Byte> {
    if |p| % 4 == 0 then p + Le(!c) else p
  }

  function Tagged(ps: seq<seq<Byte>>, cs: seq<Crc>): seq<seq<Byte>>
    requires |ps| <= |cs|
  {
    seq(|ps|, i requires 0 <= i < |ps| => WithCrc(ps[i], cs[i]))
  }

  function Body(q: seq<Byte>): seq<Byte> {
    if |q| >= 4 then q[..|q| - 4] else []
  }

  function Tag(q: seq<Byte>): Crc {
    if |q| >= 4 then FromLe(q[|q| - 4..]) else 0
  }

  function Bodies(qs: seq<seq<Byte>>): seq<seq<Byte>> {
    seq(|qs|, i requires 0 <= i < |qs| => Body(qs[i]))
  }

  function Tags(qs: seq<seq<Byte>>): seq<Crc> {
    seq(|qs|, i requires 0 <= i < |qs| => Tag(qs[i]))
  }

  lemma TaggedSnoc(ps: seq<seq<Byte>>, cs: seq<Crc>, p: seq<Byte>, c: Crc)
    requires |ps| == |cs|
    ensures Tagged(ps + [p], cs + [c]) == Tagged(ps, cs) + [WithCrc(p, c)]
    ensures Tagged(ps, cs + [c]) == Tagged(ps, cs)
  {
  }

  lemma BodiesSnoc(qs: seq<seq<Byte>>, q: seq<Byte>)
    ensures Bodies(qs + [q]) == Bodies(qs) + [Body(q)]
    ensures Tags(qs + [q]) == Tags(qs) + [Tag(q)]
  {
  }

  // ----- insert_icrc -----

  predicate IsPrefixOf4(keep: seq<bool>) {
    Low(keep) && Len(keep) % 4 == 0
  }

  /** The last word with the CRC put behind its kept bytes; the switch has a case for every keep
      value that is a prefix of 4, 8, ..., 60 bytes. */
  function PutCrc(w: Word, crc: Crc): (r: Word)
    requires 0 < |w.keep| == |w.data| <= 64 && |w.keep| % 4 == 0 && !w.keep[|w.keep| - 1]
    ensures |r.data| == |r.keep| == |w.keep|
  {
    var k := Len(w.keep);
    if IsPrefixOf4(w.keep) && 4 <= k <= 60 then
      Word(w.data[..k] + Le(crc) + w.data[k + 4..], w.keep[..k] + [true, true, true, true] + w.keep[k + 4..], w.last)
    else w
  }

  /** The word of its own that carries the CRC after a full last word. */
  function PostWord(n: nat, crc: Crc): Word
    requires n >= 4
  {
    Word(Le(crc) + seq(n - 4, i => 0), [true, true, true, true] + seq(n - 4, i => false), true)
  }

  datatype InsertState = CRC | FWD | POST

  ghost predicate InsertInv(n: nat, st: InsertState, crc: Crc, crcs: seq<Crc>, read: seq<Word>, sent: seq<Word>) {
    && Stream(n, read) && Stream(n, sent) && (Quads(read) ==> Quads(sent))
    && InsertPackets(st, crc, crcs, Parse(read), Parse(sent))
  }

  /** `o` is what the packets `p` have become with the CRCs read so far. */
  ghost predicate InsertPackets(st: InsertState, crc: Crc, crcs: seq<Crc>, p: Packets, o: Packets) {
    match st
    case CRC => |crcs| == |p.done| && p.cur == [] && o == Packets(Tagged(p.done, crcs), [])
    case FWD => |crcs| == |p.done| + 1 && crc == !Back(crcs) && o == Packets(Tagged(p.done, crcs), p.cur)
    case POST => |crcs| == |p.done| > 0 && p.cur == [] && crc == !Back(crcs)
                 && o == Packets(Tagged(Front(p.done), crcs), Back(p.done)) && |Back(p.done)| % 4 == 0
  }

  lemma InsertCrcKeeps(crc: Crc, crcs: seq<Crc>, c: Crc, p: Packets, o: Packets)
    requires InsertPackets(CRC, crc, crcs, p, o)
    ensures InsertPackets(FWD, !c, crcs + [c], p, o)
  {
    TaggedSnoc(p.done, crcs, [], c);
  }

  lemma PutCrcWord(n: nat, w: Word, crc: Crc)
    requires Width(n) && WellFormed(n, w) && w.last && Len(w.keep) % 4 == 0 && Len(w.keep) < n
    ensures !w.keep[n - 1]
    ensures var r := PutCrc(w, crc);
      && WellFormed(n, r) && r.last && Len(r.keep) == Len(w.keep) + 4 && Kept(r) == Kept(w) + Le(crc)
  {
    var k := Len(w.keep);
    RoomForCrc(n, k);
    PutCrcKeep(w.keep, k);
    PutCrcData(w.data, k, Le(crc));
    hide Le;
    LenIs(PutCrc(w, crc).keep, k + 4);
  }

  lemma RoomForCrc(n: nat, k: nat)
    requires Width(n) && k < n && k % 4 == 0
    ensures k + 4 <= n && k <= 60
  {
  }

  lemma PutCrcKeep(keep: seq<bool>, k: nat)
    requires k + 4 <= |keep| && (forall i :: 0 <= i < k ==> keep[i]) && (forall i :: k <= i < |keep| ==> !keep[i])
    ensures var r := keep[..k] + [true, true, true, true] + keep[k + 4..];
      && |r| == |keep| && (forall i :: 0 <= i < k + 4 ==> r[i]) && (forall i :: k + 4 <= i < |r| ==> !r[i])
  {
  }

  lemma PutCrcData(data: seq<Byte>, k: nat, crc: seq<Byte>)
    requires k + 4 <= |data| && |crc| == 4
    ensures (data[..k] + crc + data[k + 4..])[..k + 4] == data[..k] + crc
  {
  }

  lemma PostCrcWord(n: nat, crc: Crc)
    requires Width(n)
    ensures var r := PostWord(n, crc);
      && WellFormed(n, r) && r.last && Len(r.keep) == 4 && Kept(r) == Le(crc)
  {
    LenIs(PostWord(n, crc).keep, 4);
  }

  /** What the stage sends for a word, and the state it goes to. */
  function InsertSend(n: nat, w: Word, crc: Crc): Word
    requires Width(n) && |w.data| == |w.keep| == n
  {
    if !w.last then w else if w.keep[n - 1] then w.(last := false) else PutCrc(w, crc)
  }

  function InsertNext(n: nat, w: Word): InsertState
    requires n > 0 && |w.keep| == n
  {
    if !w.last then FWD else if w.keep[n - 1] then POST else CRC
  }

  /** What the last word of a packet gets. */
  function CrcBytes(bytes: seq<Byte>, crc: Crc): seq<Byte> {
    if |bytes| % 4 == 0 then Le(crc) else []
  }

  lemma InsertSendWord(n: nat, w: Word, crc: Crc)
    requires Width(n) && WellFormed(n, w)
    ensures var r := InsertSend(n, w, crc);
      && WellFormed(n, r) && (Len(w.keep) % 4 == 0 ==> Len(r.keep) % 4 == 0)
      && (r.last <==> InsertNext(n, w) == CRC)
      && Kept(r) == if r.last then Kept(w) + CrcBytes(Kept(w), crc) else Kept(w)
    ensures InsertNext(n, w) != CRC ==> |Kept(w)| % 4 == 0
  {
    hide Le, PutCrc;
    if w.last && Len(w.keep) < n {
      InsertLastWord(n, w, crc);
    }
  }

  lemma InsertLastWord(n: nat, w: Word, crc: Crc)
    requires Width(n) && WellFormed(n, w) && w.last && Len(w.keep) < n
    ensures !w.keep[n - 1]
    ensures var r := PutCrc(w, crc);
      && WellFormed(n, r) && (Len(w.keep) % 4 == 0 ==> Len(r.keep) % 4 == 0)
      && r.last && Kept(r) == Kept(w) + CrcBytes(Kept(w), crc)
  {
    hide Le, PutCrc;
    if Len(w.keep) % 4 == 0 {
      PutCrcWord(n, w, crc);
    } else {
      NoCrcWord(n, w, crc);
      assert Kept(w) + [] == Kept(w);
    }
  }

  /** The place for the CRC is looked for in steps of four bytes. */
  lemma NoCrcWord(n: nat, w: Word, crc: Crc)
    requires Width(n) && WellFormed(n, w) && Len(w.keep) % 4 != 0
    ensures PutCrc(w, crc) == w
  {
    hide Le;
  }

  /** The packet ends, with its CRC in the same word if it gets one. */
  lemma InsertEnds(crc: Crc, crcs: seq<Crc>, p: Packets, bytes: seq<Byte>)
    requires |crcs| == |p.done| + 1 && crc == !Back(crcs) && |p.cur| % 4 == 0
    ensures Tagged(p.done + [p.cur + bytes], crcs) == Tagged(p.done, crcs) + [p.cur + (bytes + CrcBytes(bytes, crc))]
  {
    hide Le, Tagged;
    var front, c := Front(crcs), Back(crcs);
    assert crcs == front + [c];
    TaggedSnoc(p.done, front, p.cur + bytes, c);
    var whole := p.cur + bytes;
    assert |whole| % 4 == |bytes| % 4;
    assert p.cur + (bytes + Le(crc)) == whole + Le(!c);
    assert p.cur + (bytes + []) == whole;
    assert WithCrc(whole, c) == p.cur + (bytes + CrcBytes(bytes, crc));
  }

  lemma InsertPacketsStep(crc: Crc, crcs: seq<Crc>, p: Packets, o: Packets, bytes: seq<Byte>, last: bool,
                          next: InsertState)
    requires InsertPackets(FWD, crc, crcs, p, o) && |p.cur| % 4 == 0
    requires (next == FWD <==> !last) && (next != CRC ==> |bytes| % 4 == 0)
    ensures InsertPackets(next, crc, crcs, Add(p, bytes, last),
                          Add(o, if next == CRC then bytes + CrcBytes(bytes, crc) else bytes, next == CRC))
  {
    hide Tagged, CrcBytes, Le;
    match next
    case CRC => InsertEnds(crc, crcs, p, bytes);
    case FWD =>
    case POST => assert Front(p.done + [p.cur + bytes]) == p.done;
  }

  /** Inside a packet there are whole words, so a multiple of four bytes. */
  lemma WholeQuads(n: nat, ws: seq<Word>)
    requires n % 4 == 0 && Stream(n, ws)
    ensures Sized(ws) && |Parse(ws).cur| % 4 == 0
  {
    var m := WholeWords(n, ws);
    TimesFour(m, n);
  }

  lemma TimesFour(m: nat, n: nat)
    requires n % 4 == 0
    ensures m * n % 4 == 0
  {
    assert m * n == 4 * (m * (n / 4));
  }

  lemma QuadsSnoc(ws: seq<Word>, w: Word)
    ensures Quads(ws + [w]) <==> Quads(ws) && Len(w.keep) % 4 == 0
  {
    var s := ws + [w];
    assert s[|ws|] == w;
    assert forall i :: 0 <= i < |ws| ==> s[i] == ws[i];
  }

  lemma InsertKeeps(n: nat, crc: Crc, crcs: seq<Crc>, read: seq<Word>, w: Word, sent: seq<Word>)
    requires Width(n) && InsertInv(n, FWD, crc, crcs, read, sent) && WellFormed(n, w)
    ensures InsertInv(n, InsertNext(n, w), crc, crcs, read + [w], sent + [InsertSend(n, w, crc)])
  {
    var r := InsertSend(n, w, crc);
    InsertSendWord(n, w, crc);
    WholeQuads(n, read);
    Append(n, read, w);
    Append(n, sent, r);
    QuadsSnoc(sent, r);
    QuadsSnoc(read, w);
    InsertPacketsStep(crc, crcs, Parse(read), Parse(sent), Kept(w), w.last, InsertNext(n, w));
  }

  /** The same for the stage, which also meets input that is not well formed. */
  lemma InsertReads(n: nat, crc: Crc, crcs: seq<Crc>, read: seq<Word>, w: Word, sent: seq<Word>)
    requires Width(n) && |w.data| == |w.keep| == n
    requires Stream(n, read) ==> InsertInv(n, FWD, crc, crcs, read, sent)
    ensures Stream(n, read + [w]) ==>
      InsertInv(n, InsertNext(n, w), crc, crcs, read + [w], sent + [InsertSend(n, w, crc)])
  {
    if Stream(n, read + [w]) {
      StreamGrows(n, read, w);
      InsertKeeps(n, crc, crcs, read, w, sent);
    }
  }

  lemma InsertPostKeeps(n: nat, crc: Crc, crcs: seq<Crc>, read: seq<Word>, sent: seq<Word>)
    requires Width(n) && InsertInv(n, POST, crc, crcs, read, sent)
    ensures InsertInv(n, CRC, crc, crcs, read, sent + [PostWord(n, crc)])
  {
    hide Le, PostWord;
    PostCrcWord(n, crc);
    Append(n, sent, PostWord(n, crc));
    QuadsSnoc(sent, PostWord(n, crc));
    var done := Parse(read).done;
    assert crcs == Front(crcs) + [Back(crcs)] && done == Front(done) + [Back(done)];
    TaggedSnoc(Front(done), Front(crcs), Back(done), Back(crcs));
  }

  class InsertIcrc {
    const n: nat
    const crcIn: Fifo<Crc>
    const input: Fifo<Word>
    const output: Fifo<Word>
    var state: InsertState
    var crc: Crc

    ghost predicate Valid()
      reads this, crcIn`popped, input`popped, output`pushed
    {
      Width(n) && (Stream(n, input.popped) ==>
        InsertInv(n, state, crc, crcIn.popped, input.popped, output.pushed))
    }

    ghost function Run(): InsertRun
      reads this, crcIn`popped, input`popped, output`pushed
    {
      InsertRun(state, crc, crcIn.popped, input.popped, output.pushed)
    }

    constructor (n: nat, crcIn: Fifo<Crc>, input: Fifo<Word>, output: Fifo<Word>)
      requires Width(n) && crcIn.popped == [] && input.popped == [] && output.pushed == []
      ensures Valid() && this.n == n && this.crcIn == crcIn && this.input == input && this.output == output
    {
      this.n, this.crcIn, this.input, this.output := n, crcIn, input, output;
      state, crc := CRC, 0xdeadbeef;
    }

    ghost predicate Wired()
      reads crcIn, input, output
    {
      && crcIn.Valid() && input.Valid() && output.Valid() && Bus(n, input.q)
      && input != output && crcIn as object != input && crcIn as object != output
    }

    method Forward()
      requires Valid() && Wired() && state == FWD && input.q != []
      modifies this, input`q, input`popped, output`q, output`pushed
      ensures Valid() && Wired()
      ensures state == InsertNext(n, old(input.q)[0])
      ensures input.popped == old(input.popped) + [old(input.q)[0]] && |output.pushed| == |old(output.pushed)| + 1
    {
      hide InsertInv, Stream, Quads, WellFormed;
      ghost var before := input.popped;
      var currWord := input.Read();
      InsertReads(n, crc, crcIn.popped, before, currWord, output.pushed);
      if currWord.last {
        if currWord.keep[n - 1] {
          currWord := currWord.(last := false);
          state := POST;
        } else {
          state := CRC;
          currWord := PutCrc(currWord, crc);
        }
      }
      output.Write(currWord);
    }

    /** One call: take a CRC, or forward a word, or send the CRC as a word of its own. */
    method Step()
      requires Valid() && Wired()
      modifies this, crcIn`q, crcIn`popped, input`q, input`popped, output`q, output`pushed
      ensures Valid() && Wired()
      ensures old(state) == CRC ==>
        && input.popped == old(input.popped) && output.pushed == old(output.pushed)
        && crcIn.popped == old(crcIn.popped) + Next(old(crcIn.q))
        && state == if old(crcIn.q) == [] then CRC else FWD
      ensures old(state) != CRC ==> crcIn.popped == old(crcIn.popped)
      ensures old(state) == FWD ==>
        && input.popped == old(input.popped) + Next(old(input.q))
        && |output.pushed| == |old(output.pushed)| + |Next(old(input.q))|
        && state == if old(input.q) == [] then FWD else InsertNext(n, old(input.q)[0])
      ensures old(state) == POST ==>
        input.popped == old(input.popped) && state == CRC && |output.pushed| == |old(output.pushed)| + 1
    {
      match state
      case CRC =>
        if crcIn.q != [] {
          ghost var before := crcIn.popped;
          var c := crcIn.Read();
          if Stream(n, input.popped) {
            InsertCrcKeeps(crc, before, c, Parse(input.popped), Parse(output.pushed));
          }
          crc := !c;
          state := FWD;
        }
      case FWD =>
        if input.q != [] {
          Forward();
        }
      case POST =>
        if Stream(n, input.popped) {
          InsertPostKeeps(n, crc, crcIn.popped, input.popped, output.pushed);
        }
        output.Write(PostWord(n, crc));
        state := CRC;
    }
  }

  // ----- extract_icrc -----

  datatype ExtractState = FIRST | PKG | LAST

  /** The kept bytes of a last word without its CRC; a word of only four bytes keeps them. */
  function TakeCrc(w: Word): (r: Word)
    requires |w.data| == |w.keep|
    ensures |r.data| == |r.keep| == |w.keep|
  {
    var k := Len(w.keep);
    if IsPrefixOf4(w.keep) && 8 <= k <= 64 then
      w.(keep := w.keep[..k - 4] + [false, false, false, false] + w.keep[k..])
    else w
  }

  /** The CRC field of a last word; any value when no case of the switch matches. */
  function CrcField(w: Word, any: Crc): Crc
    requires |w.data| == |w.keep|
  {
    var k := Len(w.keep);
    if IsPrefixOf4(w.keep) && 4 <= k <= 64 then FromLe(w.data[k - 4..k]) else any
  }

  /** Packets that carry a CRC: at least 8 bytes in words of four. */
  ghost predicate Carrying(n: nat, ws: seq<Word>) {
    Stream(n, ws) && Quads(ws) && forall i :: 0 <= i < |Parse(ws).done| ==> |Parse(ws).done[i]| >= 8
  }

  ghost predicate ExtractPackets(st: ExtractState, kept: seq<Byte>, q: Packets, o: Packets, crcs: seq<Crc>) {
    match st
    case FIRST => q.cur == [] && o == Packets(Bodies(q.done), []) && crcs == Tags(q.done)
    case PKG => q.cur == o.cur + kept && o.done == Bodies(q.done) && crcs == Tags(q.done)
    case LAST => q.cur == [] && q.done != [] && o.cur + kept == Back(q.done)
                 && o.done == Bodies(Front(q.done)) && crcs == Tags(Front(q.done))
  }

  ghost predicate ExtractInv(n: nat, st: ExtractState, prev: Word, read: seq<Word>, sent: seq<Word>, crcs: seq<Crc>) {
    && Stream(n, read) && Stream(n, sent)
    && |prev.data| == |prev.keep| == n
    && (st == PKG ==> WellFormed(n, prev) && !prev.last)
    && (st == LAST ==> WellFormed(n, prev) && prev.last && Len(prev.keep) % 4 == 0 && Len(prev.keep) >= 8)
    && ExtractPackets(st, Kept(prev), Parse(read), Parse(sent), crcs)
  }

  lemma KeptSize(n: nat, w: Word)
    requires WellFormed(n, w)
    ensures |Kept(w)| == Len(w.keep)
  {
  }

  lemma CarryingGrows(n: nat, ws: seq<Word>, w: Word)
    requires Carrying(n, ws + [w])
    ensures Carrying(n, ws) && WellFormed(n, w) && Len(w.keep) % 4 == 0
    ensures w.last ==> |Parse(ws).cur| + Len(w.keep) >= 8
  {
    hide Stream, WellFormed, Parse, Quads, Low, Len;
    StreamGrows(n, ws, w);
    QuadsSnoc(ws, w);
    Append(n, ws, w);
    KeptSize(n, w);
    StreamSized(n, ws);
    StreamSized(n, ws + [w]);
    var p, q := Parse(ws).done, Parse(ws + [w]).done;
    assert forall i :: 0 <= i < |p| ==> p[i] == q[i];
    assert w.last ==> |q[|p|]| >= 8;
  }

  /** FIRST: a word starts a packet. */
  lemma ExtractFirstKeeps(n: nat, any: Word, read: seq<Word>, w: Word, sent: seq<Word>, crcs: seq<Crc>)
    requires Width(n) && ExtractInv(n, FIRST, any, read, sent, crcs) && Carrying(n, read + [w])
    ensures ExtractInv(n, if w.last then LAST else PKG, w, read + [w], sent, crcs)
  {
    CarryingGrows(n, read, w);
    Append(n, read, w);
    assert Front(Parse(read).done + [Kept(w)]) == Parse(read).done;
  }

  lemma ExtractPkgPackets(kept: seq<Byte>, q: Packets, o: Packets, crcs: seq<Crc>, bytes: seq<Byte>, last: bool)
    requires ExtractPackets(PKG, kept, q, o, crcs)
    ensures ExtractPackets(if last then LAST else PKG, bytes, Add(q, bytes, last), Add(o, kept, false), crcs)
  {
    assert Front(q.done + [q.cur + bytes]) == q.done;
  }

  /** PKG with a word that is not the CRC word: the previous word goes out as it is. */
  lemma ExtractPkgKeeps(n: nat, prev: Word, read: seq<Word>, w: Word, sent: seq<Word>, crcs: seq<Crc>)
    requires Width(n) && ExtractInv(n, PKG, prev, read, sent, crcs) && Carrying(n, read + [w])
    requires |w.keep| == n && (!w.last || w.keep[4])
    ensures ExtractInv(n, if w.last then LAST else PKG, w, read + [w], sent + [prev], crcs)
  {
    hide ExtractPackets;
    CarryingGrows(n, read, w);
    hide Carrying, Quads;
    Append(n, read, w);
    Append(n, sent, prev);
    ExtractPkgPackets(Kept(prev), Parse(read), Parse(sent), crcs, Kept(w), w.last);
  }

  /** PKG with a last word of four bytes: it is the CRC, and the previous word ends the packet. */
  lemma ExtractTailKeeps(n: nat, prev: Word, read: seq<Word>, w: Word, sent: seq<Word>, crcs: seq<Crc>)
    requires Width(n) && ExtractInv(n, PKG, prev, read, sent, crcs) && Carrying(n, read + [w])
    requires |w.keep| == |w.data| == n && w.last && !w.keep[4]
    ensures ExtractInv(n, FIRST, w, read + [w], sent + [prev.(last := true)], crcs + [FromLe(w.data[0..4])])
  {
    CarryingGrows(n, read, w);
    Append(n, read, w);
    Append(n, sent, prev.(last := true));
    var q, o := Parse(read), Parse(sent);
    var whole := q.cur + Kept(w);
    assert Kept(w) == w.data[0..4];
    assert whole[|whole| - 4..] == Kept(w) && whole[..|whole| - 4] == q.cur;
    BodiesSnoc(q.done, whole);
  }

  lemma TakeCrcWord(n: nat, w: Word, any: Crc)
    requires Width(n) && WellFormed(n, w) && w.last && Len(w.keep) % 4 == 0 && Len(w.keep) >= 8
    ensures var r := TakeCrc(w);
      && WellFormed(n, r) && r.last && Kept(r) == Body(Kept(w)) && CrcField(w, any) == Tag(Kept(w))
  {
    LenIs(TakeCrc(w).keep, Len(w.keep) - 4);
    assert Kept(w)[Len(w.keep) - 4..] == w.data[Len(w.keep) - 4..Len(w.keep)];
  }

  lemma ExtractLastKeeps(n: nat, prev: Word, read: seq<Word>, sent: seq<Word>, crcs: seq<Crc>, any: Crc)
    requires Width(n) && ExtractInv(n, LAST, prev, read, sent, crcs)
    ensures ExtractInv(n, FIRST, TakeCrc(prev), read, sent + [TakeCrc(prev)], crcs + [CrcField(prev, any)])
  {
    TakeCrcWord(n, prev, any);
    Append(n, sent, TakeCrc(prev));
    var q, o := Parse(read), Parse(sent);
    assert q.done == Front(q.done) + [Back(q.done)];
    BodiesSnoc(Front(q.done), Back(q.done));
    BodyOfTail(o.cur, Kept(prev));
  }

  lemma BodyOfTail(a: seq<Byte>, b: seq<Byte>)
    requires |b| >= 8
    ensures a + Body(b) == Body(a + b) && Tag(b) == Tag(a + b)
  {
    assert (a + b)[|a + b| - 4..] == b[|b| - 4..];
  }

  /** The word holds nothing but the CRC. */
  predicate EndsWithCrc(w: Word) {
    w.last && (|w.keep| <= 4 || !w.keep[4])
  }

  function ExtractNext(w: Word): ExtractState {
    if EndsWithCrc(w) then FIRST else if w.last then LAST else PKG
  }

  /** PKG for the stage, which also meets input that carries no CRCs. */
  lemma ExtractReads(n: nat, prev: Word, read: seq<Word>, w: Word, sent: seq<Word>, crcs: seq<Crc>)
    requires Width(n) && |w.keep| == |w.data| == n
    requires Carrying(n, read) ==> ExtractInv(n, PKG, prev, read, sent, crcs)
    ensures Carrying(n, read + [w]) ==>
      ExtractInv(n, ExtractNext(w), w, read + [w],
                 sent + [if EndsWithCrc(w) then prev.(last := true) else prev],
                 if EndsWithCrc(w) then crcs + [FromLe(w.data[0..4])] else crcs)
  {
    hide Carrying, ExtractInv;
    if Carrying(n, read + [w]) {
      CarryingGrows(n, read, w);
      if w.last && !w.keep[4] {
        ExtractTailKeeps(n, prev, read, w, sent, crcs);
      } else {
        ExtractPkgKeeps(n, prev, read, w, sent, crcs);
      }
    }
  }

  class ExtractIcrc {
    const n: nat
    const input: Fifo<Word>
    const output: Fifo<Word>
    const crcOut: Fifo<Crc>
    var state: ExtractState
    var prevWord: Word

    ghost predicate Valid()
      reads this, input`popped, output`pushed, crcOut`pushed
    {
      && Width(n) && |prevWord.data| == |prevWord.keep| == n
      && (Carrying(n, input.popped) ==>
            ExtractInv(n, state, prevWord, input.popped, output.pushed, crcOut.pushed))
    }

    ghost function Run(): ExtractRun
      reads this, input`popped, output`pushed, crcOut`pushed
    {
      ExtractRun(state, prevWord, input.popped, output.pushed, crcOut.pushed)
    }

    constructor (n: nat, input: Fifo<Word>, output: Fifo<Word>, crcOut: Fifo<Crc>, any: Word)
      requires Width(n) && |any.data| == |any.keep| == n
      requires input.popped == [] && output.pushed == [] && crcOut.pushed == []
      ensures Valid() && this.n == n && this.input == input && this.output == output && this.crcOut == crcOut
    {
      this.n, this.input, this.output, this.crcOut := n, input, output, crcOut;
      state, prevWord := FIRST, any;
    }

    ghost predicate Wired()
      reads input, output, crcOut
    {
      && input.Valid() && output.Valid() && crcOut.Valid() && Bus(n, input.q)
      && input != output && crcOut as object != input && crcOut as object != output
    }

    method First()
      requires Valid() && Wired() && state == FIRST && input.q != []
      modifies this, input`q, input`popped
      ensures Valid() && Wired() && input.popped == old(input.popped) + [old(input.q)[0]]
      ensures state == if old(input.q)[0].last then LAST else PKG
    {
      ghost var before, any := input.popped, prevWord;
      var currWord := input.Read();
      if Carrying(n, input.popped) {
        CarryingGrows(n, before, currWord);
        ExtractFirstKeeps(n, any, before, currWord, output.pushed, crcOut.pushed);
      }
      prevWord := currWord;
      state := PKG;
      if currWord.last {
        state := LAST;
      }
    }

    method Pkg()
      requires Valid() && Wired() && state == PKG && input.q != []
      modifies this, input`q, input`popped, output`q, output`pushed, crcOut`q, crcOut`pushed
      ensures Valid() && Wired() && input.popped == old(input.popped) + [old(input.q)[0]]
      ensures |output.pushed| == |old(output.pushed)| + 1
      ensures |crcOut.pushed| == |old(crcOut.pushed)| + if EndsWithCrc(old(input.q)[0]) then 1 else 0
      ensures state == ExtractNext(old(input.q)[0])
    {
      hide Carrying, ExtractInv;
      ExtractReads(n, prevWord, input.popped, input.q[0], output.pushed, crcOut.pushed);
      var currWord := input.Read();
      if currWord.last {
        if !currWord.keep[4] {
          prevWord := prevWord.(last := true);
          crcOut.Write(FromLe(currWord.data[0..4]));
          state := FIRST;
        } else {
          state := LAST;
        }
      }
      output.Write(prevWord);
      prevWord := currWord;
    }

    /** One call: hold a first word, or send the held word, or send the last word and the CRC.
        `any` is what an uninitialised CRC variable holds. */
    method Step(any: Crc)
      requires Valid() && Wired()
      modifies this, input`q, input`popped, output`q, output`pushed, crcOut`q, crcOut`pushed
      ensures Valid() && Wired()
      ensures old(state) != LAST ==> input.popped == old(input.popped) + Next(old(input.q))
      ensures old(state) != LAST && old(input.q) == [] ==>
        state == old(state) && output.pushed == old(output.pushed) && crcOut.pushed == old(crcOut.pushed)
      ensures old(state) == FIRST && old(input.q) != [] ==>
        && state == (if old(input.q)[0].last then LAST else PKG)
        && output.pushed == old(output.pushed) && crcOut.pushed == old(crcOut.pushed)
      ensures old(state) == PKG && old(input.q) != [] ==>
        && state == ExtractNext(old(input.q)[0]) && |output.pushed| == |old(output.pushed)| + 1
        && |crcOut.pushed| == |old(crcOut.pushed)| + if EndsWithCrc(old(input.q)[0]) then 1 else 0
      ensures old(state) == LAST ==>
        && input.popped == old(input.popped) && state == FIRST
        && |output.pushed| == |old(output.pushed)| + 1 && |crcOut.pushed| == |old(crcOut.pushed)| + 1
    {
      match state
      case FIRST =>
        if input.q != [] {
          First();
        }
      case PKG =>
        if input.q != [] {
          Pkg();
        }
      case LAST =>
        if Carrying(n, input.popped) {
          ExtractLastKeeps(n, prevWord, input.popped, output.pushed, crcOut.pushed, any);
        }
        var crc := CrcField(prevWord, any);
        prevWord := TakeCrc(prevWord);
        output.Write(prevWord);
        crcOut.Write(crc);
        state := FIRST;
    }
  }

  // ----- Insert, then extract -----

  lemma TaggedApart(ps: seq<seq<Byte>>, cs: seq<Crc>)
    requires |ps| <= |cs| && forall i :: 0 <= i < |ps| ==> |ps[i]| % 4 == 0
    ensures Bodies(Tagged(ps, cs)) == ps
    ensures |Tags(Tagged(ps, cs))| == |ps| && forall i :: 0 <= i < |ps| ==> Tags(Tagged(ps, cs))[i] == !cs[i]
  {
    forall i | 0 <= i < |ps|
      ensures Body(Tagged(ps, cs)[i]) == ps[i] && Tag(Tagged(ps, cs)[i]) == !cs[i]
    {
      var q := ps[i] + Le(!cs[i]);
      assert q[|q| - 4..] == Le(!cs[i]);
      FromLeLe(!cs[i]);
    }
  }

  lemma QuadSum(a: nat, b: nat)
    requires a % 4 == 0 && b % 4 == 0
    ensures (a + b) % 4 == 0
    ensures b > 0 ==> a + b >= 4
  {
  }

  lemma {:induction false} QuadPackets(n: nat, ws: seq<Word>)
    requires n % 4 == 0 && Stream(n, ws) && Quads(ws)
    ensures |Parse(ws).cur| % 4 == 0
    ensures forall i :: 0 <= i < |Parse(ws).done| ==> |Parse(ws).done[i]| % 4 == 0 && |Parse(ws).done[i]| >= 4
  {
    if ws != [] {
      var w := ws[|ws| - 1];
      QuadPackets(n, ws[..|ws| - 1]);
      QuadSum(|Parse(ws[..|ws| - 1]).cur|, Len(w.keep));
      hide Stream;
      assert Parse(ws) == Add(Parse(ws[..|ws| - 1]), Kept(w), w.last);
    }
  }

  /** What insert_icrc has sent carries a CRC in every finished packet. */
  lemma InsertCarries(n: nat, st: InsertState, crc: Crc, crcs: seq<Crc>, read: seq<Word>, sent: seq<Word>)
    requires Width(n) && Quads(read) && InsertInv(n, st, crc, crcs, read, sent)
    ensures Carrying(n, sent)
  {
    QuadPackets(n, read);
  }

  lemma CarryingPrefix(n: nat, a: seq<Word>, b: seq<Word>)
    requires a <= b && Carrying(n, b)
    ensures Carrying(n, a) && Parse(a).done <= Parse(b).done
  {
    ParsePrefix(a, b);
    var p, q := Parse(a).done, Parse(b).done;
    assert forall i :: 0 <= i < |p| ==> p[i] == q[i];
  }

  lemma BodiesPrefix(a: seq<seq<Byte>>, b: seq<seq<Byte>>)
    requires a <= b
    ensures Bodies(a) <= Bodies(b) && Tags(a) <= Tags(b)
  {
  }

  /** A moment in the run of insert_icrc. */
  datatype InsertRun = InsertRun(state: InsertState, crc: Crc, crcs: seq<Crc>, read: seq<Word>, sent: seq<Word>) {
    ghost predicate Inv(n: nat) {
      InsertInv(n, state, crc, crcs, read, sent)
    }
  }

  /** A moment in the run of extract_icrc. */
  datatype ExtractRun = ExtractRun(state: ExtractState, prev: Word, read: seq<Word>, sent: seq<Word>, tags: seq<Crc>) {
    ghost predicate Inv(n: nat, link: seq<Word>) {
      read <= link && ExtractInv(n, state, prev, read, sent, tags)
    }
  }

  /** insert_icrc followed by extract_icrc over a FIFO: at any time the packets and CRCs that have
      come out are the first packets that went in and their (complemented) CRCs; when both stages
      are between packets, the very words that went in have come out. */
  lemma InsertExtractUndo(n: nat, insert: InsertRun, extract: ExtractRun)
    requires Width(n) && Quads(insert.read) && insert.Inv(n) && extract.Inv(n, insert.sent)
    ensures Parse(extract.sent).done <= Parse(insert.read).done
    ensures |extract.tags| <= |insert.crcs|
    ensures forall i :: 0 <= i < |extract.tags| ==> extract.tags[i] == !insert.crcs[i]
    ensures extract.read == insert.sent && insert.state == CRC && extract.state == FIRST ==>
              SameWords(insert.read, extract.sent) && |extract.tags| == |insert.crcs|
  {
    hide *;
    UndoPackets(n, insert, extract);
    if extract.read == insert.sent && insert.state == CRC && extract.state == FIRST {
      UndoAtRest(n, insert, extract);
    }
  }

  lemma UndoPackets(n: nat, insert: InsertRun, extract: ExtractRun)
    requires Width(n) && Quads(insert.read) && insert.Inv(n) && extract.Inv(n, insert.sent)
    ensures Sized(insert.read) && Sized(extract.sent) && Parse(extract.sent).done <= Parse(insert.read).done
    ensures |extract.tags| <= |insert.crcs|
    ensures forall i :: 0 <= i < |extract.tags| ==> extract.tags[i] == !insert.crcs[i]
  {
    hide *;
    var ps := InsertSends(n, insert);
    var qs := ExtractSends(n, insert.sent, extract);
    CarryingPrefix(n, extract.read, insert.sent);
    PrefixTrans(qs, Parse(extract.read).done, Parse(insert.sent).done);
    TakenApart(ps, insert.crcs, qs);
    PrefixTrans(Parse(extract.sent).done, ps, Parse(insert.read).done);
  }

  lemma UndoAtRest(n: nat, insert: InsertRun, extract: ExtractRun)
    requires Width(n) && Quads(insert.read) && insert.Inv(n) && extract.Inv(n, insert.sent)
    requires extract.read == insert.sent && insert.state == CRC && extract.state == FIRST
    ensures SameWords(insert.read, extract.sent) && |extract.tags| == |insert.crcs|
  {
    hide *;
    var ps := InsertSends(n, insert);
    var qs := ExtractSends(n, insert.sent, extract);
    TakenApart(ps, insert.crcs, qs);
    SamePackets(Parse(extract.sent), Parse(insert.read));
    PacketsDetermineWords(n, insert.read, extract.sent);
  }

  lemma SamePackets(p: Packets, q: Packets)
    requires p.done == q.done && p.cur == q.cur
    ensures p == q
  {
  }

  lemma PrefixTrans<T>(a: seq<T>, b: seq<T>, c: seq<T>)
    requires a <= b <= c
    ensures a <= c
  {
  }

  /** Bodies and tags of the first tagged packets. */
  lemma TakenApart(ps: seq<seq<Byte>>, cs: seq<Crc>, qs: seq<seq<Byte>>)
    requires |ps| <= |cs| && qs <= Tagged(ps, cs) && forall i :: 0 <= i < |ps| ==> |ps[i]| % 4 == 0
    ensures Bodies(qs) <= ps && |Tags(qs)| == |qs| <= |cs|
    ensures forall i :: 0 <= i < |qs| ==> Tags(qs)[i] == !cs[i]
    ensures qs == Tagged(ps, cs) ==> Bodies(qs) == ps && |qs| == |ps|
  {
    TaggedApart(ps, cs);
    var all := Tagged(ps, cs);
    assert |all| == |ps|;
    hide *;
    BodiesPrefix(qs, all);
    TagCount(qs);
    TagCount(all);
    forall i | 0 <= i < |qs| ensures Tags(qs)[i] == !cs[i] {
      assert Tags(qs)[i] == Tags(all)[i];
    }
  }

  lemma TagCount(qs: seq<seq<Byte>>)
    ensures |Tags(qs)| == |qs| == |Bodies(qs)|
  {
  }

  /** Every packet of a well-formed stream, whatever the others are, leaves insert_icrc with its complemented CRC
      if and only if its length is a multiple of four bytes; any other one leaves as it came. */
  lemma TaggedIff(n: nat, insert: InsertRun, k: nat)
    requires insert.Inv(n) && k < |Parse(insert.sent).done|
    ensures k < |Parse(insert.read).done| && k < |insert.crcs|
    ensures var p, q := Parse(insert.read).done[k], Parse(insert.sent).done[k];
      && (q == p + Le(!insert.crcs[k]) <==> |p| % 4 == 0)
      && (q == p <==> |p| % 4 != 0)
  {
    TaggedOnly(n, insert, k);
    hide InsertRun.Inv, Parse, Tagged;
    var p, c := Parse(insert.read).done[k], insert.crcs[k];
    assert |Le(!c)| == 4 && |p + Le(!c)| == |p| + 4;
  }

  lemma TaggedOnly(n: nat, insert: InsertRun, k: nat)
    requires insert.Inv(n) && k < |Parse(insert.sent).done|
    ensures k < |Parse(insert.read).done| && k < |insert.crcs|
    ensures Parse(insert.sent).done[k] == WithCrc(Parse(insert.read).done[k], insert.crcs[k])
  {
    hide Parse, WithCrc;
  }

  /** The packets that insert_icrc has tagged. */
  lemma InsertSends(n: nat, insert: InsertRun) returns (ps: seq<seq<Byte>>)
    requires Width(n) && Quads(insert.read) && insert.Inv(n)
    ensures Stream(n, insert.read) && Sized(insert.read) && Carrying(n, insert.sent) && Sized(insert.sent)
    ensures ps <= Parse(insert.read).done && |ps| <= |insert.crcs|
    ensures Parse(insert.sent).done == Tagged(ps, insert.crcs) && forall i :: 0 <= i < |ps| ==> |ps[i]| % 4 == 0
    ensures insert.state == CRC ==>
      && ps == Parse(insert.read).done && |insert.crcs| == |ps|
      && Parse(insert.read).cur == [] && Parse(insert.sent).cur == []
  {
    InsertCarries(n, insert.state, insert.crc, insert.crcs, insert.read, insert.sent);
    QuadPackets(n, insert.read);
    var p := Parse(insert.read).done;
    ps := if insert.state == POST then Front(p) else p;
  }

  /** The packets that extract_icrc has taken apart. */
  lemma ExtractSends(n: nat, link: seq<Word>, extract: ExtractRun) returns (qs: seq<seq<Byte>>)
    requires extract.Inv(n, link)
    ensures Stream(n, extract.sent) && Sized(extract.sent) && Sized(extract.read) && extract.read <= link
    ensures qs <= Parse(extract.read).done
    ensures Parse(extract.sent).done == Bodies(qs) && extract.tags == Tags(qs)
    ensures extract.state == FIRST ==>
      qs == Parse(extract.read).done && Parse(extract.read).cur == [] && Parse(extract.sent).cur == []
  {
    var q := Parse(extract.read).done;
    qs := if extract.state == LAST then Front(q) else q;
  }
}
