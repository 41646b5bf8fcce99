/** lshiftWordByOctet and rshiftWordByOctet of axi_utils.hpp: the first moves every packet
    `offset` bytes up to make room for a header, the second cuts the first `offset` bytes off. */
module Shifts {
  import opened Collections
  import opened Fifos
  import opened Words

  const ZERO: Byte := 0

  function Zeros(k: nat): seq<Byte> { seq(k, i => ZERO) }
  function Nothing(k: nat): seq<bool> { seq(k, i => false) }

  predicate NoneKept(keep: seq<bool>) {
    forall i :: 0 <= i < |keep| ==> !keep[i]
  }

  predicate Fits(n: nat, offset: nat, w: Word) {
    |w.data| == |w.keep| == n && 0 < offset < n
  }

  // ----- Left shift: the three words that are sent -----

  /** The keep bits below the offset come from a 32-bit constant. */
  function LeftFirst(n: nat, offset: nat, cur: Word): Word
    requires Fits(n, offset, cur)
  {
    Word(Zeros(offset) + cur.data[..n - offset],
         seq(offset, i => i < 32) + cur.keep[..n - offset],
         NoneKept(cur.keep[n - offset..]))
  }

  function LeftNext(n: nat, offset: nat, prev: Word, cur: Word): Word
    requires Fits(n, offset, prev) && Fits(n, offset, cur)
  {
    Word(prev.data[n - offset..] + cur.data[..n - offset],
         prev.keep[n - offset..] + cur.keep[..n - offset],
         NoneKept(cur.keep[n - offset..]))
  }

  function LeftTail(n: nat, offset: nat, prev: Word): Word
    requires Fits(n, offset, prev)
  {
    Word(prev.data[n - offset..] + Zeros(n - offset), prev.keep[n - offset..] + Nothing(n - offset), true)
  }

  // ----- Right shift -----

  function RightNext(n: nat, offset: nat, prev: Word, cur: Word): Word
    requires Fits(n, offset, prev) && Fits(n, offset, cur)
  {
    Word(prev.data[offset..] + cur.data[..offset],
         prev.keep[offset..] + cur.keep[..offset],
         NoneKept(cur.keep[offset..]))
  }

  function RightTail(n: nat, offset: nat, prev: Word): Word
    requires Fits(n, offset, prev)
  {
    Word(prev.data[offset..] + Zeros(offset), prev.keep[offset..] + Nothing(offset), true)
  }

  // ----- What the machines do to packets -----

  function Prefixed(z: seq<Byte>, ps: seq<seq<Byte>>): seq<seq<Byte>> {
    seq(|ps|, i requires 0 <= i < |ps| => z + ps[i])
  }

  function Drop(k: nat, p: seq<Byte>): seq<Byte> {
    if |p| > k then p[k..] else []
  }

  function Dropped(k: nat, ps: seq<seq<Byte>>): seq<seq<Byte>> {
    seq(|ps|, i requires 0 <= i < |ps| => Drop(k, ps[i]))
  }

  // ----- Left shift: words written as a function of words read -----

  /** The bytes that the next word sent will start with. */
  ghost function LeftOwed(n: nat, offset: nat, first: bool, rem: bool, prev: Word): seq<Byte>
    requires Fits(n, offset, prev)
  {
    if rem && Len(prev.keep) > n - offset then prev.data[n - offset..Len(prev.keep)]
    else if first then Zeros(offset)
    else prev.data[n - offset..]
  }

  ghost predicate LeftRegs(n: nat, offset: nat, first: bool, rem: bool, prev: Word) {
    && Fits(n, offset, prev)
    && (!first ==> WellFormed(n, prev) && Len(prev.keep) == n)
    && (rem ==> first && WellFormed(n, prev) && Len(prev.keep) > n - offset)
  }

  /** `o` is what the packets `p` read so far have become; with `rem`, the end of the last one is
      still owed. */
  ghost predicate LeftPackets(z: seq<Byte>, rem: bool, owed: seq<Byte>, p: Packets, o: Packets) {
    if rem then p.cur == [] && p.done != [] && o.done == Prefixed(z, Front(p.done)) && o.cur + owed == z + Back(p.done)
    else o.done == Prefixed(z, p.done) && o.cur + owed == z + p.cur
  }

  ghost predicate LeftInv(n: nat, offset: nat, first: bool, rem: bool, prev: Word, read: seq<Word>, sent: seq<Word>) {
    && LeftRegs(n, offset, first, rem, prev)
    && Stream(n, read) && Stream(n, sent)
    && (first ==> Parse(read).cur == [])
    && LeftPackets(Zeros(offset), rem, LeftOwed(n, offset, first, rem, prev), Parse(read), Parse(sent))
  }

  lemma PrefixedSnoc(z: seq<Byte>, ps: seq<seq<Byte>>, p: seq<Byte>)
    ensures Prefixed(z, ps + [p]) == Prefixed(z, ps) + [z + p]
  {
  }

  function LeftSend(n: nat, offset: nat, first: bool, prev: Word, cur: Word): Word
    requires Fits(n, offset, prev) && Fits(n, offset, cur)
  {
    if first then LeftFirst(n, offset, cur) else LeftNext(n, offset, prev, cur)
  }

  /** As many bytes of `cur` as the word sent has room for. */
  function Head(n: nat, offset: nat, cur: Word): (k: nat)
    requires Fits(n, offset, cur)
    ensures k <= n - offset && k <= Len(cur.keep)
  {
    if Len(cur.keep) <= n - offset then Len(cur.keep) else n - offset
  }

  /** The word sent while reading keeps the head of `cur` that fits, and ends the packet exactly
      when all of `cur` fits. */
  lemma LeftSent(n: nat, offset: nat, first: bool, prev: Word, cur: Word)
    requires LeftRegs(n, offset, first, false, prev) && offset <= 32 && WellFormed(n, cur)
    ensures var send := LeftSend(n, offset, first, prev, cur);
      && WellFormed(n, send)
      && (send.last <==> Len(cur.keep) <= n - offset)
      && Kept(send) == LeftOwed(n, offset, first, false, prev) + cur.data[..Head(n, offset, cur)]
  {
    hide LeftFirst, LeftNext, NoneKept, LeftSend, LeftOwed;
    var send := LeftSend(n, offset, first, prev, cur);
    LeftSentKeep(n, offset, first, prev, cur);
    LenIs(send.keep, offset + Head(n, offset, cur));
    LeftSentLast(n, offset, first, prev, cur);
    LeftSentData(n, offset, first, prev, cur, Head(n, offset, cur));
  }

  lemma LeftSentLast(n: nat, offset: nat, first: bool, prev: Word, cur: Word)
    requires LeftRegs(n, offset, first, false, prev) && WellFormed(n, cur)
    ensures LeftSend(n, offset, first, prev, cur).last <==> Len(cur.keep) <= n - offset
  {
    if Len(cur.keep) > n - offset {
      assert cur.keep[n - offset..][0];
    }
  }

  lemma LeftSentData(n: nat, offset: nat, first: bool, prev: Word, cur: Word, k: nat)
    requires LeftRegs(n, offset, first, false, prev) && |cur.data| == |cur.keep| == n && k <= n - offset
    ensures var data := LeftSend(n, offset, first, prev, cur).data;
      |data| == n && data[..offset + k] == LeftOwed(n, offset, first, false, prev) + cur.data[..k]
  {
    hide Len, Low;
    var owed := LeftOwed(n, offset, first, false, prev);
    assert LeftSend(n, offset, first, prev, cur).data == owed + cur.data[..n - offset];
    assert cur.data[..n - offset][..k] == cur.data[..k];
  }

  lemma LeftSentKeep(n: nat, offset: nat, first: bool, prev: Word, cur: Word)
    requires LeftRegs(n, offset, first, false, prev) && offset <= 32 && WellFormed(n, cur)
    ensures var keep := LeftSend(n, offset, first, prev, cur).keep;
      |keep| == n && forall i :: 0 <= i < n ==> (keep[i] <==> i < offset + Head(n, offset, cur))
  {
    var send, k := LeftSend(n, offset, first, prev, cur), Head(n, offset, cur);
    forall i | 0 <= i < n ensures send.keep[i] <==> i < offset + k {
      if i >= offset {
        assert send.keep[i] == cur.keep[i - offset];
      }
    }
  }

  lemma LeftOwes(n: nat, offset: nat, first: bool, prev: Word, cur: Word)
    requires LeftRegs(n, offset, first, false, prev) && offset <= 32 && WellFormed(n, cur)
    ensures var send := LeftSend(n, offset, first, prev, cur);
      var rem := cur.last && !send.last;
      && WellFormed(n, send)
      && LeftRegs(n, offset, cur.last, rem, cur)
      && Kept(send) + (if send.last then [] else LeftOwed(n, offset, cur.last, rem, cur))
         == LeftOwed(n, offset, first, false, prev) + Kept(cur)
      && (send.last ==> cur.last)
  {
    hide LeftFirst, LeftNext, NoneKept, Low, LeftSend;
    LeftSent(n, offset, first, prev, cur);
    var k, was := Head(n, offset, cur), LeftOwed(n, offset, first, false, prev);
    Joins(was, cur.data, k, Len(cur.keep));
  }

  lemma Joins<T>(was: seq<T>, data: seq<T>, k: nat, m: nat)
    requires k <= m <= |data|
    ensures (was + data[..k]) + data[k..m] == was + data[..m]
  {
  }

  lemma LeftPacketsStep(z: seq<Byte>, owed: seq<Byte>, p: Packets, o: Packets,
                        bytes: seq<Byte>, last: bool, kept: seq<Byte>, sendLast: bool, owed': seq<Byte>)
    requires LeftPackets(z, false, owed, p, o)
    requires kept + (if sendLast then [] else owed') == owed + bytes
    requires sendLast ==> last && owed' == z
    ensures LeftPackets(z, last && !sendLast, owed', Add(p, bytes, last), Add(o, kept, sendLast))
  {
    var rest := if sendLast then [] else owed';
    assert (o.cur + kept) + rest == o.cur + (kept + rest) == o.cur + (owed + bytes);
    assert o.cur + (owed + bytes) == (o.cur + owed) + bytes;
    assert z + (p.cur + bytes) == (z + p.cur) + bytes;
    assert sendLast ==> (o.cur + kept) + rest == o.cur + kept;
    if last {
      PrefixedSnoc(z, p.done, p.cur + bytes);
      assert Front(p.done + [p.cur + bytes]) == p.done;
    }
  }

  lemma LeftReadKeeps(n: nat, offset: nat, first: bool, prev: Word, read: seq<Word>, cur: Word, sent: seq<Word>)
    requires LeftInv(n, offset, first, false, prev, read, sent) && offset <= 32 && WellFormed(n, cur)
    ensures var send := LeftSend(n, offset, first, prev, cur);
      LeftInv(n, offset, cur.last, cur.last && !send.last, cur, read + [cur], sent + [send])
  {
    var send := LeftSend(n, offset, first, prev, cur);
    LeftOwes(n, offset, first, prev, cur);
    Append(n, read, cur);
    Append(n, sent, send);
    LeftPacketsStep(Zeros(offset), LeftOwed(n, offset, first, false, prev), Parse(read), Parse(sent),
                    Kept(cur), cur.last, Kept(send), send.last,
                    LeftOwed(n, offset, cur.last, cur.last && !send.last, cur));
  }

  /** The same for the machine, which also meets input that is not well formed. */
  lemma LeftReads(n: nat, offset: nat, first: bool, prev: Word, read: seq<Word>, cur: Word, sent: seq<Word>)
    requires Fits(n, offset, prev) && Fits(n, offset, cur)
    requires offset <= 32 && Stream(n, read) ==> LeftInv(n, offset, first, false, prev, read, sent)
    ensures var send := LeftSend(n, offset, first, prev, cur);
      offset <= 32 && Stream(n, read + [cur]) ==>
        LeftInv(n, offset, cur.last, cur.last && !send.last, cur, read + [cur], sent + [send])
  {
    if offset <= 32 && Stream(n, read + [cur]) {
      StreamGrows(n, read, cur);
      LeftReadKeeps(n, offset, first, prev, read, cur, sent);
    }
  }

  lemma LeftTailWord(n: nat, offset: nat, prev: Word)
    requires LeftRegs(n, offset, true, true, prev)
    ensures WellFormed(n, LeftTail(n, offset, prev))
    ensures Kept(LeftTail(n, offset, prev)) == LeftOwed(n, offset, true, true, prev)
  {
    LenIs(LeftTail(n, offset, prev).keep, Len(prev.keep) - (n - offset));
  }

  lemma LeftTailKeeps(n: nat, offset: nat, prev: Word, read: seq<Word>, sent: seq<Word>)
    requires LeftInv(n, offset, true, true, prev, read, sent)
    ensures LeftInv(n, offset, true, false, prev, read, sent + [LeftTail(n, offset, prev)])
  {
    hide *;
    LeftParts(n, offset, true, true, prev, read, sent);
    var send := LeftTail(n, offset, prev);
    LeftTailWord(n, offset, prev);
    Append(n, sent, send);
    LeftRests(n, offset, prev);
    TailPackets(Zeros(offset), LeftOwed(n, offset, true, true, prev), Parse(read), Parse(sent));
    TailLast(n, offset, prev);
    MakeLeft(n, offset, true, false, prev, read, sent + [send]);
  }

  lemma LeftParts(n: nat, offset: nat, first: bool, rem: bool, prev: Word, read: seq<Word>, sent: seq<Word>)
    requires LeftInv(n, offset, first, rem, prev, read, sent)
    ensures LeftRegs(n, offset, first, rem, prev) && Stream(n, read) && Stream(n, sent) && Sized(read) && Sized(sent)
    ensures first ==> Parse(read).cur == []
    ensures Fits(n, offset, prev)
    ensures LeftPackets(Zeros(offset), rem, LeftOwed(n, offset, first, rem, prev), Parse(read), Parse(sent))
  {
  }

  lemma MakeLeft(n: nat, offset: nat, first: bool, rem: bool, prev: Word, read: seq<Word>, sent: seq<Word>)
    requires LeftRegs(n, offset, first, rem, prev) && Stream(n, read) && Stream(n, sent)
    requires first ==> Parse(read).cur == []
    requires LeftPackets(Zeros(offset), rem, LeftOwed(n, offset, first, rem, prev), Parse(read), Parse(sent))
    ensures LeftInv(n, offset, first, rem, prev, read, sent)
  {
  }

  /** Between packets nothing but the zero bytes of the next one is owed. */
  lemma LeftRests(n: nat, offset: nat, prev: Word)
    requires LeftRegs(n, offset, true, true, prev)
    ensures LeftRegs(n, offset, true, false, prev) && LeftOwed(n, offset, true, false, prev) == Zeros(offset)
  {
  }

  lemma TailLast(n: nat, offset: nat, prev: Word)
    requires Fits(n, offset, prev)
    ensures LeftTail(n, offset, prev).last
  {
  }

  lemma TailPackets(z: seq<Byte>, owed: seq<Byte>, p: Packets, o: Packets)
    requires LeftPackets(z, true, owed, p, o)
    ensures LeftPackets(z, false, z, p, Add(o, owed, true))
  {
    PrefixedSnoc(z, Front(p.done), Back(p.done));
    assert p.done == Front(p.done) + [Back(p.done)];
    assert [] + z == z + [];
  }

  /** The same for the machine, which also meets input that is not well formed. */
  lemma LeftTails(n: nat, offset: nat, first: bool, prev: Word, read: seq<Word>, sent: seq<Word>)
    requires Fits(n, offset, prev)
    requires offset <= 32 && Stream(n, read) ==> LeftInv(n, offset, first, true, prev, read, sent)
    ensures offset <= 32 && Stream(n, read) ==>
      LeftInv(n, offset, first, false, prev, read, sent + [LeftTail(n, offset, prev)])
  {
    if offset <= 32 && Stream(n, read) {
      LeftWasFirst(n, offset, first, prev, read, sent);
      hide *;
      LeftTailKeeps(n, offset, prev, read, sent);
    }
  }

  lemma LeftWasFirst(n: nat, offset: nat, first: bool, prev: Word, read: seq<Word>, sent: seq<Word>)
    requires LeftInv(n, offset, first, true, prev, read, sent)
    ensures first
  {
  }

  /** The keep constant is 32 bits wide: the first word of a shifted packet is well formed
      exactly up to an offset of 32 bytes. */
  lemma LeftFirstWellFormedIff(n: nat, offset: nat, cur: Word)
    requires 0 < offset < n && WellFormed(n, cur)
    ensures WellFormed(n, LeftFirst(n, offset, cur)) <==> offset <= 32
    ensures forall i :: 0 <= i < offset ==> (LeftFirst(n, offset, cur).keep[i] <==> i < 32)
  {
    var send := LeftFirst(n, offset, cur);
    if offset <= 32 {
      LeftSent(n, offset, true, cur, cur);
    } else {
      LenIs(send.keep, 32);
      assert send.keep[offset] == cur.keep[0];
    }
  }

  // ----- Right shift: words written as a function of words read -----

  ghost function RightOwed(offset: nat, first: bool, rem: bool, prev: Word): seq<Byte>
    requires |prev.data| == |prev.keep|
  {
    if first && !rem then [] else Drop(offset, Kept(prev))
  }

  ghost predicate RightRegs(n: nat, offset: nat, first: bool, rem: bool, prev: Word) {
    && Fits(n, offset, prev)
    && (!first ==> WellFormed(n, prev) && Len(prev.keep) == n)
    && (rem ==> first && WellFormed(n, prev))
  }

  ghost predicate RightPackets(k: nat, first: bool, rem: bool, owed: seq<Byte>, p: Packets, o: Packets) {
    && (first ==> p.cur == [])
    && (!first ==> |p.cur| > k)
    && if rem then p.done != [] && o.done == Dropped(k, Front(p.done)) && o.cur + owed == Drop(k, Back(p.done))
       else o.done == Dropped(k, p.done) && o.cur + owed == Drop(k, p.cur)
  }

  ghost predicate Longer(k: nat, ps: seq<seq<Byte>>) {
    forall i :: 0 <= i < |ps| ==> |ps[i]| > k
  }

  /** The words sent are well formed exactly when every packet finished so far is long enough. */
  ghost predicate RightFormed(n: nat, k: nat, rem: bool, prev: Word, p: Packets, sent: seq<Word>)
    requires |prev.keep| == |prev.data|
  {
    && (rem ==> p.done != [] && (|Back(p.done)| > k <==> Len(prev.keep) > k))
    && (Stream(n, sent) <==> Longer(k, if rem then Front(p.done) else p.done))
  }

  ghost predicate RightInv(n: nat, offset: nat, first: bool, rem: bool, prev: Word, read: seq<Word>, sent: seq<Word>) {
    && RightRegs(n, offset, first, rem, prev)
    && Stream(n, read) && Sized(sent)
    && RightPackets(offset, first, rem, RightOwed(offset, first, rem, prev), Parse(read), Parse(sent))
    && RightFormed(n, offset, rem, prev, Parse(read), sent)
  }

  lemma DroppedSnoc(k: nat, ps: seq<seq<Byte>>, p: seq<Byte>)
    ensures Dropped(k, ps + [p]) == Dropped(k, ps) + [Drop(k, p)]
    ensures Longer(k, ps + [p]) <==> Longer(k, ps) && |p| > k
  {
    var s := ps + [p];
    assert s[|ps|] == p;
    assert forall i :: 0 <= i < |ps| ==> s[i] == ps[i];
  }

  lemma RightSent(n: nat, offset: nat, prev: Word, cur: Word)
    requires Fits(n, offset, cur) && WellFormed(n, cur) && WellFormed(n, prev) && Len(prev.keep) == n
    ensures var send := RightNext(n, offset, prev, cur);
      var k := if Len(cur.keep) <= offset then Len(cur.keep) else offset;
      && WellFormed(n, send)
      && (send.last <==> Len(cur.keep) <= offset)
      && Kept(send) == prev.data[offset..] + cur.data[..k]
  {
    var send := RightNext(n, offset, prev, cur);
    var k := if Len(cur.keep) <= offset then Len(cur.keep) else offset;
    forall i | 0 <= i < n ensures send.keep[i] <==> i < n - offset + k {
      if i >= n - offset {
        assert send.keep[i] == cur.keep[i - (n - offset)];
      }
    }
    LenIs(send.keep, n - offset + k);
    if Len(cur.keep) > offset {
      assert cur.keep[offset..][0];
    }
  }

  lemma RightOwes(n: nat, offset: nat, prev: Word, cur: Word)
    requires RightRegs(n, offset, false, false, prev) && WellFormed(n, cur)
    ensures var send := RightNext(n, offset, prev, cur);
      var rem := cur.last && !send.last;
      && WellFormed(n, send)
      && RightRegs(n, offset, cur.last, rem, cur)
      && Kept(send) + (if send.last then [] else RightOwed(offset, cur.last, rem, cur))
         == RightOwed(offset, false, false, prev) + Kept(cur)
      && (send.last ==> cur.last)
      && (rem ==> Len(cur.keep) > offset)
  {
    hide RightNext, NoneKept;
    RightSent(n, offset, prev, cur);
    var k := if Len(cur.keep) <= offset then Len(cur.keep) else offset;
    assert RightOwed(offset, false, false, prev) == prev.data[offset..];
    assert cur.data[..k] + Drop(offset, Kept(cur)) == Kept(cur);
    assert Len(cur.keep) <= offset ==> Drop(offset, Kept(cur)) == [];
  }

  lemma RightPacketsStep(k: nat, owed: seq<Byte>, p: Packets, o: Packets,
                         bytes: seq<Byte>, last: bool, kept: seq<Byte>, sendLast: bool, owed': seq<Byte>)
    requires RightPackets(k, false, false, owed, p, o)
    requires kept + (if sendLast then [] else owed') == owed + bytes
    requires sendLast ==> last && owed' == []
    ensures RightPackets(k, last, last && !sendLast, owed', Add(p, bytes, last), Add(o, kept, sendLast))
  {
    var rest := if sendLast then [] else owed';
    assert (o.cur + kept) + rest == o.cur + (kept + rest) == o.cur + (owed + bytes);
    assert o.cur + (owed + bytes) == (o.cur + owed) + bytes;
    assert Drop(k, p.cur + bytes) == Drop(k, p.cur) + bytes;
    assert sendLast ==> (o.cur + kept) + rest == o.cur + kept;
    if last {
      DroppedSnoc(k, p.done, p.cur + bytes);
      assert Front(p.done + [p.cur + bytes]) == p.done;
    }
  }

  lemma RightFirstKeeps(n: nat, offset: nat, prev: Word, read: seq<Word>, cur: Word, sent: seq<Word>)
    requires RightInv(n, offset, true, false, prev, read, sent) && WellFormed(n, cur)
    ensures RightInv(n, offset, cur.last, cur.last, cur, read + [cur], sent)
  {
    hide Parse, Low, Len;
    Append(n, read, cur);
    var done := Parse(read).done;
    assert Front(done + [Kept(cur)]) == done;
    assert Back(done + [Kept(cur)]) == Kept(cur);
  }

  lemma RightReadKeeps(n: nat, offset: nat, prev: Word, read: seq<Word>, cur: Word, sent: seq<Word>)
    requires RightInv(n, offset, false, false, prev, read, sent) && WellFormed(n, cur)
    ensures var send := RightNext(n, offset, prev, cur);
      RightInv(n, offset, cur.last, cur.last && !send.last, cur, read + [cur], sent + [send])
  {
    var send := RightNext(n, offset, prev, cur);
    RightOwes(n, offset, prev, cur);
    Append(n, read, cur);
    ParseSnoc(sent, send);
    StreamSnoc(n, sent, send);
    var p := Parse(read);
    RightPacketsStep(offset, RightOwed(offset, false, false, prev), p, Parse(sent),
                     Kept(cur), cur.last, Kept(send), send.last,
                     RightOwed(offset, cur.last, cur.last && !send.last, cur));
    DroppedSnoc(offset, p.done, p.cur + Kept(cur));
    assert Front(p.done + [p.cur + Kept(cur)]) == p.done;
  }

  lemma RightTailWord(n: nat, offset: nat, prev: Word)
    requires RightRegs(n, offset, true, true, prev)
    ensures var send := RightTail(n, offset, prev);
      && |send.data| == |send.keep|
      && Kept(send) == RightOwed(offset, true, true, prev)
      && (WellFormed(n, send) <==> Len(prev.keep) > offset)
  {
    var send, len := RightTail(n, offset, prev), Len(prev.keep);
    var k := if len > offset then len - offset else 0;
    forall i | 0 <= i < n ensures send.keep[i] <==> i < k {
      if i < n - offset {
        assert send.keep[i] == prev.keep[offset + i];
      }
    }
    LenIs(send.keep, k);
    if len > offset {
      assert send.data[..k] == prev.data[..len][offset..];
    }
  }

  lemma RightTailKeeps(n: nat, offset: nat, prev: Word, read: seq<Word>, sent: seq<Word>)
    requires RightInv(n, offset, true, true, prev, read, sent)
    ensures RightInv(n, offset, true, false, prev, read, sent + [RightTail(n, offset, prev)])
  {
    var send := RightTail(n, offset, prev);
    RightTailWord(n, offset, prev);
    ParseSnoc(sent, send);
    StreamSnoc(n, sent, send);
    var done := Parse(read).done;
    DroppedSnoc(offset, Front(done), Back(done));
    assert done == Front(done) + [Back(done)];
  }

  /** The same for the machine, which also meets input that is not well formed. */
  lemma RightReads(n: nat, offset: nat, first: bool, prev: Word, read: seq<Word>, cur: Word, sent: seq<Word>)
    requires Fits(n, offset, prev) && Fits(n, offset, cur)
    requires Stream(n, read) ==> RightInv(n, offset, first, false, prev, read, sent)
    ensures Stream(n, read + [cur]) ==>
      if first then RightInv(n, offset, cur.last, cur.last, cur, read + [cur], sent)
      else
        var send := RightNext(n, offset, prev, cur);
        RightInv(n, offset, cur.last, cur.last && !send.last, cur, read + [cur], sent + [send])
  {
    hide *;
    if Stream(n, read + [cur]) {
      StreamGrows(n, read, cur);
      if first {
        RightFirstKeeps(n, offset, prev, read, cur, sent);
      } else {
        RightReadKeeps(n, offset, prev, read, cur, sent);
      }
    }
  }

  lemma RightTails(n: nat, offset: nat, first: bool, prev: Word, read: seq<Word>, sent: seq<Word>)
    requires Fits(n, offset, prev)
    requires Stream(n, read) ==> RightInv(n, offset, first, true, prev, read, sent)
    ensures Stream(n, read) ==> RightInv(n, offset, first, false, prev, read, sent + [RightTail(n, offset, prev)])
  {
    if Stream(n, read) {
      assert first;
      hide *;
      RightTailKeeps(n, offset, prev, read, sent);
    }
  }

  // ----- Left shift followed by right shift -----

  lemma PrefixedDropped(z: seq<Byte>, ps: seq<seq<Byte>>)
    requires forall i :: 0 <= i < |ps| ==> ps[i] != []
    ensures Dropped(|z|, Prefixed(z, ps)) == ps && Longer(|z|, Prefixed(z, ps))
  {
  }

  lemma LongerPrefix(k: nat, a: seq<seq<Byte>>, b: seq<seq<Byte>>)
    requires a <= b && Longer(k, b)
    ensures Longer(k, a) && Dropped(k, a) <= Dropped(k, b)
  {
  }

  lemma RoundTripPackets(z: seq<Byte>, leftRem: bool, leftOwed: seq<Byte>, p: Packets, m: Packets,
                         r: seq<seq<Byte>>, rightRem: bool, sent: seq<seq<Byte>>)
    requires LeftPackets(z, leftRem, leftOwed, p, m) && forall i :: 0 <= i < |p.done| ==> p.done[i] != []
    requires r <= m.done && (rightRem ==> r != [])
    requires sent == Dropped(|z|, if rightRem then Front(r) else r)
    ensures Longer(|z|, r) && sent <= p.done
    ensures r == m.done && !leftRem && !rightRem ==> sent == p.done
  {
    PrefixedDropped(z, p.done);
    LongerPrefix(|z|, m.done, Prefixed(z, p.done));
    LongerPrefix(|z|, r, m.done);
    if rightRem {
      LongerPrefix(|z|, Front(r), r);
    }
  }

  /** A moment in the run of either machine: its registers and what it has read and sent. */
  datatype Run = Run(first: bool, rem: bool, prev: Word, read: seq<Word>, sent: seq<Word>) {
    ghost predicate Left(n: nat, offset: nat) {
      LeftInv(n, offset, first, rem, prev, read, sent)
    }

    ghost predicate Right(n: nat, offset: nat, mid: seq<Word>) {
      read <= mid && RightInv(n, offset, first, rem, prev, read, sent)
    }

    predicate AtRest() {
      first && !rem
    }
  }

  /** While the two machines run, the packets that have come out are the first packets that went
      in; once both are between packets, the words are the same. */
  lemma ShiftRoundTrip(n: nat, offset: nat, left: Run, right: Run)
    requires left.Left(n, offset) && right.Right(n, offset, left.sent)
    ensures Parse(right.sent).done <= Parse(left.read).done && Stream(n, right.sent)
    ensures right.read == left.sent && left.AtRest() && right.AtRest() ==> SameWords(left.read, right.sent)
  {
    var r := Parse(right.read).done;
    PacketsNonEmpty(n, left.read);
    ParsePrefix(right.read, left.sent);
    RoundTripPackets(Zeros(offset), left.rem, LeftOwed(n, offset, left.first, left.rem, left.prev),
                     Parse(left.read), Parse(left.sent), r, right.rem, Parse(right.sent).done);
    assert Stream(n, right.sent) by {
      if right.rem {
        LongerPrefix(offset, Front(r), r);
      }
    }
    if right.read == left.sent && left.AtRest() && right.AtRest() {
      PacketsDetermineWords(n, left.read, right.sent);
    }
  }

  // ----- The machines -----

  class LeftShift {
    const n: nat
    const offset: nat
    const input: Fifo<Word>
    const output: Fifo<Word>
    var firstWord: bool
    var writeRemainder: bool
    var prevWord: Word

    /** Offset 0 copies; otherwise well-formed input leaves the machine in LeftInv. */
    ghost predicate Valid()
      reads this, input`popped, output`pushed
    {
      && offset < n && |prevWord.data| == |prevWord.keep| == n
      && (offset == 0 ==> output.pushed == input.popped && !writeRemainder)
      && (0 < offset <= 32 && Stream(n, input.popped) ==>
            LeftInv(n, offset, firstWord, writeRemainder, prevWord, input.popped, output.pushed))
    }

    constructor (n: nat, offset: nat, input: Fifo<Word>, output: Fifo<Word>, any: Word)
      requires offset < n && |any.data| == |any.keep| == n
      requires input.popped == [] && output.pushed == []
      ensures Valid() && this.n == n && this.offset == offset && this.input == input && this.output == output
    {
      this.n, this.offset, this.input, this.output := n, offset, input, output;
      firstWord, writeRemainder, prevWord := true, false, any;
    }

    /** One call: send the owed remainder, else read and send one word, else nothing. */
    method Step()
      requires Valid() && input.Valid() && output.Valid() && input != output && Bus(n, input.q)
      modifies this, input`q, input`popped, output`q, output`pushed
      ensures Valid() && input.Valid() && output.Valid()
      ensures old(writeRemainder) ==> input.popped == old(input.popped) && !writeRemainder
      ensures !old(writeRemainder) && old(input.q) != [] ==> input.popped == old(input.popped) + [old(input.q)[0]]
      ensures if old(writeRemainder) || old(input.q) != [] then |output.pushed| == |old(output.pushed)| + 1
              else output.pushed == old(output.pushed) && input.popped == old(input.popped)
    {
      hide LeftInv, LeftTail, LeftFirst, LeftNext, WellFormed, Stream;
      if writeRemainder {
        var sendWord := LeftTail(n, offset, prevWord);
        LeftTails(n, offset, firstWord, prevWord, input.popped, output.pushed);
        output.Write(sendWord);
        writeRemainder := false;
      } else if input.q != [] {
        ghost var before := input.popped;
        var currWord := input.Read();
        if offset == 0 {
          output.Write(currWord);
        } else {
          LeftReads(n, offset, firstWord, prevWord, before, currWord, output.pushed);
          var sendWord := if firstWord then LeftFirst(n, offset, currWord) else LeftNext(n, offset, prevWord, currWord);
          output.Write(sendWord);
          prevWord := currWord;
          firstWord := false;
          if currWord.last {
            firstWord := true;
            writeRemainder := !sendWord.last;
          }
        }
      }
    }
  }

  class RightShift {
    const n: nat
    const offset: nat
    const input: Fifo<Word>
    const output: Fifo<Word>
    var remainder: bool
    var firstWord: bool
    var prevWord: Word

    ghost predicate Valid()
      reads this, input`popped, output`pushed
    {
      && offset < n && |prevWord.data| == |prevWord.keep| == n
      && (offset == 0 ==> output.pushed == input.popped && !remainder && !firstWord)
      && (0 < offset && Stream(n, input.popped) ==>
            RightInv(n, offset, firstWord, remainder, prevWord, input.popped, output.pushed))
    }

    constructor (n: nat, offset: nat, input: Fifo<Word>, output: Fifo<Word>, any: Word)
      requires offset < n && |any.data| == |any.keep| == n
      requires input.popped == [] && output.pushed == []
      ensures Valid() && this.n == n && this.offset == offset && this.input == input && this.output == output
    {
      this.n, this.offset, this.input, this.output := n, offset, input, output;
      remainder, firstWord, prevWord := false, offset != 0, any;
    }

    /** One call: send the remainder, else read one word and, unless it starts a packet, send one. */
    method Step()
      requires Valid() && input.Valid() && output.Valid() && input != output && Bus(n, input.q)
      modifies this, input`q, input`popped, output`q, output`pushed
      ensures Valid() && input.Valid() && output.Valid()
      ensures old(remainder) ==> input.popped == old(input.popped) && !remainder
      ensures !old(remainder) && old(input.q) != [] ==> input.popped == old(input.popped) + [old(input.q)[0]]
      ensures if old(remainder) || (old(input.q) != [] && !old(firstWord))
              then |output.pushed| == |old(output.pushed)| + 1
              else output.pushed == old(output.pushed)
      ensures !old(remainder) && old(input.q) == [] ==> input.popped == old(input.popped)
    {
      hide RightInv, RightNext, RightTail, WellFormed, Stream;
      if remainder {
        var sendWord := RightTail(n, offset, prevWord);
        RightTails(n, offset, firstWord, prevWord, input.popped, output.pushed);
        output.Write(sendWord);
        remainder := false;
      } else if input.q != [] {
        ghost var before := input.popped;
        var currWord := input.Read();
        if 0 < offset {
          RightReads(n, offset, firstWord, prevWord, before, currWord, output.pushed);
        }
        var sendLast := false;
        if !firstWord {
          var sendWord := if offset == 0 then currWord else RightNext(n, offset, prevWord, currWord);
          sendLast := sendWord.last;
          output.Write(sendWord);
        }
        prevWord := currWord;
        firstWord := false;
        if currWord.last {
          firstWord := offset != 0;
          if !sendLast {
            remainder := true;
          }
        }
      }
    }
  }
}
