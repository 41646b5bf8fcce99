/** increaseStreamWidth and reduceStreamWidth of axi_utils.hpp: d narrow words of m bytes become
    one word of m*d bytes, and back. */
module Widths {
  import opened Arith
  import opened Fifos
  import opened Words

  lemma AddParts(p: Packets, a: seq<Byte>, b: seq<Byte>, last: bool)
    ensures Add(Add(p, a, false), b, last) == Add(p, a + b, last)
  {
    assert p.cur + a + b == p.cur + (a + b);
  }

  /** Replace the narrow word number `count` inside `w`. */
  function Load(m: nat, count: nat, w: Word, cur: Word): (r: Word)
    requires |w.data| == |w.keep| >= m * count + m && |cur.data| == |cur.keep| == m
    ensures |r.data| == |r.keep| == |w.data|
  {
    Word(w.data[..m * count] + cur.data + w.data[m * count + m..],
         w.keep[..m * count] + cur.keep + w.keep[m * count + m..],
         cur.last)
  }

  // ----- Increase -----

  ghost predicate WideRegs(m: nat, d: nat, count: nat, temp: Word) {
    && m > 0 && count < d && |temp.data| == |temp.keep| == m * d
    && m * count + m <= m * d
    && (forall i :: 0 <= i < m * d ==> (temp.keep[i] <==> i < m * count))
  }

  ghost predicate WideInv(m: nat, d: nat, count: nat, temp: Word, read: seq<Word>, sent: seq<Word>) {
    && WideRegs(m, d, count, temp)
    && Stream(m, read) && Stream(m * d, sent)
    && Parse(read) == Add(Parse(sent), temp.data[..m * count], false)
  }

  lemma LoadLen(m: nat, d: nat, count: nat, temp: Word, cur: Word)
    requires WideRegs(m, d, count, temp) && WellFormed(m, cur)
    ensures var t := Load(m, count, temp, cur);
      && Low(t.keep) && Len(t.keep) == m * count + Len(cur.keep)
      && Kept(t) == temp.data[..m * count] + Kept(cur)
  {
    var t := Load(m, count, temp, cur);
    forall i | 0 <= i < m * d ensures t.keep[i] <==> i < m * count + Len(cur.keep) {
      if m * count <= i < m * count + m {
        assert t.keep[i] == cur.keep[i - m * count];
      }
    }
    LenIs(t.keep, m * count + Len(cur.keep));
  }

  /** Reading one narrow word: `sends` says whether the wide word goes out. */
  lemma WideKeeps(m: nat, d: nat, count: nat, temp: Word, read: seq<Word>, cur: Word, sent: seq<Word>)
    requires WideInv(m, d, count, temp, read, sent) && WellFormed(m, cur)
    ensures var t := Load(m, count, temp, cur);
      if cur.last || count + 1 == d then
        WideInv(m, d, 0, t.(keep := seq(m * d, i => false)), read + [cur], sent + [t])
      else
        WideInv(m, d, count + 1, t, read + [cur], sent)
  {
    var t := Load(m, count, temp, cur);
    LoadRegs(m, d, count, temp, cur);
    hide WideRegs, Load, Parse, Stream, WellFormed;
    Append(m, read, cur);
    AddParts(Parse(sent), temp.data[..m * count], Kept(cur), cur.last);
    if cur.last || count + 1 == d {
      Append(m * d, sent, t);
      AddNothing(Parse(sent + [t]), t.data[..m * 0]);
    }
  }

  lemma AddNothing(p: Packets, bytes: seq<Byte>)
    requires bytes == []
    ensures Add(p, bytes, false) == p
  {
    assert p.cur + bytes == p.cur;
  }

  /** The register after loading, and after sending. */
  lemma LoadRegs(m: nat, d: nat, count: nat, temp: Word, cur: Word)
    requires WideRegs(m, d, count, temp) && WellFormed(m, cur)
    ensures m * count <= |temp.data|
    ensures var t := Load(m, count, temp, cur);
      && Kept(t) == temp.data[..m * count] + Kept(cur) && t.last == cur.last
      && if cur.last || count + 1 == d then
           WellFormed(m * d, t) && WideRegs(m, d, 0, t.(keep := seq(m * d, i => false))) && t.data[..m * 0] == []
         else
           WideRegs(m, d, count + 1, t) && t.data[..m * (count + 1)] == Kept(t)
  {
    hide *;
    Regs(m, d, count, temp, cur);
    var t := Load(m, count, temp, cur);
    LoadLen(m, d, count, temp, cur);
    Products(m, d, count);
    if cur.last || count + 1 == d {
      MakeWellFormed(m * d, t);
      Sends(m, d, t);
    } else {
      Fills(m, d, count + 1, t);
    }
  }

  lemma Regs(m: nat, d: nat, count: nat, temp: Word, cur: Word)
    requires WideRegs(m, d, count, temp) && WellFormed(m, cur)
    ensures m > 0 && count < d && |temp.data| == |temp.keep| == m * d && m * count + m <= m * d
    ensures |cur.data| == |cur.keep| == m && 0 < Len(cur.keep) <= m && (!cur.last ==> Len(cur.keep) == m)
    ensures Load(m, count, temp, cur).last == cur.last
    ensures |Load(m, count, temp, cur).data| == |Load(m, count, temp, cur).keep| == m * d
  {
  }

  lemma MakeWellFormed(n: nat, w: Word)
    requires |w.data| == |w.keep| == n && Low(w.keep) && Len(w.keep) > 0 && (!w.last ==> Len(w.keep) == n)
    ensures WellFormed(n, w)
  {
  }

  lemma Products(m: nat, d: nat, count: nat)
    requires count < d
    ensures m * (count + 1) == m * count + m && m <= m * d
    ensures count + 1 == d ==> m * d == m * count + m
    ensures count + 1 < d ==> m * (count + 1) + m <= m * d
  {
    MulStep(0, d, m);
    if count + 1 < d {
      MulStep(count + 1, d, m);
    }
  }

  lemma Sends(m: nat, d: nat, t: Word)
    requires m > 0 && d > 0 && |t.data| == |t.keep| == m * d && m <= m * d
    ensures WideRegs(m, d, 0, t.(keep := seq(m * d, i => false))) && t.data[..m * 0] == []
  {
    assert m * 0 == 0;
  }

  lemma Fills(m: nat, d: nat, count: nat, t: Word)
    requires m > 0 && count < d && |t.data| == |t.keep| == m * d && m * count + m <= m * d
    requires Low(t.keep) && Len(t.keep) == m * count
    ensures WideRegs(m, d, count, t) && t.data[..m * count] == Kept(t)
  {
  }

  // ----- Reduce -----

  /** The register after its lowest narrow word has gone out; the top bytes stay behind. */
  function Shifted(m: nat, w: Word): (r: Word)
    requires |w.data| == |w.keep| >= m
    ensures |r.data| == |r.keep| == |w.data|
  {
    Word(w.data[m..] + w.data[|w.data| - m..], w.keep[m..] + seq(m, i => false), w.last)
  }

  function Piece(m: nat, w: Word, last: bool): Word
    requires |w.data| == |w.keep| >= m
  {
    Word(w.data[..m], w.keep[..m], last)
  }

  /** After `count` narrow words of a wide word have gone out, `w` holds the rest. */
  ghost predicate NarrowRegs(m: nat, d: nat, count: nat, w: Word) {
    && m > 0 && count < d && |w.data| == |w.keep| == m * d && Low(w.keep)
    && 0 < Len(w.keep) <= m * (d - count) && (!w.last ==> Len(w.keep) == m * (d - count))
  }

  ghost predicate NarrowInv(m: nat, d: nat, first: bool, count: nat, w: Word, read: seq<Word>, sent: seq<Word>) {
    && Stream(m * d, read) && Stream(m, sent)
    && if first then Parse(sent) == Parse(read)
       else 0 < count && NarrowRegs(m, d, count, w) && Parse(read) == Add(Parse(sent), Kept(w), w.last)
  }

  /** Cutting the lowest narrow word off `w` splits its kept bytes. */
  lemma Cut(m: nat, w: Word, last: bool)
    requires |w.data| == |w.keep| && 0 < m < |w.keep| && Low(w.keep) && 0 < Len(w.keep)
    requires last ==> !w.keep[m]
    requires !last ==> m <= Len(w.keep)
    ensures var k := Len(w.keep);
      && WellFormed(m, Piece(m, w, last))
      && Kept(Piece(m, w, last)) == w.data[..if k < m then k else m]
      && Low(Shifted(m, w).keep) && Len(Shifted(m, w).keep) == (if k < m then 0 else k - m)
      && Kept(Shifted(m, w)) == w.data[if k < m then k else m..k]
  {
    CutPiece(m, w, last);
    CutRest(m, w);
  }

  lemma CutPiece(m: nat, w: Word, last: bool)
    requires |w.data| == |w.keep| && 0 < m < |w.keep| && Low(w.keep) && 0 < Len(w.keep)
    requires !last ==> m <= Len(w.keep)
    ensures WellFormed(m, Piece(m, w, last))
    ensures Kept(Piece(m, w, last)) == w.data[..if Len(w.keep) < m then Len(w.keep) else m]
  {
    var k := if Len(w.keep) < m then Len(w.keep) else m;
    assert forall i :: 0 <= i < m ==> w.keep[..m][i] == w.keep[i];
    LenIs(w.keep[..m], k);
    assert w.data[..m][..k] == w.data[..k];
  }

  lemma CutRest(m: nat, w: Word)
    requires |w.data| == |w.keep| && 0 < m < |w.keep| && Low(w.keep)
    ensures var k, rest := Len(w.keep), Shifted(m, w);
      && Low(rest.keep) && Len(rest.keep) == (if k < m then 0 else k - m)
      && Kept(rest) == w.data[if k < m then k else m..k]
  {
    var k, rest := Len(w.keep), Shifted(m, w);
    var j := if k < m then 0 else k - m;
    ShiftedKeep(m, w);
    LenIs(rest.keep, j);
    assert Kept(rest) == rest.data[..j];
    ShiftedData(m, w, j);
  }

  lemma ShiftedKeep(m: nat, w: Word)
    requires |w.data| == |w.keep| && 0 < m < |w.keep|
    ensures forall i :: 0 <= i < |w.keep| - m ==> Shifted(m, w).keep[i] == w.keep[m + i]
    ensures forall i :: |w.keep| - m <= i < |w.keep| ==> !Shifted(m, w).keep[i]
  {
  }

  lemma ShiftedData(m: nat, w: Word, j: nat)
    requires |w.data| == |w.keep| && m + j <= |w.data|
    ensures Shifted(m, w).data[..j] == w.data[m..m + j]
  {
  }

  /** With room for `r` bytes left, of which the last narrow word takes them all. */
  lemma CutWithin(m: nat, r: nat, w: Word, final: bool)
    requires |w.data| == |w.keep| && 0 < m < |w.keep| && m <= r <= |w.keep| && Low(w.keep)
    requires 0 < Len(w.keep) <= r && (!w.last ==> Len(w.keep) == r)
    requires final ==> r == m
    requires !final ==> r >= m + m
    ensures var last := if !final then !w.keep[m] else w.last;
      var piece := Piece(m, w, last);
      var rest := Shifted(m, w);
      && WellFormed(m, piece)
      && (last ==> w.last && Kept(piece) == Kept(w))
      && (!last && !final ==> Low(rest.keep) && 0 < Len(rest.keep) <= r - m && (!w.last ==> Len(rest.keep) == r - m)
                              && Kept(piece) + Kept(rest) == Kept(w))
      && (!last && final ==> !w.last && Kept(piece) == Kept(w))
  {
    Cut(m, w, if !final then !w.keep[m] else w.last);
  }

  lemma Room(m: nat, d: nat, count: nat)
    requires count < d
    ensures m * (d - count) == m + m * (d - (count + 1))
    ensures m <= m * (d - count) <= m * d
    ensures count + 1 == d ==> m * (d - count) == m
    ensures count + 1 < d ==> m * (d - count) >= m + m
  {
    MulStep(0, d - count, m);
    assert m * d == m * (d - count) + m * count;
    if count + 1 < d {
      MulStep(0, d - (count + 1), m);
    }
  }

  /** Sending the lowest narrow word of `w`: it is the last one of the packet exactly when the
      next keep bit says that nothing follows, or the wide word is exhausted and was a last one. */
  lemma NarrowPiece(m: nat, d: nat, count: nat, w: Word)
    requires d >= 2 && NarrowRegs(m, d, count, w) && m < m * d
    ensures var last := if count < d - 1 then !w.keep[m] else w.last;
      var piece := Piece(m, w, last);
      var rest := Shifted(m, w);
      && WellFormed(m, piece)
      && (last ==> w.last && Kept(piece) == Kept(w))
      && (!last && count + 1 < d ==> NarrowRegs(m, d, count + 1, rest) && Kept(piece) + Kept(rest) == Kept(w))
      && (!last && count + 1 == d ==> !w.last && Kept(piece) == Kept(w))
  {
    Room(m, d, count);
    CutWithin(m, m * (d - count), w, count + 1 == d);
  }

  lemma NarrowKeeps(m: nat, d: nat, count: nat, w: Word, read: seq<Word>, sent: seq<Word>)
    requires d >= 2 && Stream(m * d, read) && Stream(m, sent)
    requires NarrowRegs(m, d, count, w) && Parse(read) == Add(Parse(sent), Kept(w), w.last)
    requires m < m * d
    ensures var last := if count < d - 1 then !w.keep[m] else w.last;
      NarrowInv(m, d, last || count + 1 == d, count + 1, Shifted(m, w), read, sent + [Piece(m, w, last)])
  {
    var last := if count < d - 1 then !w.keep[m] else w.last;
    var piece := Piece(m, w, last);
    NarrowPiece(m, d, count, w);
    Append(m, sent, piece);
    if !last && count + 1 < d {
      AddParts(Parse(sent), Kept(piece), Kept(Shifted(m, w)), w.last);
    }
  }

  /** The same for the machine, which also meets input that is not well formed. */
  lemma NarrowSends(m: nat, d: nat, count: nat, w: Word, read: seq<Word>, sent: seq<Word>)
    requires d >= 2 && m < m * d && |w.data| == |w.keep| == m * d
    requires Stream(m * d, read) ==> NarrowRegs(m, d, count, w) && Stream(m, sent)
                                     && Parse(read) == Add(Parse(sent), Kept(w), w.last)
    ensures var last := if count < d - 1 then !w.keep[m] else w.last;
      Stream(m * d, read) ==>
        NarrowInv(m, d, last || count + 1 == d, count + 1, Shifted(m, w), read, sent + [Piece(m, w, last)])
  {
    if Stream(m * d, read) {
      NarrowKeeps(m, d, count, w, read, sent);
    }
  }

  lemma NarrowOpens(m: nat, d: nat, first: bool, count: nat, w: Word, read: seq<Word>, sent: seq<Word>)
    ensures first && NarrowInv(m, d, first, count, w, read, sent) ==>
      Sized(read) && Sized(sent) && Stream(m, sent) && Parse(sent) == Parse(read)
  {
  }

  /** Between wide words the count does not matter. */
  lemma AnyCount(m: nat, d: nat, count: nat, other: nat, w: Word, read: seq<Word>, sent: seq<Word>)
    ensures NarrowInv(m, d, true, count, w, read, sent) ==> NarrowInv(m, d, true, other, w, read, sent)
  {
  }

  lemma NarrowStarts(m: nat, d: nat, before: seq<Word>, w: Word, sent: seq<Word>)
    requires m > 0 && d >= 2 && |w.data| == |w.keep| == m * d
    requires Stream(m * d, before) ==> Stream(m, sent) && Parse(sent) == Parse(before)
    ensures Stream(m * d, before + [w]) ==> NarrowRegs(m, d, 0, w) && Stream(m, sent)
                                            && Parse(before + [w]) == Add(Parse(sent), Kept(w), w.last)
  {
    if Stream(m * d, before + [w]) {
      StreamGrows(m * d, before, w);
      Append(m * d, before, w);
    }
  }

  // ----- Round trip -----

  /** A moment in the run of each machine: its registers and what it has read and sent. */
  datatype WideRun = WideRun(count: nat, temp: Word, read: seq<Word>, sent: seq<Word>) {
    ghost predicate Inv(m: nat, d: nat) {
      WideInv(m, d, count, temp, read, sent)
    }
  }

  datatype NarrowRun = NarrowRun(first: bool, count: nat, cur: Word, read: seq<Word>, sent: seq<Word>) {
    ghost predicate Inv(m: nat, d: nat, mid: seq<Word>) {
      read <= mid && NarrowInv(m, d, first, count, cur, read, sent)
    }
  }

  /** While they run, the packets finished in the middle are those finished at the input, and those
      that have come out are the first of them. */
  lemma WidthRunning(m: nat, d: nat, wide: WideRun, narrow: NarrowRun)
    requires wide.Inv(m, d) && narrow.Inv(m, d, wide.sent)
    ensures Parse(wide.sent).done == Parse(wide.read).done && Parse(wide.sent).cur <= Parse(wide.read).cur
    ensures Parse(narrow.sent).done <= Parse(narrow.read).done <= Parse(wide.sent).done
    ensures Parse(narrow.sent).done <= Parse(wide.read).done
    ensures wide.count == 0 ==> Parse(wide.sent) == Parse(wide.read)
    ensures narrow.first ==> Parse(narrow.sent) == Parse(narrow.read)
  {
    ParsePrefix(narrow.read, wide.sent);
    if wide.count == 0 {
      AddNothing(Parse(wide.sent), wide.temp.data[..m * 0]);
    }
  }

  /** Widening, then narrowing over a FIFO: at any time the packets that have come out are the first
      packets that went in; at rest, the very words that went in have come out. */
  lemma WidthRoundTrip(m: nat, d: nat, wide: WideRun, narrow: NarrowRun)
    requires wide.Inv(m, d) && narrow.Inv(m, d, wide.sent)
    ensures Parse(narrow.sent).done <= Parse(wide.read).done
    ensures wide.count == 0 && narrow.read == wide.sent && narrow.first ==> SameWords(wide.read, narrow.sent)
  {
    WidthRunning(m, d, wide, narrow);
    if wide.count == 0 && narrow.read == wide.sent && narrow.first {
      PacketsDetermineWords(m, wide.read, narrow.sent);
    }
  }

  // ----- The machines -----

  class IncreaseWidth {
    const m: nat
    const d: nat
    const input: Fifo<Word>
    const output: Fifo<Word>
    var count: nat
    var temp: Word

    ghost predicate Valid()
      reads this, input`popped, output`pushed
    {
      && count < d && |temp.data| == |temp.keep| == m * d
      && (Stream(m, input.popped) ==> WideInv(m, d, count, temp, input.popped, output.pushed))
    }

    constructor (m: nat, d: nat, input: Fifo<Word>, output: Fifo<Word>, any: seq<Byte>)
      requires m > 0 && d >= 2 && |any| == m * d
      requires input.popped == [] && output.pushed == []
      ensures Valid() && this.m == m && this.d == d && this.input == input && this.output == output
    {
      this.m, this.d, this.input, this.output := m, d, input, output;
      count, temp := 0, Word(any, seq(m * d, i => false), false);
      MulStep(0, d, m);
    }

    /** One call reads at most one narrow word; a wide word goes out when it is full or the packet ends. */
    method Step()
      requires Valid() && input.Valid() && output.Valid() && input != output && Bus(m, input.q)
      modifies this, input`q, input`popped, output`q, output`pushed
      ensures Valid() && input.Valid() && output.Valid()
      ensures old(input.q) == [] ==> input.popped == old(input.popped) && output.pushed == old(output.pushed)
      ensures old(input.q) != [] ==>
        && input.popped == old(input.popped) + [old(input.q)[0]]
        && if old(input.q)[0].last || old(count) + 1 == d then |output.pushed| == |old(output.pushed)| + 1 && count == 0
           else output.pushed == old(output.pushed) && count == old(count) + 1
    {
      if input.q != [] {
        ghost var before := input.popped;
        var currWord := input.Read();
        MulStep(count, d, m);
        if Stream(m, input.popped) {
          StreamGrows(m, before, currWord);
          WideKeeps(m, d, count, temp, before, currWord, output.pushed);
        }
        temp := Load(m, count, temp, currWord);
        count := count + 1;
        if currWord.last || count == d {
          output.Write(temp);
          count := 0;
          temp := temp.(keep := seq(m * d, i => false));
        }
      }
    }
  }

  class ReduceWidth {
    const m: nat
    const d: nat
    const input: Fifo<Word>
    const output: Fifo<Word>
    var first: bool
    var count: nat
    var currWord: Word

    ghost predicate Valid()
      reads this, input`popped, output`pushed
    {
      && m > 0 && d >= 2 && |currWord.data| == |currWord.keep| == m * d && m < m * d
      && (!first ==> count < d)
      && (Stream(m * d, input.popped) ==> NarrowInv(m, d, first, count, currWord, input.popped, output.pushed))
    }

    constructor (m: nat, d: nat, input: Fifo<Word>, output: Fifo<Word>, any: Word)
      requires m > 0 && d >= 2 && |any.data| == |any.keep| == m * d
      requires input.popped == [] && output.pushed == []
      ensures Valid() && this.m == m && this.d == d && this.input == input && this.output == output
    {
      this.m, this.d, this.input, this.output := m, d, input, output;
      first, count, currWord := true, 0, any;
      MulStep(1, d, m);
    }

    /** State FIRST: read a wide word and send its lowest narrow word. */
    method Begin()
      requires Valid() && input.Valid() && output.Valid() && input != output && Bus(m * d, input.q)
      requires first && input.q != []
      modifies this, input`q, input`popped, output`q, output`pushed
      ensures Valid() && input.Valid() && output.Valid()
      ensures input.popped == old(input.popped) + [old(input.q)[0]]
      ensures |output.pushed| == |old(output.pushed)| + 1
    {
      hide NarrowInv, NarrowRegs, WellFormed, Stream, Parse;
      ghost var before := input.popped;
      var word := input.Read();
      var temp := Piece(m, word, !word.keep[m]);
      NarrowOpens(m, d, first, count, currWord, before, output.pushed);
      NarrowStarts(m, d, before, word, output.pushed);
      NarrowSends(m, d, 0, word, input.popped, output.pushed);
      output.Write(temp);
      if word.keep[m] {
        count, first := 1, false;
      }
      currWord := Shifted(m, word);
      AnyCount(m, d, 1, count, currWord, input.popped, output.pushed);
    }

    /** State SECOND: send the next narrow word of the wide word in progress. */
    method Continue()
      requires Valid() && output.Valid() && input != output && !first
      modifies this, output`q, output`pushed
      ensures Valid() && output.Valid() && |output.pushed| == |old(output.pushed)| + 1
    {
      NarrowSends(m, d, count, currWord, input.popped, output.pushed);
      var temp := Piece(m, currWord, if count < d - 1 then !currWord.keep[m] else currWord.last);
      output.Write(temp);
      currWord := Shifted(m, currWord);
      count := count + 1;
      if count == d || temp.last {
        first := true;
      }
    }

    /** One call sends one narrow word, reading a wide word first when none is in progress. */
    method Step()
      requires Valid() && input.Valid() && output.Valid() && input != output && Bus(m * d, input.q)
      modifies this, input`q, input`popped, output`q, output`pushed
      ensures Valid() && input.Valid() && output.Valid()
      ensures old(first) && old(input.q) == [] ==>
        input.popped == old(input.popped) && output.pushed == old(output.pushed)
      ensures !old(first) ==> input.popped == old(input.popped)
      ensures old(first) && old(input.q) != [] ==> input.popped == old(input.popped) + [old(input.q)[0]]
      ensures !old(first) || old(input.q) != [] ==> |output.pushed| == |old(output.pushed)| + 1
    {
      if !first {
        Continue();
      } else if input.q != [] {
        Begin();
      }
    }
  }
}
