/** net_axis words (data, keep, last) and the packets they carry. */
module Words {
  import opened Arith

  type Byte = bv8

  datatype Word = Word(data: seq<Byte>, keep: seq<bool>, last: bool)

  /** The number of leading kept bytes. */
  function Len(keep: seq<bool>): (n: nat)
    ensures n <= |keep|
    ensures forall i :: 0 <= i < n ==> keep[i]
    ensures n < |keep| ==> !keep[n]
  {
    if keep == [] || !keep[0] then 0 else 1 + Len(keep[1..])
  }

  lemma {:induction false} LenIs(keep: seq<bool>, n: nat)
    requires n <= |keep| && (forall i :: 0 <= i < n ==> keep[i]) && (n < |keep| ==> !keep[n])
    ensures Len(keep) == n
  {
  }

  /** The kept bytes are the first ones. */
  predicate Low(keep: seq<bool>) {
    forall i :: Len(keep) <= i < |keep| ==> !keep[i]
  }

  /** Words on an n-byte bus. */
  predicate Bus(n: nat, ws: seq<Word>) {
    forall i :: 0 <= i < |ws| ==> |ws[i].data| == |ws[i].keep| == n
  }

  /** A word of `n` bytes whose keep marks a low prefix; the prefix is full unless the word ends
      a packet, and never empty. */
  ghost predicate WellFormed(n: nat, w: Word) {
    |w.data| == n && |w.keep| == n && Low(w.keep) && Len(w.keep) > 0 && (!w.last ==> Len(w.keep) == n)
  }

  ghost predicate Stream(n: nat, ws: seq<Word>) {
    forall i :: 0 <= i < |ws| ==> WellFormed(n, ws[i])
  }

  function Kept(w: Word): seq<Byte>
    requires |w.data| == |w.keep|
  {
    w.data[..Len(w.keep)]
  }

  /** Equal on the bytes that count. */
  ghost predicate SameWord(a: Word, b: Word) {
    |a.data| == |a.keep| && |b.data| == |b.keep| && a.keep == b.keep && a.last == b.last && Kept(a) == Kept(b)
  }

  ghost predicate SameWords(a: seq<Word>, b: seq<Word>) {
    |a| == |b| && forall i :: 0 <= i < |a| ==> SameWord(a[i], b[i])
  }

  /** The finished packets of a stream and the bytes of the unfinished one. */
  datatype Packets = Packets(done: seq<seq<Byte>>, cur: seq<Byte>)

  function Add(p: Packets, bytes: seq<Byte>, last: bool): Packets {
    if last then Packets(p.done + [p.cur + bytes], []) else Packets(p.done, p.cur + bytes)
  }

  predicate Sized(ws: seq<Word>) {
    forall i :: 0 <= i < |ws| ==> |ws[i].data| == |ws[i].keep|
  }

  function Parse(ws: seq<Word>): Packets
    requires Sized(ws)
  {
    if ws == [] then Packets([], []) else
      var w := ws[|ws| - 1];
      Add(Parse(ws[..|ws| - 1]), Kept(w), w.last)
  }

  lemma ParseSnoc(ws: seq<Word>, w: Word)
    requires Sized(ws) && |w.data| == |w.keep|
    ensures Sized(ws + [w]) && Parse(ws + [w]) == Add(Parse(ws), Kept(w), w.last)
  {
    assert (ws + [w])[..|ws|] == ws;
  }

  lemma StreamSnoc(n: nat, ws: seq<Word>, w: Word)
    requires Sized(ws) && |w.data| == |w.keep|
    ensures Stream(n, ws + [w]) <==> Stream(n, ws) && WellFormed(n, w)
  {
    var s := ws + [w];
    assert Stream(n, s) ==> forall i :: 0 <= i < |ws| ==> ws[i] == s[i];
    assert s[|ws|] == w;
  }

  lemma StreamGrows(n: nat, ws: seq<Word>, w: Word)
    requires Stream(n, ws + [w])
    ensures Stream(n, ws) && WellFormed(n, w)
  {
    assert (ws + [w])[|ws|] == w;
    assert forall i :: 0 <= i < |ws| ==> ws[i] == (ws + [w])[i];
  }

  lemma StreamSized(n: nat, ws: seq<Word>)
    requires Stream(n, ws)
    ensures Sized(ws)
  {
  }

  lemma Append(n: nat, ws: seq<Word>, w: Word)
    requires Stream(n, ws) && WellFormed(n, w)
    ensures Stream(n, ws + [w]) && Parse(ws + [w]) == Add(Parse(ws), Kept(w), w.last)
  {
    StreamSnoc(n, ws, w);
    ParseSnoc(ws, w);
  }

  /** Inside a packet, a well-formed stream carries whole words. */
  lemma {:induction false} WholeWords(n: nat, ws: seq<Word>) returns (m: nat)
    requires Stream(n, ws)
    ensures |Parse(ws).cur| == m * n
    ensures Parse(ws).cur == [] <==> ws == [] || ws[|ws| - 1].last
  {
    m := 0;
    if ws != [] {
      hide Parse, Stream, Kept;
      FinalWord(n, ws);
      m := WholeWords(n, ws[..|ws| - 1]);
      WholeNext(m, n);
      m := if ws[|ws| - 1].last then 0 else m + 1;
    }
  }

  lemma WholeNext(m: nat, n: nat)
    ensures (m + 1) * n == m * n + n && 0 * n == 0
  {
  }

  /** The effect of the final word. */
  lemma FinalWord(n: nat, b: seq<Word>)
    requires Stream(n, b) && b != []
    ensures Stream(n, b[..|b| - 1])
    ensures b[|b| - 1].last ==> Parse(b).cur == [] && |Parse(b).done| == |Parse(b[..|b| - 1]).done| + 1
    ensures !b[|b| - 1].last ==>
      && Parse(b).done == Parse(b[..|b| - 1]).done && |Parse(b).cur| == |Parse(b[..|b| - 1]).cur| + n
  {
    assert WellFormed(n, b[|b| - 1]);
  }

  lemma {:induction false} PacketsNonEmpty(n: nat, ws: seq<Word>)
    requires Stream(n, ws)
    ensures forall i :: 0 <= i < |Parse(ws).done| ==> Parse(ws).done[i] != []
  {
    if ws != [] {
      PacketsNonEmpty(n, ws[..|ws| - 1]);
    }
  }

  /** Reading on never changes a finished packet. */
  lemma {:induction false} ParsePrefix(a: seq<Word>, b: seq<Word>)
    requires Sized(b) && a <= b
    ensures Sized(a) && Parse(a).done <= Parse(b).done
    decreases |b|
  {
    if a != b {
      assert a <= b[..|b| - 1];
      ParsePrefix(a, b[..|b| - 1]);
    }
  }

  lemma LastWordsAgree(n: nat, a: seq<Word>, x: Word, b: seq<Word>, y: Word)
    requires Stream(n, a) && Stream(n, b) && WellFormed(n, x) && WellFormed(n, y)
    requires x.last == y.last
    requires Add(Parse(a), Kept(x), x.last) == Add(Parse(b), Kept(y), y.last)
    ensures Parse(a) == Parse(b) && SameWord(x, y)
  {
    hide Parse, Add;
    var p, q := Parse(a), Parse(b);
    var i := WholeWords(n, a);
    var j := WholeWords(n, b);
    SameWhole(p, Kept(x), q, Kept(y), x.last);
    var whole := p.cur + Kept(x);
    assert |whole| == i * n + Len(x.keep) == j * n + Len(y.keep);
    SameCut(n, i, Len(x.keep), j, Len(y.keep));
    assert Kept(x) == whole[|p.cur|..] == Kept(y);
    assert p.cur == whole[..|p.cur|] == q.cur;
  }

  lemma SameWhole(p: Packets, x: seq<Byte>, q: Packets, y: seq<Byte>, last: bool)
    requires Add(p, x, last) == Add(q, y, last)
    ensures p.cur + x == q.cur + y && p.done == q.done
  {
    if last {
      var d, e := p.done + [p.cur + x], q.done + [q.cur + y];
      assert d[|d| - 1] == e[|e| - 1] && d[..|d| - 1] == p.done && e[..|e| - 1] == q.done;
    }
  }

  lemma CurEmpty(n: nat, ws: seq<Word>)
    requires Stream(n, ws)
    ensures Parse(ws).cur == [] <==> ws == [] || ws[|ws| - 1].last
  {
    var m := WholeWords(n, ws);
  }

  /** A well-formed stream is determined, on its kept bytes, by the packets it carries. */
  lemma {:induction false} PacketsDetermineWords(n: nat, a: seq<Word>, b: seq<Word>)
    requires Stream(n, a) && Stream(n, b) && Parse(a) == Parse(b)
    ensures SameWords(a, b)
    decreases |a|
  {
    hide WellFormed, SameWord;
    CurEmpty(n, a);
    CurEmpty(n, b);
    if a != [] && b != [] {
      LastWordsAgree(n, a[..|a| - 1], a[|a| - 1], b[..|b| - 1], b[|b| - 1]);
      PacketsDetermineWords(n, a[..|a| - 1], b[..|b| - 1]);
    }
  }

  /** The number of packet ends among the words. */
  function Ends(ws: seq<Word>): nat {
    if ws == [] then 0 else Ends(ws[..|ws| - 1]) + if ws[|ws| - 1].last then 1 else 0
  }

  lemma EndsSnoc(ws: seq<Word>, w: Word)
    ensures Ends(ws + [w]) == Ends(ws) + if w.last then 1 else 0
  {
    assert (ws + [w])[..|ws|] == ws;
  }

  lemma {:induction false} EndsOfPackets(ws: seq<Word>)
    requires Sized(ws)
    ensures Ends(ws) == |Parse(ws).done|
  {
    if ws != [] {
      EndsOfPackets(ws[..|ws| - 1]);
    }
  }

  /** Words equal on their kept bytes carry the same packets. */
  lemma {:induction false} SameWordsSamePackets(a: seq<Word>, b: seq<Word>)
    requires SameWords(a, b)
    ensures Sized(a) && Sized(b) && Parse(a) == Parse(b)
  {
    assert forall i :: 0 <= i < |a| ==> SameWord(a[i], b[i]);
    if a != [] {
      SameWordsSamePackets(a[..|a| - 1], b[..|b| - 1]);
    }
  }

  lemma {:induction false} EndsGrow(a: seq<Word>, c: seq<Word>)
    requires a <= c
    ensures Ends(a) <= Ends(c)
    decreases |c|
  {
    if a != c {
      EndsGrow(a, c[..|c| - 1]);
    }
  }
}
