/** The packet that is still open between two points of a stream, and how long it is. */
module OpenPackets {
  import opened Arith
  import opened Fifos
  import opened Words
  import opened Crc32
  import opened Icrc
  import opened Masking
  import opened IcrcLink

  /** Packet number `k` as far as it is known. */
  function Bytes(p: Packets, k: nat): seq<Byte> {
    if k < |p.done| then p.done[k] else if k == |p.done| then p.cur else []
  }

  lemma BytesAdd(p: Packets, bytes: seq<Byte>, last: bool, k: nat)
    ensures Bytes(p, k) <= Bytes(Add(p, bytes, last), k)
    ensures k == |p.done| ==> Bytes(Add(p, bytes, last), k) == p.cur + bytes
  {
  }

  /** Reading on only makes packets longer. */
  lemma {:induction false} BytesGrow(a: seq<Word>, b: seq<Word>, k: nat)
    requires Sized(b) && a <= b
    ensures Sized(a) && Bytes(Parse(a), k) <= Bytes(Parse(b), k)
    decreases |b|
  {
    if a != b {
      var w := b[|b| - 1];
      assert a <= b[..|b| - 1];
      BytesGrow(a, b[..|b| - 1], k);
      BytesAdd(Parse(b[..|b| - 1]), Kept(w), w.last, k);
    }
  }

  /** A word more makes the open packet longer. */
  lemma NextBytes(n: nat, a: seq<Word>, b: seq<Word>)
    requires Stream(n, b) && a <= b && a != b
    ensures Sized(a) && |Parse(a).cur| < |Bytes(Parse(b), |Parse(a).done|)|
  {
    var w := b[|a|];
    var c := b[..|a| + 1];
    assert c == a + [w];
    assert WellFormed(n, w);
    var k := |Parse(a).done|;
    ParseSnoc(a, w);
    BytesAdd(Parse(a), Kept(w), w.last, k);
    BytesGrow(c, b, k);
  }

  /** No packet that was already open at `a` is still open at `b`. */
  ghost predicate Closed(a: seq<Word>, b: seq<Word>)
    requires Sized(a) && Sized(b)
  {
    Parse(a).cur == [] || |Parse(a).done| < |Parse(b).done|
  }

  /** The bytes of `m` whole words. */
  function Whole(m: nat, n: nat): nat {
    m * n
  }

  lemma OneMore(m: nat, n: nat)
    ensures Whole(m + 1, n) == Whole(m, n) + n
    ensures Whole(0, n) == 0
  {
  }

  lemma FrontOf<T>(a: seq<T>, b: seq<T>)
    requires a <= b && a != b
    ensures b != [] && a <= b[..|b| - 1]
  {
  }

  /** Then the open packet lies between the two points. */
  lemma {:induction false} OpenBetween(n: nat, a: seq<Word>, b: seq<Word>)
    requires Stream(n, b) && Sized(a) && a <= b && Closed(a, b)
    ensures |Parse(b).cur| <= Whole(|b| - |a|, n)
    decreases |b|
  {
    hide Parse, Stream, Sized, Whole, Low;
    OneMore(0, n);
    if |a| < |b| {
      FrontOf(a, b);
      FinalWord(n, b);
      if !b[|b| - 1].last {
        OpenBetween(n, a, b[..|b| - 1]);
        OneMore(|b| - 1 - |a|, n);
      }
    } else {
      assert a == b;
    }
  }

  /** And when no packet ends between them, the open packet is all there is between them. */
  lemma {:induction false} OpenWhole(n: nat, a: seq<Word>, b: seq<Word>)
    requires Stream(n, b) && Sized(a) && a <= b && Parse(a).cur == [] && |Parse(a).done| == |Parse(b).done|
    ensures |Parse(b).cur| == Whole(|b| - |a|, n)
    decreases |b|
  {
    hide Parse, Stream, Sized, Whole, Low;
    OneMore(0, n);
    if |a| < |b| {
      FrontOf(a, b);
      FinalWord(n, b);
      StreamSized(n, b[..|b| - 1]);
      ParsePrefix(a, b[..|b| - 1]);
      OpenWhole(n, a, b[..|b| - 1]);
      OneMore(|b| - 1 - |a|, n);
    } else {
      assert a == b;
    }
  }

  /** Every finished packet has at most `depth` words. */
  ghost predicate Fits(n: nat, ws: seq<Word>, depth: nat) {
    Sized(ws) && forall i :: 0 <= i < |Parse(ws).done| ==> |Parse(ws).done[i]| <= Whole(depth, n)
  }

  lemma WholeMono(a: nat, b: nat, n: nat)
    requires a <= b
    ensures Whole(a, n) <= Whole(b, n)
  {
  }

  /** A packet that ends while its words still fit into the FIFO fits as a whole. */
  lemma FitsMore(n: nat, ws: seq<Word>, w: Word, held: nat, depth: nat)
    requires Stream(n, ws + [w]) && Fits(n, ws, depth)
    requires |Parse(ws).cur| <= Whole(held, n) && held < depth
    ensures Fits(n, ws + [w], depth)
  {
    StreamGrows(n, ws, w);
    ParseSnoc(ws, w);
    hide *;
    KeptAtMost(n, w);
    OneMore(held, n);
    WholeMono(held + 1, depth, n);
    FitsAdd(n, ws, w, depth);
  }

  lemma PassedMask(n: nat, ws: seq<Word>, more: seq<Word>, held: nat, depth: nat)
    requires Stream(n, more) && Fits(n, ws, depth)
    requires |Parse(ws).cur| <= Whole(held, n) && (more != ws ==> held < depth && exists w :: more == ws + [w])
    ensures Fits(n, more, depth)
  {
    if more != ws {
      var w :| more == ws + [w];
      FitsMore(n, ws, w, held, depth);
    }
  }

  lemma KeptAtMost(n: nat, w: Word)
    requires WellFormed(n, w)
    ensures |w.data| == |w.keep| && |Kept(w)| <= n
  {
  }

  lemma FitsAdd(n: nat, ws: seq<Word>, w: Word, depth: nat)
    requires Sized(ws + [w]) && Fits(n, ws, depth) && |w.data| == |w.keep|
    requires Parse(ws + [w]) == Add(Parse(ws), Kept(w), w.last)
    requires |Parse(ws).cur| + |Kept(w)| <= Whole(depth, n)
    ensures Fits(n, ws + [w], depth)
  {
  }

  // ----- Sender -----

  /** The k-th packet on the link, without the four bytes of its CRC, is no longer than the k-th
      packet read. */
  lemma InsertLength(st: InsertState, crc: Crc, crcs: seq<Crc>, p: Packets, o: Packets, k: nat)
    requires InsertPackets(st, crc, crcs, p, o) && k <= |o.done|
    ensures |Bytes(o, k)| <= |Bytes(p, k)| + 4
    ensures k == |o.done| ==> |Bytes(o, k)| <= |Bytes(p, k)|
  {
  }

  /** The packet that extract_icrc is sending is four bytes shorter than what it has read. */
  lemma ExtractLength(n: nat, link: seq<Word>, extract: ExtractRun)
    requires Width(n) && extract.Inv(n, link)
    ensures Sized(extract.sent) && Sized(extract.read)
    ensures var o, q := Parse(extract.sent), Parse(extract.read);
      && |extract.tags| == |o.done| && |o.done| <= |q.done|
      && (o.cur == [] || |o.cur| + 4 <= |Bytes(q, |o.done|)|)
  {
    if extract.state != FIRST {
      KeptSize(n, extract.prev);
    }
  }

  /** So the packet it is sending is no longer than the one that went into insert_icrc. */
  lemma LinkLength(n: nat, insert: InsertRun, extract: ExtractRun)
    requires Width(n) && insert.Inv(n) && extract.Inv(n, insert.sent)
    ensures Sized(extract.sent) && Sized(insert.read)
    ensures |Parse(extract.sent).cur| <= |Bytes(Parse(insert.read), |Parse(extract.sent).done|)|
  {
    var k := |Parse(extract.sent).done|;
    ExtractLength(n, insert.sent, extract);
    ParsePrefix(extract.read, insert.sent);
    BytesGrow(extract.read, insert.sent, k);
    InsertLength(insert.state, insert.crc, insert.crcs, Parse(insert.read), Parse(insert.sent), k);
  }

  /** insert_icrc never reads into a packet that is not finished. */
  lemma InsertRunClosed(n: nat, insert: InsertRun, all: seq<Word>)
    requires insert.Inv(n) && insert.read <= all && Stream(n, all)
    requires Sized(all) && |insert.crcs| <= |Parse(all).done|
    ensures Sized(insert.read) && Closed(insert.read, all)
  {
  }

  /** Nor does drop_invalid_crc. */
  lemma DropClosed(n: nat, forwarding: bool, words: seq<Word>, compared: nat, all: seq<Word>)
    requires Stream(n, all) && Sized(all) && words <= all
    requires Paced(forwarding, words, compared) && compared <= |Parse(all).done|
    ensures Sized(words) && Closed(words, all)
  {
    EndsOfPackets(words);
    CurEmpty(n, words);
  }
}
