/** packetHeader of packet.hpp: a header of `size` bits taken from, or put into, words of `width` bits. */
module PacketHeaders {
  import opened Arith

  function Min(a: nat, b: nat): nat {
    if a <= b then a else b
  }

  class PacketHeader {
    const width: nat
    const size: nat
    var ready: bool
    var idx: nat
    var header: seq<bool>
    /** All bits of the words taken since the last clear. */
    ghost var taken: seq<bool>

    ghost predicate Shape()
      reads this
    {
      width > 0 && size > 0 && |header| == size
    }

    /** The header holds the first bits taken, and is ready once it holds `size` of them. */
    ghost predicate Parsing()
      reads this
    {
      && Shape() && |taken| == idx * width && (ready <==> |taken| >= size)
      && header[..Min(|taken|, size)] == taken[..Min(|taken|, size)]
    }

    constructor (width: nat, size: nat, header: seq<bool>)
      requires width > 0 && size > 0 && |header| == size
      ensures Parsing() && this.width == width && this.size == size && this.header == header
      ensures taken == [] && idx == 0
    {
      this.width, this.size, this.header := width, size, header;
      ready, idx, taken := false, 0, [];
    }

    method Clear()
      requires Shape()
      modifies this
      ensures Parsing() && taken == [] && idx == 0 && header == old(header)
    {
      ready, idx, taken := false, 0, [];
    }

    /** Words after the header is complete are left alone. */
    method ParseWord(word: seq<bool>)
      requires Parsing() && |word| == width
      modifies this
      ensures Parsing()
      ensures if old(ready) then header == old(header) && taken == old(taken) && idx == old(idx)
              else taken == old(taken) + word && idx == old(idx) + 1
                   && header[Min(|taken|, size)..] == old(header)[Min(|taken|, size)..]
    {
      if ready {
        return;
      }
      assert (idx + 1) * width == idx * width + width;
      if idx * width + width < size {
        header := header[..idx * width] + word + header[idx * width + width..];
      } else {
        header := header[..idx * width] + word[..size - idx * width];
        ready := true;
      }
      taken := taken + word;
      idx := idx + 1;
    }

    /** Puts the next header bits into the low end of `word`; `left` is what remains, in bytes. */
    method ConsumeWord(word: seq<bool>) returns (out: seq<bool>, left: nat)
      requires Shape() && |word| == width
      modifies this`idx
      ensures |out| == width
      ensures var at := Min(old(idx) * width, size);
        var n := Min(width, size - at);
        && out == header[at..at + n] + word[n..]
        && Min(idx * width, size) == Min(at + width, size)
        && left == (size - Min(at + width, size)) / 8 % 256
    {
      Next(idx, width);
      if (idx + 1) * width <= size {
        out := header[idx * width..(idx + 1) * width];
        Middle(header, idx * width, width);
        idx := idx + 1;
        left := (size - idx * width) / 8 % 256;
      } else if idx * width < size {
        var n := size % width;
        LastPart(idx, width, size);
        out := header[idx * width..] + word[n..];
        idx := idx + 1;
        left := 0;
      } else {
        assert header[size..] == [];
        out := word;
        left := 0;
      }
    }
  }

  lemma Next(idx: nat, width: nat)
    ensures (idx + 1) * width == idx * width + width
  {
  }

  lemma Middle(s: seq<bool>, at: nat, n: nat)
    requires at + n <= |s|
    ensures s[at..][..n] == s[at..at + n] && |s[at..]| == |s| - at
  {
  }

  lemma LastPart(idx: nat, width: nat, size: nat)
    requires idx * width < size < idx * width + width
    ensures size % width == size - idx * width
  {
    DivModUnique(width, idx, size - idx * width);
  }

  /** A header sent word by word arrives: the receiver is ready after the last word, not before, and
      holds the same bits, whatever fills the rest of that word. */
  method Transfer(tx: PacketHeader, rx: PacketHeader, filler: seq<bool>) returns (words: nat)
    requires tx != rx && tx.Shape() && rx.Shape() && tx.width == rx.width == |filler| && tx.size == rx.size
    modifies tx, rx
    ensures rx.ready && rx.header == tx.header == old(tx.header)
    ensures words > 0 && (words - 1) * tx.width < tx.size <= words * tx.width
  {
    tx.Clear();
    rx.Clear();
    words := 0;
    while !rx.ready
      invariant tx.Shape() && rx.Parsing() && tx.header == old(tx.header)
      invariant rx.idx == words && Min(tx.idx * tx.width, tx.size) == Min(|rx.taken|, tx.size)
      invariant rx.taken[..Min(|rx.taken|, tx.size)] == tx.header[..Min(|rx.taken|, tx.size)]
      invariant words > 0 ==> (words - 1) * tx.width < tx.size
      decreases tx.size - |rx.taken|
    {
      ghost var taken := rx.taken;
      var word, left := tx.ConsumeWord(filler);
      rx.ParseWord(word);
      Continues(tx.header, taken, word, filler);
      words := words + 1;
    }
  }

  lemma Continues(header: seq<bool>, taken: seq<bool>, word: seq<bool>, filler: seq<bool>)
    requires |taken| < |header| && taken == header[..|taken|]
    requires var n := Min(|filler|, |header| - |taken|); word == header[|taken|..|taken| + n] + filler[n..]
    ensures var n := Min(|taken + word|, |header|); (taken + word)[..n] == header[..n]
  {
    var n := Min(|taken + word|, |header|);
    assert forall k :: 0 <= k < n - |taken| ==> word[k] == header[|taken| + k];
  }
}
