/** stream_pkg_splitter and stream_pkg_merger of axi_utils.hpp: packets are dealt to two lanes by
    one control bit each, and collected again by the same bits. */
module SplitMerge {
  import opened Fifos
  import opened Words

  /** The words that go to lane `b` when packet number k goes to lane bits[k]. */
  function Lane(b: bool, bits: seq<bool>, ws: seq<Word>): seq<Word> {
    if ws == [] then [] else
      var before := ws[..|ws| - 1];
      Lane(b, bits, before) + if Ends(before) < |bits| && bits[Ends(before)] == b then [ws[|ws| - 1]] else []
  }

  /** There is a bit for every packet begun. */
  predicate Covered(bits: seq<bool>, ws: seq<Word>) {
    ws == [] || Ends(ws[..|ws| - 1]) < |bits|
  }

  lemma Snoc(b: bool, bits: seq<bool>, ws: seq<Word>, w: Word)
    ensures Ends(ws + [w]) == Ends(ws) + if w.last then 1 else 0
    ensures Lane(b, bits, ws + [w]) == Lane(b, bits, ws) + if Ends(ws) < |bits| && bits[Ends(ws)] == b then [w] else []
    ensures Covered(bits, ws + [w]) <==> Ends(ws) < |bits|
  {
    assert (ws + [w])[..|ws|] == ws;
  }

  lemma {:induction false} LaneMoreBits(b: bool, bits: seq<bool>, all: seq<bool>, ws: seq<Word>)
    requires bits <= all && Covered(bits, ws)
    ensures Lane(b, bits, ws) == Lane(b, all, ws)
  {
    if ws != [] {
      LaneMoreBits(b, bits, all, ws[..|ws| - 1]);
    }
  }

  lemma {:induction false} LanePrefix(b: bool, bits: seq<bool>, a: seq<Word>, c: seq<Word>)
    requires a <= c
    ensures Lane(b, bits, a) <= Lane(b, bits, c)
    decreases |c|
  {
    if a != c {
      LanePrefix(b, bits, a, c[..|c| - 1]);
    }
  }

  /** Dealing is injective on prefixes: if both lanes of `o` are prefixes of the lanes of `c`,
      then `o` is a prefix of `c`. */
  lemma {:induction false} LanesDetermine(bits: seq<bool>, o: seq<Word>, c: seq<Word>)
    requires Covered(bits, o) && Covered(bits, c)
    requires Lane(false, bits, o) <= Lane(false, bits, c) && Lane(true, bits, o) <= Lane(true, bits, c)
    ensures o <= c
    decreases |o|
  {
    if o != [] {
      var o', w := o[..|o| - 1], o[|o| - 1];
      LanePrefix(false, bits, o', o);
      LanePrefix(true, bits, o', o);
      CoveredFront(bits, o);
      hide Lane, Covered, Ends;
      LanesDetermine(bits, o', c);
      assert o == o' + [w];
      NextWord(bits, o', w, c);
    }
  }

  lemma CoveredFront(bits: seq<bool>, ws: seq<Word>)
    requires Covered(bits, ws) && ws != []
    ensures Covered(bits, ws[..|ws| - 1]) && Ends(ws[..|ws| - 1]) < |bits|
  {
  }

  /** Both streams deal their next word to the same lane, so it is the same word. */
  lemma NextWord(bits: seq<bool>, o: seq<Word>, w: Word, c: seq<Word>)
    requires o <= c && Ends(o) < |bits|
    requires Lane(bits[Ends(o)], bits, o + [w]) <= Lane(bits[Ends(o)], bits, c)
    ensures o + [w] <= c
  {
    var b := bits[Ends(o)];
    Snoc(b, bits, o, w);
    assert c != o;
    var next := c[|o|];
    assert c[..|o| + 1] == o + [next];
    Snoc(b, bits, o, next);
    LanePrefix(b, bits, o + [next], c);
    assert Lane(b, bits, c)[|Lane(b, bits, o)|] == next;
    assert Lane(b, bits, c)[|Lane(b, bits, o)|] == w;
  }

  datatype Mode = Idle | Fwd(lane: bool)

  /** What both machines keep: the word stream `ws` on the undivided side and the two lanes belong
      together under the bits read so far; a packet is open exactly when a bit is in use. */
  ghost predicate Dealt(mode: Mode, bits: seq<bool>, ws: seq<Word>, lane0: seq<Word>, lane1: seq<Word>) {
    && Covered(bits, ws)
    && |bits| == Ends(ws) + (if mode.Idle? then 0 else 1)
    && (mode.Fwd? ==> bits[|bits| - 1] == mode.lane)
    && lane0 == Lane(false, bits, ws) && lane1 == Lane(true, bits, ws)
  }

  lemma DealBit(bits: seq<bool>, ws: seq<Word>, lane0: seq<Word>, lane1: seq<Word>, b: bool)
    requires Dealt(Idle, bits, ws, lane0, lane1)
    ensures Dealt(Fwd(b), bits + [b], ws, lane0, lane1)
  {
    LaneMoreBits(false, bits, bits + [b], ws);
    LaneMoreBits(true, bits, bits + [b], ws);
  }

  lemma DealWord(b: bool, bits: seq<bool>, ws: seq<Word>, lane0: seq<Word>, lane1: seq<Word>, w: Word)
    requires Dealt(Fwd(b), bits, ws, lane0, lane1)
    ensures Dealt(if w.last then Idle else Fwd(b), bits, ws + [w],
                  if b then lane0 else lane0 + [w], if b then lane1 + [w] else lane1)
  {
    Snoc(false, bits, ws, w);
    Snoc(true, bits, ws, w);
  }

  class Splitter {
    const destIn: Fifo<bool>
    const input: Fifo<Word>
    const output0: Fifo<Word>
    const output1: Fifo<Word>
    var state: Mode

    ghost predicate Valid()
      reads this, destIn`popped, input`popped, output0`pushed, output1`pushed
    {
      Dealt(state, destIn.popped, input.popped, output0.pushed, output1.pushed)
    }

    constructor (destIn: Fifo<bool>, input: Fifo<Word>, output0: Fifo<Word>, output1: Fifo<Word>)
      requires destIn.popped == [] && input.popped == [] && output0.pushed == [] && output1.pushed == []
      ensures Valid() && this.destIn == destIn && this.input == input && this.output0 == output0
        && this.output1 == output1
    {
      this.destIn, this.input, this.output0, this.output1, state := destIn, input, output0, output1, Idle;
    }

    ghost predicate Wired()
      reads destIn, input, output0, output1
    {
      && destIn.Valid() && input.Valid() && output0.Valid() && output1.Valid()
      && input != output0 && input != output1 && output0 != output1
      && destIn as object != input && destIn as object != output0 && destIn as object != output1
    }

    /** Pass one word to the open lane. */
    method Forward()
      requires Valid() && Wired() && state.Fwd? && input.q != []
      modifies this, input`q, input`popped, output0`q, output0`pushed, output1`q, output1`pushed
      ensures Valid() && Wired()
      ensures var w := old(input.q)[0];
        && input.popped == old(input.popped) + [w] && state == (if w.last then Idle else old(state))
        && output0.pushed == old(output0.pushed) + (if old(state).lane then [] else [w])
        && output1.pushed == old(output1.pushed) + if old(state).lane then [w] else []
    {
      hide Dealt;
      ghost var ws, full0, full1 := input.popped, output0.pushed, output1.pushed;
      var currWord := input.Read();
      DealWord(state.lane, destIn.popped, ws, full0, full1, currWord);
      if state.lane {
        output1.Write(currWord);
      } else {
        output0.Write(currWord);
      }
      if currWord.last {
        state := Idle;
      }
    }

    /** One call: take a bit when idle, then pass one word on if there is one. */
    method Step()
      requires Valid() && Wired()
      modifies this, destIn`q, destIn`popped, input`q, input`popped, output0`q, output0`pushed
      modifies output1`q, output1`pushed
      ensures Valid() && Wired()
      ensures old(state).Idle? && old(destIn.q) == [] ==>
        destIn.popped == old(destIn.popped) && input.popped == old(input.popped)
      ensures old(state).Idle? && old(destIn.q) != [] ==> destIn.popped == old(destIn.popped) + [old(destIn.q)[0]]
      ensures old(state).Fwd? ==> destIn.popped == old(destIn.popped)
      ensures (old(state).Fwd? || old(destIn.q) != []) ==>
        var b := if old(state).Fwd? then old(state).lane else old(destIn.q)[0];
        && input.popped == old(input.popped) + Next(old(input.q))
        && output0.pushed == old(output0.pushed) + (if b then [] else Next(old(input.q)))
        && output1.pushed == old(output1.pushed) + if b then Next(old(input.q)) else []
    {
      hide Dealt;
      if state.Idle? {
        if destIn.q == [] {
          return;
        }
        ghost var bits := destIn.popped;
        var dest := destIn.Read();
        DealBit(bits, input.popped, output0.pushed, output1.pushed, dest);
        state := Fwd(dest);
      }
      if input.q != [] {
        Forward();
      }
    }
  }

  class Merger {
    const originIn: Fifo<bool>
    const input0: Fifo<Word>
    const input1: Fifo<Word>
    const output: Fifo<Word>
    var state: Mode

    ghost predicate Valid()
      reads this, originIn`popped, input0`popped, input1`popped, output`pushed
    {
      Dealt(state, originIn.popped, output.pushed, input0.popped, input1.popped)
    }

    constructor (originIn: Fifo<bool>, input0: Fifo<Word>, input1: Fifo<Word>, output: Fifo<Word>)
      requires originIn.popped == [] && input0.popped == [] && input1.popped == [] && output.pushed == []
      ensures Valid() && this.originIn == originIn && this.input0 == input0 && this.input1 == input1
        && this.output == output
    {
      this.originIn, this.input0, this.input1, this.output, state := originIn, input0, input1, output, Idle;
    }

    ghost predicate Wired()
      reads originIn, input0, input1, output
    {
      && originIn.Valid() && input0.Valid() && input1.Valid() && output.Valid()
      && output != input0 && output != input1 && input0 != input1
      && originIn as object != input0 && originIn as object != input1 && originIn as object != output
    }

    /** Pass on one word of the open lane if there is one. */
    method Forward()
      requires Valid() && Wired() && state.Fwd?
      modifies this, input0`q, input0`popped, input1`q, input1`popped, output`q, output`pushed
      ensures Valid() && Wired()
      ensures var q := if old(state).lane then old(input1.q) else old(input0.q);
        output.pushed == old(output.pushed) + Next(q)
    {
      hide Dealt;
      ghost var lane0, lane1, merged := input0.popped, input1.popped, output.pushed;
      var currWord: Word;
      if state.lane {
        if input1.q == [] {
          return;
        }
        currWord := input1.Read();
      } else {
        if input0.q == [] {
          return;
        }
        currWord := input0.Read();
      }
      DealWord(state.lane, originIn.popped, merged, lane0, lane1, currWord);
      output.Write(currWord);
      if currWord.last {
        state := Idle;
      }
    }

    /** One call: take a bit when idle, then pass one word of that lane on if there is one. */
    method Step()
      requires Valid() && Wired()
      modifies this, originIn`q, originIn`popped, input0`q, input0`popped, input1`q, input1`popped
      modifies output`q, output`pushed
      ensures Valid() && Wired()
      ensures old(state).Idle? && old(originIn.q) == [] ==>
        originIn.popped == old(originIn.popped) && output.pushed == old(output.pushed)
      ensures old(state).Idle? && old(originIn.q) != [] ==>
        originIn.popped == old(originIn.popped) + [old(originIn.q)[0]]
      ensures old(state).Fwd? ==> originIn.popped == old(originIn.popped)
      ensures (old(state).Fwd? || old(originIn.q) != []) ==>
        var b := if old(state).Fwd? then old(state).lane else old(originIn.q)[0];
        var q := if b then old(input1.q) else old(input0.q);
        output.pushed == old(output.pushed) + Next(q)
    {
      if state.Idle? {
        if originIn.q == [] {
          return;
        }
        ghost var bits := originIn.popped;
        var origin := originIn.Read();
        DealBit(bits, output.pushed, input0.popped, input1.popped, origin);
        state := Fwd(origin);
      }
      Forward();
    }
  }

  /** A moment in the run of splitter or merger: the bits taken, the words split or merged, and what has gone through
      each lane. */
  datatype Run = Run(mode: Mode, bits: seq<bool>, words: seq<Word>, lane0: seq<Word>, lane1: seq<Word>) {
    ghost predicate Inv() {
      Dealt(mode, bits, words, lane0, lane1)
    }
  }

  /** The merger has taken a part of what the splitter has put on the lanes, and both go by the same bits. */
  ghost predicate Joined(bits: seq<bool>, split: Run, merge: Run) {
    && split.Inv() && merge.Inv() && split.bits <= bits && merge.bits <= bits
    && merge.lane0 <= split.lane0 && merge.lane1 <= split.lane1
  }

  /** Splitter and merger joined by two lanes, driven by the same bits: in every state that any
      order of their calls can reach, the words merged so far are the first words split so far. */
  lemma SplitMergeInOrder(bits: seq<bool>, split: Run, merge: Run)
    requires Joined(bits, split, merge)
    ensures merge.words <= split.words
  {
    forall b ensures Lane(b, bits, merge.words) <= Lane(b, bits, split.words) {
      LaneMoreBits(b, split.bits, bits, split.words);
      LaneMoreBits(b, merge.bits, bits, merge.words);
    }
    LanesDetermine(bits, merge.words, split.words);
  }

  /** When the merger can take no further step, although it was given every bit, everything that
      was split has come out. */
  lemma SplitMergeComplete(bits: seq<bool>, split: Run, merge: Run)
    requires Joined(bits, split, merge)
    requires merge.mode.Idle? ==> merge.bits == bits
    requires merge.mode.Fwd? ==> if merge.mode.lane then merge.lane1 == split.lane1 else merge.lane0 == split.lane0
    ensures merge.words == split.words
  {
    SplitMergeInOrder(bits, split, merge);
    if merge.words != split.words {
      BitLeft(bits, split, merge);
      var b := bits[Ends(merge.words)];
      LaneMoreBits(b, split.bits, bits, split.words);
      LaneMoreBits(b, merge.bits, bits, merge.words);
      hide Lane, Ends, Covered;
      NextOnLane(bits, merge.words, split.words);
      assert false;
    }
  }

  /** While words are missing, there is a bit for the next one, and if the merger is in a packet, it is the one
      it goes by. */
  lemma BitLeft(bits: seq<bool>, split: Run, merge: Run)
    requires Joined(bits, split, merge) && merge.words <= split.words && merge.words != split.words
    ensures Ends(merge.words) < |split.bits| <= |bits| && Covered(bits, split.words)
    ensures merge.mode.Idle? ==> |merge.bits| == Ends(merge.words)
    ensures merge.mode.Fwd? ==> bits[Ends(merge.words)] == merge.mode.lane
  {
    EndsGrow(merge.words, split.words[..|split.words| - 1]);
  }

  /** The next word lies on its lane. */
  lemma NextOnLane(bits: seq<bool>, o: seq<Word>, c: seq<Word>)
    requires o <= c && o != c && Ends(o) < |bits|
    ensures var b := bits[Ends(o)];
      |Lane(b, bits, o)| < |Lane(b, bits, c)|
  {
    var b := bits[Ends(o)];
    assert c[..|o| + 1] == o + [c[|o|]];
    Snoc(b, bits, o, c[|o|]);
    LanePrefix(b, bits, o + [c[|o|]], c);
  }
}
