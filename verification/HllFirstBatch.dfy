/** The pipeline of divide_data and HllSketch.hpp run on one line, from its start until nothing can move. */
module HllFirstBatch {
  import opened Arith
  import opened Options
  import opened Flits
  import opened Collectors
  import opened HllSketch
  import opened DivideData
  import opened HllHistory
  import opened HllPipeline
  import opened HllLeftover
  import opened HllProgress

  /** A batch of one line with the same value on every lane, all of them kept. */
  function OneLine(n: nat, v: nat): (w: Line)
    ensures |w.vals| == |w.keep| == n
  {
    Line(seq(n, i => v), seq(n, i => true), true)
  }

  /** Its metrics come out right exactly when its value covers the value 0 that is left over on every lane at the start:
      the same bucket, and at least the same rank. */
  lemma OneLineIff(h: nat, p: nat, hash: nat -> nat, n: nat, v: nat, m: Metrics)
    requires p <= h && n > 0 && Hashes(h, hash) && AllLines(n, [[OneLine(n, v)]])
    requires Reported(h, p, AllLanes(h, p, hash, n, [[OneLine(n, v)]]), 0, m)
    ensures Lines(n, [OneLine(n, v)])
    ensures var own := OwnItems(h, p, hash, n, [OneLine(n, v)]);
      && InRanks(Frac(h, p), BucketRanks(Pow2(p), own))
      && (m == MetricsOf(h, p, BucketRanks(Pow2(p), own)) <==>
            var x, zero := Ranked(h, p, hash(v)), Ranked(h, p, hash(0));
            x.key == zero.key && zero.val <= x.val)
  {
    var done := [[OneLine(n, v)]];
    assert done[..0] == [];
    LeftoverHarmlessIff(h, p, hash, n, done, 0, m);
    var own := OwnItems(h, p, hash, n, done[0]);
    OwnOfOneLine(h, p, hash, n, v);
    hide *;
    CoveredByOne(own, Ranked(h, p, hash(v)), Ranked(h, p, hash(0)));
  }

  lemma OwnOfOneLine(h: nat, p: nat, hash: nat -> nat, n: nat, v: nat)
    requires p <= h && n > 0
    ensures Lines(n, [OneLine(n, v)]) && AllLines(n, [])
    ensures forall i :: 0 <= i < n ==>
      && OwnItems(h, p, hash, n, [OneLine(n, v)])[i] == [Ranked(h, p, hash(v))]
      && Leftovers(h, p, hash, n, [])[i] == Ranked(h, p, hash(0))
  {
    hide Ranked;
    var line := OneLine(n, v);
    assert OnLanes(n, [line][0]);
    forall i | 0 <= i < n
      ensures OwnItems(h, p, hash, n, [line])[i] == [Ranked(h, p, hash(v))]
      ensures Leftovers(h, p, hash, n, [])[i] == Ranked(h, p, hash(0))
    {
      assert OwnVals(i, [line]) == [v];
      assert Leftover(i, []) == 0;
    }
  }

  lemma CoveredByOne(own: seq<seq<KV<nat>>>, x: KV<nat>, zero: KV<nat>)
    requires own != [] && forall i :: 0 <= i < |own| ==> own[i] == [x]
    ensures Covered(AllItems(own), zero) <==> x.key == zero.key && zero.val <= x.val
  {
    AllItemsOf(own);
    assert x in own[0];
    assert forall y :: y in AllItems(own) ==> y == x;
  }

  /** Where the run stands: the line waits, or has been dealt. */
  ghost predicate OnTheWay(s: Sketch, w: Line)
    reads s.divider
  {
    || (s.divider.src == [w] && s.divider.done == [] && s.divider.cur == [])
    || (s.divider.src == [] && s.divider.done == [[w]] && s.divider.cur == [])
  }

  /** A pipeline that has just been built, with FIFOs of any positive depths, gets the line and runs until nothing can
      move: one result, and it is wrong unless the line covers the value 0. */
  method RunOneLine(h: nat, p: nat, n: nat, hash: nat -> nat, v: nat, depths: Depths)
    returns (s: Sketch, ghost m: Metrics)
    requires p <= h && n > 0 && Hashes(h, hash) && depths.Positive()
    ensures s.Valid() && s.Quiet() && s.divider.done == [[OneLine(n, v)]] && s.folder.results == [m]
    ensures Lines(n, [OneLine(n, v)])
    ensures var own := OwnItems(h, p, hash, n, [OneLine(n, v)]);
      && InRanks(Frac(h, p), BucketRanks(Pow2(p), own))
      && (m == MetricsOf(h, p, BucketRanks(Pow2(p), own)) <==>
            var x, zero := Ranked(h, p, hash(v)), Ranked(h, p, hash(0));
            x.key == zero.key && zero.val <= x.val)
  {
    hide Sketch.Valid, Lanes.Room, WorkOf, Pow2, Hashes, BoundedSketch.Stuck, Sketch.Quiet, Reported;
    hide Sketch.Machines, OwnItems, BucketRanks, MetricsOf, Ranked, InRanks, LanesOf, Lines, AllLines, AllLanes;
    s := new Sketch(h, p, n, hash);
    var b := new BoundedSketch(s, depths);
    var w := OneLine(n, v);
    s.Send(w);
    Begins(b);
    var moved := true;
    while moved
      invariant s.Valid() && b.Room() && OnTheWay(s, w)
      invariant LanesOf(s).Sized(s.n) && |s.divider.buf| == s.n == |s.collectors|
      invariant !moved ==> b.Stuck()
      decreases if moved then 1 + b.Work() else 0
    {
      moved := b.Move();
    }
    NeverStuck(b);
    QuietSource(s);
    s.Results();
    m := s.folder.results[0];
    OneLineIff(h, p, hash, n, v, m);
  }

  /** Empty FIFOs have room. */
  lemma Begins(b: BoundedSketch)
    requires b.s.Valid() && b.s.divider.dst == seq(b.s.n, i => []) && b.s.ranked == seq(b.s.n, i => [])
    requires b.s.folder.dsti == seq(b.s.n, i => [])
    ensures b.Room() && LanesOf(b.s).Sized(b.s.n) && |b.s.divider.buf| == b.s.n == |b.s.collectors|
  {
    SizedNow(b.s);
    hide Sketch.Valid;
  }

  lemma QuietSource(s: Sketch)
    requires s.Valid() && s.Quiet()
    ensures s.divider.src == []
  {
  }
}
