/** divide_data and the stages of HllSketch.hpp joined by their FIFOs: the divider, a rank stage and a
    collector for each lane, and fold.  Any stage may take the next step, any output may be blocked,
    and any memory port may lag. */
module HllPipeline {
  import opened Arith
  import opened Options
  import opened Flits
  import opened Collectors
  import opened HllSketch
  import opened DivideData
  import opened HllHistory

  // ----- What the histories of the lanes amount to -----

  /** The metrics of batch `b`: those of the bucket ranks over the items of all lanes. */
  ghost predicate Reported(h: nat, p: nat, lanes: seq<seq<seq<KV<nat>>>>, b: nat, m: Metrics)
    requires p <= h && forall i :: 0 <= i < |lanes| ==> b < |lanes[i]|
  {
    var ranks := BucketRanks(Pow2(p), At(lanes, b));
    InRanks(Frac(h, p), ranks) && m == MetricsOf(h, p, ranks)
  }

  /** Lanes that have delivered the beginnings of their dumps, read row by row by fold: the metrics
      reported are those of the first batches, in order, and of all of them once every row is read. */
  lemma ResultsOfRows(h: nat, p: nat, lanes: seq<seq<seq<KV<nat>>>>, count: nat,
                      ranks: seq<nat>, results: seq<Metrics>, rows: seq<seq<Flit<nat>>>)
    requires p <= h && |lanes| > 0 && forall i :: 0 <= i < |lanes| ==> |lanes[i]| == count
    requires FoldInv(h, p, ranks, results, Split(Merged(rows)))
    requires forall j :: 0 <= j < |rows| ==> |rows[j]| == |lanes|
    requires forall i :: 0 <= i < |lanes| ==> Column(rows, i) <= Dumps(MAX, 0, Pow2(p), lanes[i])
    ensures |results| <= count && (|rows| == count * Pow2(p) ==> |results| == count)
    ensures forall b :: 0 <= b < |results| ==> Reported(h, p, lanes, b, results[b])
  {
    hide Split, Merged, Dumps, AllRanks, MetricsOf, BucketRanks, Column, Pow2;
    FoldedPrefix(Pow2(p), lanes, count, rows);
    forall b | 0 <= b < |results| ensures Reported(h, p, lanes, b, results[b]) {
      AllRanksAt(Pow2(p), lanes, count, b);
    }
  }

  lemma RankNext(h: nat, p: nat, hash: nat -> nat, read: seq<Flit<nat>>, x: Flit<nat>,
                 taken: seq<Flit<KV<nat>>>, ranked: seq<Flit<KV<nat>>>)
    requires p <= h && RankStage(h, p, hash, read) == taken + ranked
    ensures RankStage(h, p, hash, read + [x]) == taken + (ranked + [Flit(x.last, Ranked(h, p, hash(x.val)))])
  {
    hide Ranked;
    RankSnoc(h, p, hash, read, x);
  }

  lemma HeadInRange(h: nat, p: nat, hash: nat -> nat, read: seq<Flit<nat>>,
                    taken: seq<Flit<KV<nat>>>, ranked: seq<Flit<KV<nat>>>)
    requires p <= h && Hashes(h, hash) && RankStage(h, p, hash, read) == taken + ranked && ranked != []
    ensures ranked[0].val.key < Pow2(p)
  {
    hide Ranked, Pow2, Hashes;
    assert ranked[0] == RankStage(h, p, hash, read)[|taken|];
    RanksInRange(h, p, hash, read[|taken|].val);
  }

  /** What a lane has read, ranked, collected and delivered fits together. */
  ghost predicate Lane(h: nat, p: nat, hash: nat -> nat, c: Collector<nat>,
                       read: seq<Flit<nat>>, waiting: seq<Flit<KV<nat>>>, fed: seq<Flit<nat>>)
    requires p <= h
    reads c, c.mem
  {
    c.Valid() && RankStage(h, p, hash, read) == c.taken + waiting && c.sent == fed
  }

  /** The rank stage takes the next item and puts it in front of the collector. */
  lemma LaneRanks(h: nat, p: nat, hash: nat -> nat, c: Collector<nat>, read: seq<Flit<nat>>, x: Flit<nat>,
                  waiting: seq<Flit<KV<nat>>>, fed: seq<Flit<nat>>)
    requires p <= h && Lane(h, p, hash, c, read, waiting, fed)
    ensures Lane(h, p, hash, c, read + [x], waiting + [Flit(x.last, Ranked(h, p, hash(x.val)))], fed)
  {
    hide Ranked, Collector.Valid, RankStage;
    RankNext(h, p, hash, read, x, c.taken, waiting);
  }

  lemma NoneLate<T>(s: seq<T>)
    ensures s == s + []
  {
  }

  lemma SameRead<T>(s: seq<T>, i: nat)
    requires i < |s|
    ensures s[i := s[i]] == s
  {
  }

  lemma DividerDone(d: Divider, i: nat)
    requires d.Valid() && i < d.n
    ensures AllLines(d.n, d.done) && d.read[i] <= d.sent[i]
    ensures Split(d.sent[i]).done <= LaneBatches(d.n, i, d.done)
    ensures !d.flush ==> Split(d.sent[i]).done == LaneBatches(d.n, i, d.done)
    ensures d.dst[i] == [] ==> d.read[i] == d.sent[i]
  {
    hide LaneInv;
    LaneDone(d.n, i, d.flush, d.buf[i], d.done, d.cur, d.sent[i]);
  }

  /** Every value a collector has sent is a rank. */
  lemma OutInRange(h: nat, p: nat, hash: nat -> nat, n: nat, done: seq<seq<Line>>, i: nat,
                   sent: seq<Flit<nat>>, read: seq<Flit<nat>>, ranked: seq<Flit<KV<nat>>>, c: Collector<nat>)
    requires p <= h && i < n && AllLines(n, done) && Hashes(h, hash) && Split(sent).done <= LaneBatches(n, i, done)
    requires read <= sent && Lane(h, p, hash, c, read, ranked, c.sent)
    requires c.f == MAX && c.zero == 0 && c.mem.Length == Pow2(p)
    ensures FlitsInRange(Frac(h, p), c.sent)
  {
    LaneDelivers(h, p, hash, n, done, i, sent, read, ranked, c);
    LaneInRange(h, p, hash, n, done, i);
    hide *;
    BeginningInRange(Frac(h, p), c.sent, Dumps(MAX, 0, Pow2(p), LaneItems(h, p, hash, n, done, i)));
  }

  lemma BeginningInRange(frac: nat, a: seq<Flit<nat>>, b: seq<Flit<nat>>)
    requires a <= b && FlitsInRange(frac, b)
    ensures FlitsInRange(frac, a)
  {
  }

  /** What lane `i` has delivered is the beginning of the dumps of its finished batches. */
  lemma LaneDelivers(h: nat, p: nat, hash: nat -> nat, n: nat, done: seq<seq<Line>>, i: nat,
                     sent: seq<Flit<nat>>, read: seq<Flit<nat>>, ranked: seq<Flit<KV<nat>>>, c: Collector<nat>)
    requires p <= h && i < n && AllLines(n, done) && Split(sent).done <= LaneBatches(n, i, done)
    requires read <= sent && Lane(h, p, hash, c, read, ranked, c.sent)
    requires c.f == MAX && c.zero == 0 && c.mem.Length == Pow2(p)
    ensures c.sent <= Dumps(MAX, 0, Pow2(p), LaneItems(h, p, hash, n, done, i))
    ensures Split(sent).done == LaneBatches(n, i, done) && read == sent && ranked == []
            && c.state == FEED && c.y == None ==>
      c.sent == Dumps(MAX, 0, Pow2(p), LaneItems(h, p, hash, n, done, i))
  {
    assert c.Valid() && |c.Buckets()| == c.mem.Length && c.sent <= c.Emitted()
      && (c.y == None ==> c.sent == c.Emitted());
    assert Agrees(MAX, 0, c.state, c.dumpPtr, c.Buckets(), Split(c.taken), c.Emitted());
    hide *;
    LaneFeeds(h, p, hash, n, done, i, sent, read, ranked, c.taken, c.state, c.dumpPtr, c.Buckets(), c.Emitted());
  }

  lemma LastInRange(frac: nat, s: seq<Flit<nat>>)
    requires FlitsInRange(frac, s) && s != []
    ensures s[|s| - 1].val <= frac
  {
  }

  function AsSeq<T>(o: Option<T>): seq<T> {
    if o.Some? then [o.value] else []
  }

  /** What a collector leaves in its input FIFO. */
  function Rest<T>(st: State, waiting: seq<T>): seq<T> {
    if st == FEED && waiting != [] then waiting[1..] else waiting
  }

  /** The item it reads is the last one of a batch. */
  predicate EndsBatch<T>(st: State, waiting: seq<Flit<T>>) {
    st == FEED && waiting != [] && waiting[0].last
  }

  /** One call of a collector on its FIFOs. */
  method CollectLane(h: nat, p: nat, hash: nat -> nat, c: Collector<nat>, ghost read: seq<Flit<nat>>,
                     waiting: seq<Flit<KV<nat>>>, ready: bool, miss: nat)
    returns (rest: seq<Flit<KV<nat>>>, out: Option<Flit<nat>>)
    requires p <= h && Hashes(h, hash) && Lane(h, p, hash, c, read, waiting, c.sent) && c.mem.Length == Pow2(p)
    modifies c, c.mem
    ensures Lane(h, p, hash, c, read, rest, c.sent)
    ensures out == (if ready then old(c.y) else None) && c.sent == old(c.sent) + AsSeq(out)
    ensures rest == Rest(old(c.state), waiting)
    ensures c.Registers() == ControlNext(c.mem.Length, old(c.Registers()), EndsBatch(old(c.state), waiting), ready)
  {
    hide RankStage, Hashes, Pow2, Collector.Valid;
    ghost var taken := c.taken;
    var x := None;
    rest := waiting;
    if c.state == FEED && waiting != [] {
      HeadInRange(h, p, hash, read, taken, waiting);
      x, rest := Some(waiting[0]), waiting[1..];
    }
    out := c.Collect(x, ready, miss);
    assert taken + waiting == c.taken + rest;
  }

  // ----- The pipeline -----

  /** Fresh collectors that share nothing. */
  method NewCollectors(n: nat, size: nat) returns (cs: seq<Collector<nat>>)
    requires size > 0
    ensures |cs| == n && forall i :: 0 <= i < n ==> fresh(cs[i]) && fresh(cs[i].mem) && cs[i].Valid()
    ensures forall i :: 0 <= i < n ==>
      cs[i].taken == [] && cs[i].sent == [] && cs[i].f == MAX && cs[i].zero == 0 && cs[i].mem.Length == size
    ensures forall i, j :: 0 <= i < j < n ==> cs[i] != cs[j] && cs[i].mem != cs[j].mem
  {
    hide Collector.Valid;
    cs := [];
    for k := 0 to n
      invariant |cs| == k && forall i :: 0 <= i < k ==> fresh(cs[i]) && fresh(cs[i].mem) && cs[i].Valid()
      invariant forall i :: 0 <= i < k ==>
        cs[i].taken == [] && cs[i].sent == [] && cs[i].f == MAX && cs[i].zero == 0 && cs[i].mem.Length == size
      invariant forall i, j :: 0 <= i < j < k ==> cs[i] != cs[j] && cs[i].mem != cs[j].mem
    {
      var c := new Collector<nat>(MAX, 0, size);
      cs := cs + [c];
    }
  }

  class Sketch {
    const h: nat
    const p: nat
    const n: nat
    const hash: nat -> nat
    const divider: Divider
    const collectors: seq<Collector<nat>>
    const folder: Folder
    /** The FIFOs between the rank stages and the collectors. */
    var ranked: seq<seq<Flit<KV<nat>>>>

    /** No two machines are the same object. */
    ghost predicate Apart() {
      && (forall i :: 0 <= i < |collectors| ==> Outside(collectors[i]))
      && (forall i, j :: 0 <= i < |collectors| && 0 <= j < |collectors| ==>
            collectors[i] as object != collectors[j].mem)
      && (forall i, j :: 0 <= i < j < |collectors| ==>
            collectors[i] != collectors[j] && collectors[i].mem != collectors[j].mem)
    }

    /** Everything that the stages may change. */
    ghost function Machines(): set<object> {
      {this, divider, folder, folder.estimator} + (set c | c in collectors :: c as object)
      + set c | c in collectors :: c.mem as object
    }

    lemma AreMachines(i: nat)
      requires i < |collectors|
      ensures collectors[i] in Machines() && collectors[i].mem in Machines()
      ensures {this as object, divider, folder, folder.estimator} <= Machines()
    {
      assert collectors[i] in collectors;
    }

    ghost predicate Outside(c: Collector<nat>) {
      && c as object != divider && c as object != folder && c as object != folder.estimator && c as object != this
      && c.mem as object != divider && c.mem as object != folder && c.mem as object != folder.estimator
      && c.mem as object != this
    }

    ghost predicate Wiring() {
      && p <= h && n > 0 && Hashes(h, hash) && divider.n == n == |collectors|
      && folder.estimator.h == h && folder.estimator.p == p
      && forall i :: 0 <= i < n ==>
           collectors[i].f == MAX && collectors[i].zero == 0 && collectors[i].mem.Length == Pow2(p)
    }

    ghost predicate Valid()
      reads this, divider, folder, folder.estimator, collectors, set c | c in collectors :: c.mem
    {
      && Wiring() && Apart() && divider.Valid() && folder.Valid() && |ranked| == |folder.dsti| == |folder.fed| == n
      && forall i :: 0 <= i < n ==> Lane(h, p, hash, collectors[i], divider.read[i], ranked[i], folder.fed[i])
    }

    constructor (h: nat, p: nat, n: nat, hash: nat -> nat)
      requires p <= h && n > 0 && Hashes(h, hash)
      ensures Valid() && this.h == h && this.p == p && this.n == n && this.hash == hash
      ensures divider.done == [] && divider.cur == [] && divider.src == [] && !divider.flush && folder.results == []
      ensures divider.dst == seq(n, i => []) && ranked == seq(n, i => []) && folder.dsti == seq(n, i => [])
      ensures fresh(divider) && fresh(Machines()) && forall o :: o in Machines() ==> allocated(o)
    {
      hide Collector.Valid, Divider.Valid, Folder.Valid, HllEstimator.Valid, Lane, Hashes, Pow2, Valid;
      this.h, this.p, this.n, this.hash := h, p, n, hash;
      divider := new Divider(n);
      var estimator := new HllEstimator(h, p);
      folder := new Folder(estimator, n);
      var cs := NewCollectors(n, Pow2(p));
      collectors := cs;
      ranked := seq(n, i => []);
      new;
      Start();
    }

    lemma Start()
      requires Wiring() && Apart() && divider.Valid() && folder.Valid()
      requires divider.read == seq(n, i => []) && ranked == seq(n, i => [])
      requires folder.dsti == seq(n, i => []) == folder.fed
      requires forall i :: 0 <= i < n ==> collectors[i].Valid() && collectors[i].taken == [] && collectors[i].sent == []
      ensures Valid()
    {
      hide Collector.Valid, Divider.Valid, Folder.Valid, Hashes, Pow2;
    }

    /** A line enters the divider. */
    method Send(w: Line)
      requires Valid() && OnLanes(n, w)
      modifies divider`src
      ensures Valid() && divider.src == old(divider.src) + [w]
    {
      assert divider.n == n;
      hide Lane, Wiring, Divider.Valid, Folder.Valid;
      divider.Give(w);
    }

    /** The divider takes one step. */
    method StepDivider()
      requires Valid()
      modifies divider
      ensures Valid()
      ensures !old(divider.flush) && old(divider.src) == [] ==>
        divider.src == [] && divider.done == old(divider.done) && divider.cur == old(divider.cur)
      ensures !old(divider.flush) && old(divider.src) != [] ==>
        var w := old(divider.src)[0];
        && divider.src == old(divider.src)[1..] && divider.flush == w.last
        && divider.done == (if w.last then old(divider.done) + [old(divider.cur) + [w]] else old(divider.done))
        && divider.cur == (if w.last then [] else old(divider.cur) + [w])
      ensures old(divider.flush) ==>
        && !divider.flush && divider.src == old(divider.src)
        && divider.done == old(divider.done) && divider.cur == old(divider.cur)
      ensures divider.read == old(divider.read) && |divider.dst| == n == |old(divider.buf)| == |old(divider.dst)|
      ensures old(divider.flush) ==> forall k :: 0 <= k < n ==>
        |divider.dst[k]| == |old(divider.dst)[k]| + if old(divider.buf)[k].keep then 1 else 0
      ensures !old(divider.flush) && old(divider.src) == [] ==> !divider.flush && divider.dst == old(divider.dst)
      ensures !old(divider.flush) && old(divider.src) != [] ==>
        forall k :: 0 <= k < n ==> |divider.dst[k]| == |old(divider.dst)[k]| + 1
    {
      assert divider.n == n;
      hide Lane, Wiring, Divider.Valid, Folder.Valid;
      divider.Step();
    }

    /** The rank stage of lane `i` passes on one item, if there is one. */
    method StepRank(i: nat)
      requires Valid() && i < n
      modifies divider`dst, divider`read, this`ranked
      ensures Valid()
      ensures |divider.dst| == |ranked| == n
      ensures old(divider.dst)[i] == [] ==> divider.dst == old(divider.dst) && ranked == old(ranked)
      ensures old(divider.dst)[i] != [] ==>
        && divider.dst == old(divider.dst)[i := old(divider.dst)[i][1..]]
        && |ranked[i]| == |old(ranked)[i]| + 1 && forall j :: 0 <= j < n && j != i ==> ranked[j] == old(ranked)[j]
    {
      hide *;
      Opened(i);
      LaneShape(i);
      if divider.dst[i] != [] {
        ghost var allRead, read := divider.read, divider.read[i];
        var x := divider.Take(i);
        var y := Flit(x.last, Ranked(h, p, hash(x.val)));
        LaneRanks(h, p, hash, collectors[i], read, x, ranked[i], collectors[i].sent);
        OthersIgnore(i, allRead, ranked, folder.fed, divider.read[i], ranked[i] + [y]);
        ranked := ranked[i := ranked[i] + [y]];
        NoneLate(collectors[i].sent);
        Rejoin(i, []);
        Closed(i);
      }
    }

    ghost function OtherObjects(i: nat): set<object> {
      (set j | 0 <= j < |collectors| && j != i :: collectors[j] as object)
      + set j | 0 <= j < |collectors| && j != i :: collectors[j].mem as object
    }

    ghost predicate Sizes(read: seq<seq<Flit<nat>>>, waiting: seq<seq<Flit<KV<nat>>>>, fed: seq<seq<Flit<nat>>>) {
      |read| == |waiting| == |fed| == |collectors| == n
    }

    /** The lanes besides lane `i`. */
    ghost predicate Others(i: nat, read: seq<seq<Flit<nat>>>, waiting: seq<seq<Flit<KV<nat>>>>,
                           fed: seq<seq<Flit<nat>>>)
      requires Sizes(read, waiting, fed) && p <= h
      reads OtherObjects(i)
    {
      forall j :: 0 <= j < n && j != i ==> Lane(h, p, hash, collectors[j], read[j], waiting[j], fed[j])
    }

    /** All but what lane `i` has delivered last. */
    ghost predicate ValidBut(i: nat, late: seq<Flit<nat>>)
      reads this, divider, folder, folder.estimator, collectors, set c | c in collectors :: c.mem
    {
      && Wiring() && Apart() && divider.Valid() && folder.Valid() && |ranked| == |folder.dsti| == n && i < n
      && Sizes(divider.read, ranked, folder.fed) && Others(i, divider.read, ranked, folder.fed)
      && Lane(h, p, hash, collectors[i], divider.read[i], ranked[i], folder.fed[i] + late)
    }

    lemma Opened(i: nat)
      requires Valid() && i < n
      ensures Wiring() && Apart() && divider.Valid() && folder.Valid() && |ranked| == |folder.dsti| == n
        && i < |collectors| == n
      ensures |divider.read| == |folder.fed| == n && p <= h
      ensures Sizes(divider.read, ranked, folder.fed) && Others(i, divider.read, ranked, folder.fed)
      ensures Lane(h, p, hash, collectors[i], divider.read[i], ranked[i], collectors[i].sent)
      ensures collectors[i].sent == folder.fed[i] && collectors[i].mem.Length == Pow2(p) && Hashes(h, hash)
      ensures collectors[i] as object !in OtherObjects(i) && collectors[i].mem as object !in OtherObjects(i)
      ensures Outside(collectors[i]) && this as object !in OtherObjects(i) && divider as object !in OtherObjects(i)
      ensures (forall o :: o in OtherObjects(i) ==> allocated(o))
      ensures collectors[i] as object != divider && collectors[i] as object != folder
        && collectors[i] as object != folder.estimator
      ensures collectors[i].mem as object != divider && collectors[i].mem as object != folder
      ensures collectors[i].mem as object != folder.estimator && collectors[i] as object != this
        && collectors[i].mem as object != this
    {
      NotOther(i);
      hide Lane, Divider.Valid, Folder.Valid, Hashes, Pow2;
    }

    lemma Closed(i: nat)
      requires ValidBut(i, [])
      ensures Valid()
    {
      assert folder.fed[i] + [] == folder.fed[i];
    }

    lemma OthersIgnore(i: nat, read: seq<seq<Flit<nat>>>, waiting: seq<seq<Flit<KV<nat>>>>, fed: seq<seq<Flit<nat>>>,
                       more: seq<Flit<nat>>, rest: seq<Flit<KV<nat>>>)
      requires Sizes(read, waiting, fed) && p <= h && Others(i, read, waiting, fed) && i < n
      ensures Sizes(read[i := more], waiting[i := rest], fed)
      ensures Others(i, read[i := more], waiting[i := rest], fed)
    {
    }

    /** The collector of lane `i` takes one call; `ready` tells whether its output FIFO takes a value,
        and `miss` how many writes its memory port does not show. */
    method CollectAt(i: nat, ready: bool, miss: nat) returns (out: Option<Flit<nat>>)
      requires Valid() && i < n
      modifies collectors[i], collectors[i].mem, this`ranked
      ensures ValidBut(i, AsSeq(out)) && out == if ready then old(collectors[i].y) else None
      ensures ranked == old(ranked)[i := Rest(old(collectors[i].state), old(ranked)[i])]
      ensures collectors[i].Registers() == ControlNext(collectors[i].mem.Length, old(collectors[i].Registers()),
                                                       EndsBatch(old(collectors[i].state), old(ranked)[i]), ready)
    {
      hide *;
      Opened(i);
      var c := collectors[i];
      var rest;
      rest, out := CollectLane(h, p, hash, c, divider.read[i], ranked[i], ready, miss);
      OthersIgnore(i, divider.read, ranked, folder.fed, divider.read[i], rest);
      SameRead(divider.read, i);
      ranked := ranked[i := rest];
      Rejoin(i, AsSeq(out));
    }

    lemma Rejoin(i: nat, late: seq<Flit<nat>>)
      requires Wiring() && Apart() && divider.Valid() && folder.Valid() && |ranked| == |folder.dsti| == n && i < n
      requires Sizes(divider.read, ranked, folder.fed) && Others(i, divider.read, ranked, folder.fed)
      requires Lane(h, p, hash, collectors[i], divider.read[i], ranked[i], collectors[i].sent)
      requires collectors[i].sent == folder.fed[i] + late
      ensures ValidBut(i, late)
    {
    }

    method StepCollect(i: nat, ready: bool, miss: nat)
      requires Valid() && i < n
      modifies collectors[i], collectors[i].mem, this`ranked, folder`dsti, folder`fed
      ensures Valid()
      ensures ranked == old(ranked)[i := Rest(old(collectors[i].state), old(ranked)[i])]
      ensures |folder.dsti| == |old(folder.dsti)|
      ensures if ready && old(collectors[i].y).Some?
              then folder.dsti == old(folder.dsti)[i := old(folder.dsti)[i] + [old(collectors[i].y).value]]
              else folder.dsti == old(folder.dsti)
      ensures collectors[i].Registers() == ControlNext(collectors[i].mem.Length, old(collectors[i].Registers()),
                                                       EndsBatch(old(collectors[i].state), old(ranked)[i]), ready)
    {
      var out := CollectAt(i, ready, miss);
      hide Lane, Wiring, Apart, Divider.Valid, Folder.Valid;
      if out.Some? {
        Deliver(i, out.value);
      }
      Closed(i);
    }

    /** What lane `i` has delivered reaches its FIFO. */
    method Deliver(i: nat, x: Flit<nat>)
      requires ValidBut(i, [x])
      modifies folder`dsti, folder`fed
      ensures ValidBut(i, []) && folder.dsti == old(folder.dsti)[i := old(folder.dsti)[i] + [x]]
    {
      hide *;
      Delivered(i, x);
      ButParts(i, [x]);
      ghost var fed := folder.fed;
      folder.Feed(i, x);
      MakeBut(i, x, fed);
    }

    lemma ButParts(i: nat, late: seq<Flit<nat>>)
      requires ValidBut(i, late)
      ensures Wiring() && Apart() && divider.Valid() && folder.Valid() && |ranked| == |folder.dsti| == n && i < n
      ensures Sizes(divider.read, ranked, folder.fed) && Others(i, divider.read, ranked, folder.fed) && p <= h
      ensures |divider.read| == |folder.fed| == |collectors| == n
      ensures Lane(h, p, hash, collectors[i], divider.read[i], ranked[i], folder.fed[i] + late)
      ensures folder.estimator.h == h && folder.estimator.p == p
      ensures collectors[i] as object != folder && collectors[i].mem as object != folder
      ensures folder as object !in OtherObjects(i)
      ensures forall o :: o in OtherObjects(i) ==> allocated(o)
    {
      NotOther(i);
    }

    lemma MakeBut(i: nat, x: Flit<nat>, fed: seq<seq<Flit<nat>>>)
      requires Wiring() && Apart() && divider.Valid() && folder.Valid() && |ranked| == |folder.dsti| == n && i < n
      requires p <= h && |divider.read| == |folder.fed| == |collectors| == n
      requires Sizes(divider.read, ranked, fed) && Others(i, divider.read, ranked, fed)
      requires folder.fed == fed[i := fed[i] + [x]]
      requires Lane(h, p, hash, collectors[i], divider.read[i], ranked[i], fed[i] + [x])
      ensures ValidBut(i, [])
    {
      assert folder.fed[i] + [] == folder.fed[i];
    }

    lemma Delivered(i: nat, x: Flit<nat>)
      requires ValidBut(i, [x])
      ensures x.val <= Frac(h, p)
    {
      var c := collectors[i];
      assert c.sent == folder.fed[i] + [x];
      DividerDone(divider, i);
      OutInRange(h, p, hash, n, divider.done, i, divider.sent[i], divider.read[i], ranked[i], c);
      LastInRange(Frac(h, p), c.sent);
    }

    /** Nothing else can see the collector of lane `i`, nor can fold see a collector. */
    lemma NotOther(i: nat)
      requires Apart() && i < |collectors|
      ensures collectors[i] as object !in OtherObjects(i) && collectors[i].mem as object !in OtherObjects(i)
      ensures folder as object !in OtherObjects(i) && this as object !in OtherObjects(i)
      ensures divider as object !in OtherObjects(i)
      ensures Outside(collectors[i]) && forall o :: o in OtherObjects(i) ==> allocated(o)
    {
    }

    /** fold takes one call. */
    method StepFold()
      requires Valid()
      modifies folder, folder.estimator
      ensures Valid()
      ensures AllReady(old(folder.dsti)) ==> folder.dsti == Tails(old(folder.dsti))
      ensures !AllReady(old(folder.dsti)) ==> folder.dsti == old(folder.dsti)
    {
      assert folder.estimator.h == h && folder.estimator.p == p;
      hide Lane, Divider.Valid, Folder.Valid;
      folder.Fold();
    }

    /** Lane `i` at any moment. */
    lemma LaneSoFar(i: nat)
      requires Valid() && i < n
      ensures AllLines(n, divider.done) && p <= h && |folder.fed| == n
      ensures folder.fed[i] <= Dumps(MAX, 0, Pow2(p), LaneItems(h, p, hash, n, divider.done, i))
      ensures !divider.flush && divider.dst[i] == [] && ranked[i] == []
              && collectors[i].state == FEED && collectors[i].y == None ==>
        folder.fed[i] == Dumps(MAX, 0, Pow2(p), LaneItems(h, p, hash, n, divider.done, i))
    {
      hide *;
      Opened(i);
      LaneShape(i);
      DividerDone(divider, i);
      LaneDelivers(h, p, hash, n, divider.done, i, divider.sent[i], divider.read[i], ranked[i], collectors[i]);
    }

    lemma LaneShape(i: nat)
      requires Valid() && i < n
      ensures divider.n == n == |divider.sent| == |divider.dst| && collectors[i].f == MAX && collectors[i].zero == 0
    {
    }

    lemma Shape()
      requires Valid()
      ensures n > 0 && p <= h && AllLines(n, divider.done) && |folder.dsti| == |folder.fed| == n
      ensures Fed(folder.rows, folder.dsti, folder.fed)
      ensures FoldInv(h, p, folder.estimator.ranks, folder.results, Split(Merged(folder.rows)))
    {
    }

    /** In every reachable state the metrics reported are those of the first batches, in order: of the
        maximum ranks over all items that any lane emitted in the batch. */
    lemma Results()
      requires Valid()
      ensures p <= h && AllLines(n, divider.done) && |folder.results| <= |divider.done|
      ensures forall b :: 0 <= b < |folder.results| ==>
        Reported(h, p, AllLanes(h, p, hash, n, divider.done), b, folder.results[b])
    {
      hide *;
      Shape();
      var count, lanes := |divider.done|, AllLanes(h, p, hash, n, divider.done);
      LanesAre(h, p, hash, n, divider.done);
      FedColumns(folder.rows, folder.dsti, folder.fed);
      forall i | 0 <= i < n ensures Column(folder.rows, i) <= Dumps(MAX, 0, Pow2(p), lanes[i]) {
        LaneSoFar(i);
      }
      ResultsOfRows(h, p, lanes, count, folder.estimator.ranks, folder.results, folder.rows);
    }

    /** No stage has anything to do. */
    ghost predicate Quiet()
      requires Valid()
      reads this, divider, folder, folder.estimator, collectors, set c | c in collectors :: c.mem
    {
      && divider.src == [] && !divider.flush && !AllReady(folder.dsti)
      && forall i :: 0 <= i < n ==>
           divider.dst[i] == [] && ranked[i] == [] && collectors[i].state == FEED && collectors[i].y == None
    }

    lemma QuietParts()
      requires Valid() && Quiet()
      ensures |divider.dst| == |ranked| == |collectors| == n
      ensures !divider.flush && exists i :: 0 <= i < |folder.dsti| && folder.dsti[i] == []
      ensures forall i :: 0 <= i < n ==>
        divider.dst[i] == [] && ranked[i] == [] && collectors[i].state == FEED && collectors[i].y == None
    {
      hide Lane, Divider.Valid, Folder.Valid;
      assert divider.n == n;
      DivideSize();
    }

    lemma DivideSize()
      requires divider.Valid()
      ensures |divider.dst| == divider.n
    {
    }

    /** Then every finished batch has been reported. */
    lemma AllReported()
      requires Valid() && Quiet()
      ensures |folder.results| == |divider.done|
    {
      hide *;
      QuietParts();
      Shape();
      var count, lanes := |divider.done|, AllLanes(h, p, hash, n, divider.done);
      LanesAre(h, p, hash, n, divider.done);
      FedColumns(folder.rows, folder.dsti, folder.fed);
      forall i | 0 <= i < n
        ensures Column(folder.rows, i) <= Dumps(MAX, 0, Pow2(p), lanes[i])
        ensures folder.fed[i] == Dumps(MAX, 0, Pow2(p), lanes[i])
      {
        LaneSoFar(i);
      }
      var i :| 0 <= i < |folder.dsti| && folder.dsti[i] == [];
      DumpsSize(Pow2(p), lanes[i]);
      AllRead(folder.rows, folder.dsti, folder.fed, i);
      ResultsOfRows(h, p, lanes, count, folder.estimator.ranks, folder.results, folder.rows);
    }
  }

  lemma LanesAre(h: nat, p: nat, hash: nat -> nat, n: nat, done: seq<seq<Line>>)
    requires p <= h && AllLines(n, done)
    ensures var lanes := AllLanes(h, p, hash, n, done);
      |lanes| == n && forall i :: 0 <= i < n ==> |lanes[i]| == |done| && lanes[i] == LaneItems(h, p, hash, n, done, i)
  {
  }

  lemma FedColumns(rows: seq<seq<Flit<nat>>>, waiting: seq<seq<Flit<nat>>>, fed: seq<seq<Flit<nat>>>)
    requires Fed(rows, waiting, fed)
    ensures |fed| == |waiting| && forall j :: 0 <= j < |rows| ==> |rows[j]| == |fed|
    ensures forall i :: 0 <= i < |fed| ==> Column(rows, i) <= fed[i]
  {
  }

  lemma AllRead(rows: seq<seq<Flit<nat>>>, waiting: seq<seq<Flit<nat>>>, fed: seq<seq<Flit<nat>>>, i: nat)
    requires Fed(rows, waiting, fed) && i < |waiting| && waiting[i] == []
    ensures i < |fed| && |rows| == |fed[i]|
  {
  }

  /** What a report amounts to: `zeros` counts the buckets no item of the batch fell into, and `accu` is
      the exact sum of 2^-rank over the buckets' maximum ranks, 0 when there was no item at all. */
  lemma ReportRanks(h: nat, p: nat, hash: nat -> nat, n: nat, done: seq<seq<Line>>, b: nat, m: Metrics)
    requires p <= h && Hashes(h, hash) && AllLines(n, done) && b < |done|
    requires Reported(h, p, AllLanes(h, p, hash, n, done), b, m)
    ensures var items := AllItems(At(AllLanes(h, p, hash, n, done), b));
      var ranks := BucketRanks(Pow2(p), At(AllLanes(h, p, hash, n, done), b));
      && (forall k :: 0 <= k < Pow2(p) ==> IsMaxRank(ranks[k], items, k))
      && (forall k :: 0 <= k < Pow2(p) ==> (ranks[k] == 0 <==> forall x :: x in items ==> x.key != k))
      && InRanks(Frac(h, p), ranks) && m.zeros == CountZeros(ranks)
      && m.accu == if CountZeros(ranks) == Pow2(p) then 0 else RawSum(Frac(h, p), ranks)
  {
    var lanes := At(AllLanes(h, p, hash, n, done), b);
    AllItemsOf(lanes);
    forall x | x in AllItems(lanes) ensures 1 <= x.val <= Frac(h, p) {
      var i :| 0 <= i < |lanes| && x in lanes[i];
      var items := LaneBatches(n, i, done)[b];
      var j :| 0 <= j < |items| && x == Ranked(h, p, hash(items[j]));
      RanksInRange(h, p, hash, items[j]);
    }
    BatchMetrics(h, p, lanes);
  }
}
