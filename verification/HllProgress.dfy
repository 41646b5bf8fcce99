/** The pipeline of divide_data and HllSketch.hpp with FIFOs of bounded depth: every step that finds what it
    reads and room for what it writes works off a part of a bounded amount of work, and the pipeline never
    gets stuck before every finished batch is reported. */
module HllProgress {
  import opened Arith
  import opened Options
  import opened Flits
  import opened Collectors
  import opened HllSketch
  import opened DivideData
  import opened HllHistory
  import opened HllPipeline

  // ----- Work of one lane -----

  /** The most work one item can make for a collector, the dump of its batch included. */
  function ItemWork(size: nat): nat {
    3 * size + 3
  }

  function ControlWork(size: nat, c: Control): nat {
    (match c.state
     case FEED => 0
     case SETTLE1 => 3 * size + 2
     case SETTLE2 => 3 * size + 1
     case DUMP => if c.ptr < size then 3 * (size - c.ptr) else 0)
    + if c.pending then 2 else 0
  }

  /** A call finds something to do: it can send its output, take an item, settle, or dump the next bucket. */
  predicate Busy(c: Control, waiting: bool, ready: bool) {
    || (c.pending && ready)
    || (match c.state
        case FEED => waiting
        case DUMP => !c.pending || ready
        case _ => true)
  }

  /** A busy call works off at least one unit, the value it sends and the item it takes included; an idle one
      changes nothing. */
  lemma ControlWorks(size: nat, c: Control, waiting: bool, last: bool, ready: bool)
    requires c.state == DUMP ==> c.ptr < size
    requires last ==> waiting && c.state == FEED
    ensures var c' := ControlNext(size, c, last, ready);
      var took, sent := c.state == FEED && waiting, c.pending && ready;
      if Busy(c, waiting, ready) then
        ControlWork(size, c') + (if sent then 1 else 0) < ControlWork(size, c) + if took then ItemWork(size) else 0
      else c' == c && !took && !sent
  {
  }

  /** What a lane holds. */
  datatype Load = Load(dst: nat, ranked: nat, control: Control, dsti: nat)

  function Times(a: nat, b: nat): nat {
    a * b
  }

  lemma TimesMore(a: nat, b: nat)
    ensures Times(a, b + 1) == Times(a, b) + a && Times(a, 0) == 0
  {
  }

  function LaneWork(size: nat, l: Load): nat {
    Times(ItemWork(size) + 1, l.dst) + Times(ItemWork(size), l.ranked) + ControlWork(size, l.control) + l.dsti
  }

  function Sum(s: seq<nat>): nat {
    if s == [] then 0 else Sum(s[..|s| - 1]) + s[|s| - 1]
  }

  lemma {:induction false} SumUpdate(s: seq<nat>, i: nat, x: nat)
    requires i < |s|
    ensures Sum(s[i := x]) + s[i] == Sum(s) + x
  {
    if i == |s| - 1 {
      assert s[i := x][..i] == s[..i];
    } else {
      assert s[i := x][..|s| - 1] == s[..|s| - 1][i := x];
      SumUpdate(s[..|s| - 1], i, x);
    }
  }

  /** When no number grows by more than d. */
  lemma {:induction false} SumGrows(s: seq<nat>, t: seq<nat>, d: nat)
    requires |s| == |t| && forall i :: 0 <= i < |s| ==> t[i] <= s[i] + d
    ensures Sum(t) <= Sum(s) + Times(d, |s|)
  {
    TimesMore(d, 0);
    if s != [] {
      SumGrows(s[..|s| - 1], t[..|t| - 1], d);
      TimesMore(d, |s| - 1);
    }
  }

  /** When every number shrinks. */
  lemma {:induction false} SumShrinks(s: seq<nat>, t: seq<nat>)
    requires |s| == |t| > 0 && forall i :: 0 <= i < |s| ==> t[i] < s[i]
    ensures Sum(t) < Sum(s)
  {
    if |s| > 1 {
      SumShrinks(s[..|s| - 1], t[..|t| - 1]);
    }
    assert Sum(s[..0]) == Sum(t[..0]) == 0;
  }

  /** What the divider holds: a line is dealt and may make it flush. */
  function DealWork(size: nat, n: nat): nat {
    Times(ItemWork(size) + 1, n)
  }

  function DividerWork(size: nat, n: nat, lines: nat, flush: bool): nat {
    Times(2 * DealWork(size, n) + 2, lines) + if flush then DealWork(size, n) + 1 else 0
  }

  ghost function LanesWork(size: nat, loads: seq<Load>): nat {
    Sum(seq(|loads|, i requires 0 <= i < |loads| => LaneWork(size, loads[i])))
  }

  ghost function SketchWork(size: nat, loads: seq<Load>, lines: nat, flush: bool): nat {
    LanesWork(size, loads) + DividerWork(size, |loads|, lines, flush)
  }

  lemma OneLane(size: nat, a: seq<Load>, b: seq<Load>, i: nat)
    requires |a| == |b| && i < |a| && forall j :: 0 <= j < |a| && j != i ==> b[j] == a[j]
    ensures LanesWork(size, b) + LaneWork(size, a[i]) == LanesWork(size, a) + LaneWork(size, b[i])
  {
    var x := seq(|a|, j requires 0 <= j < |a| => LaneWork(size, a[j]));
    var y := seq(|b|, j requires 0 <= j < |b| => LaneWork(size, b[j]));
    assert y == x[i := y[i]];
    SumUpdate(x, i, y[i]);
  }

  /** The divider deals a line, or flushes. */
  lemma DividerWorks(size: nat, a: seq<Load>, b: seq<Load>, lines: nat, flush: bool, lines': nat, flush': bool)
    requires |a| == |b|
    requires forall i :: 0 <= i < |a| ==> a[i].dst <= b[i].dst <= a[i].dst + 1 && b[i] == a[i].(dst := b[i].dst)
    requires if flush then lines' == lines && !flush' else lines == lines' + 1
    ensures SketchWork(size, b, lines', flush') < SketchWork(size, a, lines, flush)
  {
    var x := seq(|a|, j requires 0 <= j < |a| => LaneWork(size, a[j]));
    var y := seq(|b|, j requires 0 <= j < |b| => LaneWork(size, b[j]));
    hide Times, ItemWork, ControlWork;
    forall i | 0 <= i < |a| ensures y[i] <= x[i] + (ItemWork(size) + 1) {
      TimesMore(ItemWork(size) + 1, a[i].dst);
    }
    SumGrows(x, y, ItemWork(size) + 1);
    TimesMore(2 * DealWork(size, |a|) + 2, lines');
  }

  /** The rank stage of a lane passes an item on. */
  lemma RankWorks(size: nat, l: Load)
    requires l.dst > 0
    ensures LaneWork(size, l.(dst := l.dst - 1, ranked := l.ranked + 1)) < LaneWork(size, l)
  {
    hide Times, ItemWork, ControlWork;
    TimesMore(ItemWork(size) + 1, l.dst - 1);
    TimesMore(ItemWork(size), l.ranked);
  }

  /** The collector of a lane takes a call. */
  lemma CollectWorks(size: nat, l: Load, last: bool, ready: bool)
    requires l.control.state == DUMP ==> l.control.ptr < size
    requires last ==> l.ranked > 0 && l.control.state == FEED
    ensures var c := l.control;
      var l' := Load(l.dst, if c.state == FEED && l.ranked > 0 then l.ranked - 1 else l.ranked,
                     ControlNext(size, c, last, ready), if c.pending && ready then l.dsti + 1 else l.dsti);
      if Busy(c, l.ranked > 0, ready) then LaneWork(size, l') < LaneWork(size, l) else l' == l
  {
    ControlWorks(size, l.control, l.ranked > 0, last, ready);
    hide Times, ItemWork, ControlWork, ControlNext;
    if l.ranked > 0 {
      TimesMore(ItemWork(size), l.ranked - 1);
    }
  }

  /** fold takes a value from every lane. */
  lemma FoldWorks(size: nat, a: seq<Load>, b: seq<Load>)
    requires |a| == |b| > 0
    requires forall i :: 0 <= i < |a| ==> a[i].dsti > 0 && b[i] == a[i].(dsti := a[i].dsti - 1)
    ensures LanesWork(size, b) < LanesWork(size, a)
  {
    var x := seq(|a|, j requires 0 <= j < |a| => LaneWork(size, a[j]));
    var y := seq(|b|, j requires 0 <= j < |b| => LaneWork(size, b[j]));
    hide Times, ItemWork, ControlWork;
    SumShrinks(x, y);
  }

  // ----- The pipeline with bounded FIFOs -----

  /** How much the FIFOs of a lane hold: behind the divider, behind the rank stage, behind the collector. */
  datatype Depths = Depths(dst: nat, ranked: nat, dsti: nat) {
    predicate Positive() {
      dst > 0 && ranked > 0 && dsti > 0
    }
  }

  /** The FIFOs and control registers of all lanes. */
  datatype Lanes = Lanes(dst: seq<seq<Flit<nat>>>, ranked: seq<seq<Flit<KV<nat>>>>, control: seq<Control>,
                         dsti: seq<seq<Flit<nat>>>) {
    predicate Sized(n: nat) {
      |dst| == |ranked| == |control| == |dsti| == n
    }

    /** No FIFO holds more than its depth. */
    predicate Room(n: nat, d: Depths) {
      Sized(n) && forall i :: 0 <= i < n ==> |dst[i]| <= d.dst && |ranked[i]| <= d.ranked && |dsti[i]| <= d.dsti
    }

    function Loads(n: nat): (l: seq<Load>)
      requires Sized(n)
      ensures |l| == n
      ensures forall i :: 0 <= i < n ==> l[i] == Load(|dst[i]|, |ranked[i]|, control[i], |dsti[i]|)
    {
      seq(n, i requires 0 <= i < n => Load(|dst[i]|, |ranked[i]|, control[i], |dsti[i]|))
    }

    /** The dump pointers stay inside the memories. */
    predicate Inside(size: nat) {
      forall i :: 0 <= i < |control| && control[i].state == DUMP ==> control[i].ptr < size
    }
  }

  ghost function WorkOf(size: nat, n: nat, l: Lanes, lines: nat, flush: bool): nat
    requires l.Sized(n)
  {
    SketchWork(size, l.Loads(n), lines, flush)
  }

  lemma RankStep(size: nat, n: nat, d: Depths, a: Lanes, b: Lanes, i: nat, lines: nat, flush: bool)
    requires a.Room(n, d) && b.Sized(n) && i < n && a.dst[i] != [] && |a.ranked[i]| < d.ranked
    requires b.dst == a.dst[i := a.dst[i][1..]] && |b.ranked[i]| == |a.ranked[i]| + 1
    requires forall j :: 0 <= j < n && j != i ==> b.ranked[j] == a.ranked[j]
    requires b.control == a.control && b.dsti == a.dsti
    ensures b.Room(n, d) && WorkOf(size, n, b, lines, flush) < WorkOf(size, n, a, lines, flush)
  {
    hide LanesWork, LaneWork;
    RankWorks(size, a.Loads(n)[i]);
    OneLane(size, a.Loads(n), b.Loads(n), i);
  }

  lemma CollectStep(size: nat, n: nat, d: Depths, a: Lanes, b: Lanes, i: nat, last: bool, lines: nat, flush: bool)
    requires a.Room(n, d) && a.Inside(size) && b.Sized(n) && i < n && b.dst == a.dst
    requires last ==> a.ranked[i] != [] && a.control[i].state == FEED
    requires b.ranked == a.ranked[i := Rest(a.control[i].state, a.ranked[i])]
    requires var ready := |a.dsti[i]| < d.dsti;
      && b.control == a.control[i := ControlNext(size, a.control[i], last, ready)]
      && |b.dsti[i]| == |a.dsti[i]| + (if a.control[i].pending && ready then 1 else 0)
    requires forall j :: 0 <= j < n && j != i ==> b.dsti[j] == a.dsti[j]
    ensures b.Room(n, d)
    ensures if Busy(a.control[i], a.ranked[i] != [], |a.dsti[i]| < d.dsti)
            then WorkOf(size, n, b, lines, flush) < WorkOf(size, n, a, lines, flush)
            else WorkOf(size, n, b, lines, flush) == WorkOf(size, n, a, lines, flush)
  {
    hide LanesWork, LaneWork, ControlNext, Busy;
    CollectWorks(size, a.Loads(n)[i], last, |a.dsti[i]| < d.dsti);
    OneLane(size, a.Loads(n), b.Loads(n), i);
  }

  lemma DivideStep(size: nat, n: nat, d: Depths, a: Lanes, b: Lanes, lines: nat, flush: bool, lines': nat, flush': bool)
    requires a.Room(n, d) && b.Sized(n) && b.ranked == a.ranked && b.control == a.control && b.dsti == a.dsti
    requires forall i :: 0 <= i < n ==> |a.dst[i]| <= |b.dst[i]| <= |a.dst[i]| + 1
    requires forall i :: 0 <= i < n ==> |b.dst[i]| == |a.dst[i]| || |a.dst[i]| < d.dst
    requires if flush then lines' == lines && !flush' else lines == lines' + 1
    ensures b.Room(n, d) && WorkOf(size, n, b, lines', flush') < WorkOf(size, n, a, lines, flush)
  {
    hide SketchWork;
    DividerWorks(size, a.Loads(n), b.Loads(n), lines, flush, lines', flush');
  }

  lemma FoldStepWorks(size: nat, n: nat, d: Depths, a: Lanes, b: Lanes, lines: nat, flush: bool)
    requires a.Room(n, d) && n > 0 && b.Sized(n) && b.dst == a.dst && b.ranked == a.ranked && b.control == a.control
    requires AllReady(a.dsti) && b.dsti == Tails(a.dsti)
    ensures b.Room(n, d) && WorkOf(size, n, b, lines, flush) < WorkOf(size, n, a, lines, flush)
  {
    hide LanesWork, LaneWork;
    FoldWorks(size, a.Loads(n), b.Loads(n));
  }

  ghost function Controls(s: Sketch): (c: seq<Control>)
    reads s.collectors
    ensures |c| == |s.collectors| && forall i :: 0 <= i < |c| ==> c[i] == s.collectors[i].Registers()
  {
    seq(|s.collectors|, i requires 0 <= i < |s.collectors| reads s.collectors => s.collectors[i].Registers())
  }

  ghost function LanesOf(s: Sketch): Lanes
    reads s, s.divider, s.folder, s.collectors
  {
    Lanes(s.divider.dst, s.ranked, Controls(s), s.folder.dsti)
  }

  lemma SizedNow(s: Sketch)
    requires s.Valid()
    ensures LanesOf(s).Sized(s.n) && LanesOf(s).Inside(Pow2(s.p)) && s.n > 0 && |s.divider.buf| == s.n == |s.collectors|
    ensures s.n == s.divider.n == |s.divider.dst| == |s.ranked| == |s.folder.dsti|
    ensures forall i :: 0 <= i < s.n ==> s.collectors[i].mem.Length == Pow2(s.p)
    ensures forall i, j :: 0 <= i < s.n && 0 <= j < s.n && i != j ==> s.collectors[i] != s.collectors[j]
  {
    forall i | 0 <= i < s.n && s.collectors[i].state == DUMP ensures s.collectors[i].dumpPtr < Pow2(s.p) {
      var c := s.collectors[i];
      assert c.Valid();
      AgreesPtr(c.f, c.zero, c.state, c.dumpPtr, c.Buckets(), Split(c.taken), c.Emitted());
    }
  }

  lemma LanesAre(s: Sketch)
    ensures LanesOf(s) == Lanes(s.divider.dst, s.ranked, Controls(s), s.folder.dsti)
  {
  }

  class BoundedSketch {
    const s: Sketch
    const depths: Depths

    constructor (s: Sketch, depths: Depths)
      ensures this.s == s && this.depths == depths
    {
      this.s, this.depths := s, depths;
    }

    /** No FIFO holds more than its depth. */
    ghost predicate Room()
      reads s, s.divider, s.folder, s.collectors
    {
      LanesOf(s).Room(s.n, depths)
    }

    ghost function Work(): nat
      requires LanesOf(s).Sized(s.n)
      reads s, s.divider, s.folder, s.collectors
    {
      WorkOf(Pow2(s.p), s.n, LanesOf(s), |s.divider.src|, s.divider.flush)
    }

    predicate CanDivide()
      requires |s.divider.dst| == |s.divider.buf| == s.n
      reads s, s.divider
    {
      if s.divider.flush then
        forall i :: 0 <= i < s.n && s.divider.buf[i].keep ==> |s.divider.dst[i]| < depths.dst
      else s.divider.src != [] && forall i :: 0 <= i < s.n ==> |s.divider.dst[i]| < depths.dst
    }

    predicate CanRank(i: nat)
      requires i < |s.divider.dst| && i < |s.ranked|
      reads s, s.divider
    {
      s.divider.dst[i] != [] && |s.ranked[i]| < depths.ranked
    }

    predicate CanCollect(i: nat)
      requires i < |s.collectors| && i < |s.ranked| && i < |s.folder.dsti|
      reads s, s.folder, s.collectors
    {
      Busy(s.collectors[i].Registers(), s.ranked[i] != [], |s.folder.dsti[i]| < depths.dsti)
    }

    method StepDivider() returns (moved: bool)
      requires s.Valid() && Room()
      modifies s.divider
      ensures s.Valid() && Room() && moved == old(CanDivide()) && Dealt()
      ensures if moved then Work() < old(Work()) else Work() == old(Work())
    {
      hide Sketch.Valid, Lanes.Room, SketchWork, Pow2;
      SizedNow(s);
      moved := CanDivide();
      if moved {
        ghost var a, lines, flush := LanesOf(s), |s.divider.src|, s.divider.flush;
        s.StepDivider();
        SizedNow(s);
        DivideStep(Pow2(s.p), s.n, depths, a, LanesOf(s), lines, flush, |s.divider.src|, s.divider.flush);
      }
    }

    /** What the divider has read stays, or grows by the next line. */
    twostate predicate Dealt()
      reads s.divider
    {
      var d := s.divider;
      || (d.src == old(d.src) && d.done == old(d.done) && d.cur == old(d.cur))
      || (old(d.src) != []
          && var w := old(d.src)[0];
             && d.src == old(d.src)[1..]
             && d.done == (if w.last then old(d.done) + [old(d.cur) + [w]] else old(d.done))
             && d.cur == (if w.last then [] else old(d.cur) + [w]))
    }

    method StepRank(i: nat) returns (moved: bool)
      requires s.Valid() && Room() && i < s.n
      modifies s.divider`dst, s.divider`read, s`ranked
      ensures s.Valid() && Room() && moved == old(CanRank(i))
      ensures if moved then Work() < old(Work()) else Work() == old(Work())
    {
      hide Sketch.Valid, Lanes.Room, SketchWork, Pow2;
      SizedNow(s);
      moved := CanRank(i);
      if moved {
        ghost var a := LanesOf(s);
        s.StepRank(i);
        SizedNow(s);
        RankStep(Pow2(s.p), s.n, depths, a, LanesOf(s), i, |s.divider.src|, s.divider.flush);
      }
    }

    /** A call of the collector of lane `i`, whatever its memory port shows; an idle one changes nothing that counts. */
    method StepCollect(i: nat, miss: nat) returns (moved: bool)
      requires s.Valid() && Room() && i < s.n
      modifies s.collectors[i], s.collectors[i].mem, s`ranked, s.folder`dsti, s.folder`fed
      ensures s.Valid() && Room() && moved == old(CanCollect(i))
      ensures if moved then Work() < old(Work()) else Work() == old(Work())
    {
      hide Sketch.Valid, Lanes.Room, SketchWork, Pow2, ControlNext, Rest, Busy;
      SizedNow(s);
      moved := CanCollect(i);
      ghost var a := LanesOf(s);
      ghost var last := EndsBatch(s.collectors[i].state, s.ranked[i]);
      s.StepCollect(i, |s.folder.dsti[i]| < depths.dsti, miss);
      SizedNow(s);
      assert Controls(s) == a.control[i := ControlNext(Pow2(s.p), a.control[i], last, |a.dsti[i]| < depths.dsti)];
      CollectStep(Pow2(s.p), s.n, depths, a, LanesOf(s), i, last, |s.divider.src|, s.divider.flush);
    }

    method StepFold() returns (moved: bool)
      requires s.Valid() && Room()
      modifies s.folder, s.folder.estimator
      ensures s.Valid() && Room() && moved == old(AllReady(s.folder.dsti))
      ensures if moved then Work() < old(Work()) else Work() == old(Work())
    {
      hide Sketch.Valid, Lanes.Room, SketchWork, Pow2;
      SizedNow(s);
      moved := AllReady(s.folder.dsti);
      if moved {
        ghost var a := LanesOf(s);
        s.StepFold();
        SizedNow(s);
        FoldStepWorks(Pow2(s.p), s.n, depths, a, LanesOf(s), |s.divider.src|, s.divider.flush);
      }
    }

    /** Nothing can move. */
    ghost predicate Stuck()
      requires LanesOf(s).Sized(s.n) && |s.divider.buf| == s.n == |s.collectors|
      reads s, s.divider, s.folder, s.collectors
    {
      && !CanDivide() && !AllReady(s.folder.dsti)
      && forall i :: 0 <= i < s.n ==> !CanRank(i) && !CanCollect(i)
    }

    /** One step of any stage that can take one. */
    method Move() returns (moved: bool)
      requires s.Valid() && Room()
      modifies s.Machines()
      ensures s.Valid() && Room() && Dealt()
      ensures LanesOf(s).Sized(s.n) && |s.divider.buf| == s.n == |s.collectors|
      ensures if moved then Work() < old(Work()) else Stuck()
    {
      hide Sketch.Valid, Lanes.Room, WorkOf, Busy;
      SizedNow(s);
      moved := true;
      if CanDivide() {
        moved := StepDivider();
        SizedNow(s);
      } else if AllReady(s.folder.dsti) {
        moved := StepFold();
        SizedNow(s);
      } else {
        moved := MoveLane();
      }
    }

    /** A step on the first lane that can take one. */
    method MoveLane() returns (moved: bool)
      requires s.Valid() && Room()
      requires LanesOf(s).Sized(s.n) && |s.divider.buf| == s.n == |s.collectors|
      requires !CanDivide() && !AllReady(s.folder.dsti)
      modifies s.Machines()
      ensures s.Valid() && Room() && Dealt()
      ensures LanesOf(s).Sized(s.n) && |s.divider.buf| == s.n == |s.collectors|
      ensures if moved then Work() < old(Work()) else Stuck()
    {
      hide Sketch.Valid, Lanes.Room, WorkOf, Busy;
      SizedNow(s);
      for i := 0 to s.n
        invariant forall j :: 0 <= j < i ==> !CanRank(j) && !CanCollect(j)
      {
        if CanRank(i) {
          moved := StepRank(i);
          SizedNow(s);
          return;
        }
        if CanCollect(i) {
          s.AreMachines(i);
          moved := StepCollect(i, 0);
          SizedNow(s);
          return;
        }
      }
      moved := false;
    }
  }

  // ----- Never stuck -----

  /** The batches that the divider has finished on a lane. */
  lemma FinishedOnLane(d: Divider, i: nat)
    requires d.Valid() && i < d.n
    ensures |Split(d.sent[i]).done| + (if d.flush && d.buf[i].keep then 1 else 0) == |d.done|
  {
    if d.flush && d.buf[i].keep {
      SplitSnoc(d.sent[i], Flit(true, d.buf[i].val));
    }
    assert LaneInv(d.n, i, d.flush, d.buf[i], d.done, d.cur, d.sent[i]);
  }

  /** A lane has delivered at most the dumps of those batches, and all of them when it has nothing left to do. */
  lemma DumpedOnLane(h: nat, p: nat, hash: nat -> nat, c: Collector<nat>, sent: seq<Flit<nat>>, read: seq<Flit<nat>>,
                     waiting: seq<Flit<KV<nat>>>, fed: seq<Flit<nat>>)
    requires p <= h && read <= sent && Lane(h, p, hash, c, read, waiting, fed)
    requires c.f == MAX && c.zero == 0 && c.mem.Length == Pow2(p)
    ensures var all := Times(|Split(sent).done|, Pow2(p));
      && |fed| + |AsSeq(c.y)| <= all
      && (c.state == FEED && read == sent && waiting == [] ==> |fed| + |AsSeq(c.y)| == all)
  {
    hide *;
    LaneParts(h, p, hash, c, read, waiting, fed);
    SplitPrefix(read, sent);
    SplitPrefix(c.taken, c.taken + waiting);
    RankKeepsBatches(h, p, hash, read);
    SameCount(h, p, hash, Split(read).done);
    EmittedPrefix(MAX, 0, c.state, c.dumpPtr, c.Buckets(), Split(c.taken), c.Emitted());
    DumpsCount(Pow2(p), Split(c.taken).done);
    TimesMono(|Split(c.taken).done|, |Split(sent).done|, Pow2(p));
    NothingWaits(c.taken, waiting);
  }

  lemma LaneParts(h: nat, p: nat, hash: nat -> nat, c: Collector<nat>, read: seq<Flit<nat>>,
                  waiting: seq<Flit<KV<nat>>>, fed: seq<Flit<nat>>)
    requires p <= h && Lane(h, p, hash, c, read, waiting, fed) && c.f == MAX && c.zero == 0
    ensures InRange(c.z, c.mem.Length) && |c.Buckets()| == c.mem.Length
    ensures Agrees(MAX, 0, c.state, c.dumpPtr, c.Buckets(), Split(c.taken), c.Emitted())
    ensures RankStage(h, p, hash, read) == c.taken + waiting
    ensures c.taken <= c.taken + waiting && |c.Emitted()| == |fed| + |AsSeq(c.y)|
  {
  }

  lemma SameCount(h: nat, p: nat, hash: nat -> nat, batches: seq<seq<nat>>)
    requires p <= h
    ensures |RankBatches(h, p, hash, batches)| == |batches|
  {
  }

  lemma DumpsCount(size: nat, batches: seq<seq<KV<nat>>>)
    ensures |Dumps(MAX, 0, size, batches)| == Times(|batches|, size)
  {
    DumpsSize(size, batches);
  }

  lemma TimesMono(a: nat, b: nat, n: nat)
    ensures a <= b ==> Times(a, n) <= Times(b, n)
    ensures n > 0 && a < b ==> Times(a, n) < Times(b, n)
  {
    if a < b {
      MulStep(a, b, n);
    }
  }

  lemma NothingWaits<T>(taken: seq<T>, waiting: seq<T>)
    ensures waiting == [] ==> taken + waiting == taken
  {
  }

  /** What lane `i` amounts to: the values delivered and the batches they come from. */
  lemma LaneCount(s: Sketch, i: nat)
    requires s.Valid() && i < s.n
    ensures i < |s.divider.sent| && i < |s.folder.fed| && i < |s.divider.buf| && i < |s.divider.dst|
    ensures i < |s.ranked| && i < |s.folder.dsti| && i < |s.collectors|
    ensures |s.folder.fed[i]| == |s.folder.rows| + |s.folder.dsti[i]|
    ensures var c, batches := s.collectors[i], |Split(s.divider.sent[i]).done|;
      && batches + (if s.divider.flush && s.divider.buf[i].keep then 1 else 0) == |s.divider.done|
      && |s.folder.fed[i]| + |AsSeq(c.y)| <= Times(batches, Pow2(s.p))
      && (c.state == FEED && s.divider.dst[i] == [] && s.ranked[i] == [] ==>
            |s.folder.fed[i]| + |AsSeq(c.y)| == Times(batches, Pow2(s.p)))
  {
    hide *;
    s.Opened(i);
    s.LaneShape(i);
    s.Shape();
    SizedNow(s);
    FinishedOnLane(s.divider, i);
    DividerDone(s.divider, i);
    DumpedOnLane(s.h, s.p, s.hash, s.collectors[i], s.divider.sent[i], s.divider.read[i], s.ranked[i], s.folder.fed[i]);
    FedCount(s.folder.rows, s.folder.dsti, s.folder.fed, i);
  }

  lemma FedCount(rows: seq<seq<Flit<nat>>>, waiting: seq<seq<Flit<nat>>>, fed: seq<seq<Flit<nat>>>, i: nat)
    requires Fed(rows, waiting, fed) && i < |fed|
    ensures i < |waiting| && |fed[i]| == |rows| + |waiting[i]|
  {
  }

  /** A lane that holds anything while nothing can move waits for room behind its collector. */
  lemma BlockedLane(b: BoundedSketch, i: nat)
    requires LanesOf(b.s).Sized(b.s.n) && |b.s.divider.buf| == b.s.n == |b.s.collectors|
    requires b.Stuck() && b.depths.Positive() && i < b.s.n
    ensures var c := b.s.collectors[i];
      b.s.divider.dst[i] != [] || b.s.ranked[i] != [] || c.state != FEED || c.y.Some? ==>
      c.y.Some? && b.s.folder.dsti[i] != []
  {
    assert !b.CanRank(i) && !b.CanCollect(i);
  }

  /** So it has received more batches than a lane whose values fold waits for. */
  lemma BlockedIsAhead(b: BoundedSketch, c: nat, i: nat)
    requires b.s.Valid() && LanesOf(b.s).Sized(b.s.n) && |b.s.divider.buf| == b.s.n == |b.s.collectors|
    requires b.Stuck() && b.depths.Positive() && c < b.s.n && i < b.s.n && b.s.folder.dsti[c] == []
    requires |b.s.divider.sent| == b.s.n
    ensures var r := b.s.collectors[i];
      b.s.divider.dst[i] != [] || b.s.ranked[i] != [] || r.state != FEED || r.y.Some? ==>
      |Split(b.s.divider.sent[c]).done| < |Split(b.s.divider.sent[i]).done|
  {
    hide *;
    BlockedLane(b, c);
    BlockedLane(b, i);
    LaneCount(b.s, c);
    LaneCount(b.s, i);
    var n, m := |Split(b.s.divider.sent[c]).done|, |Split(b.s.divider.sent[i]).done|;
    TimesMono(m, n, Pow2(b.s.p));
    OneOrMore(b.s.collectors[i].y, b.s.folder.dsti[i]);
    NoneLeft(b.s.collectors[c].y);
  }

  lemma OneOrMore<T, U>(y: Option<T>, waiting: seq<U>)
    ensures y.Some? && waiting != [] ==> |waiting| + |AsSeq(y)| > |AsSeq(y)| && |AsSeq(y)| == 1
  {
  }

  lemma NoneLeft<T>(y: Option<T>)
    ensures !y.Some? ==> |AsSeq(y)| == 0
  {
  }

  lemma StuckParts(b: BoundedSketch)
    requires LanesOf(b.s).Sized(b.s.n) && |b.s.divider.buf| == b.s.n == |b.s.collectors| && b.Stuck()
    ensures !b.CanDivide() && exists c :: 0 <= c < |b.s.folder.dsti| && b.s.folder.dsti[c] == []
    ensures |b.s.folder.dsti| == b.s.n
  {
  }

  /** With FIFOs of any positive depths, when nothing can move, nothing is left to do: every line has been dealt, and
      every finished batch has been reported. */
  lemma NeverStuck(b: BoundedSketch)
    requires b.s.Valid() && LanesOf(b.s).Sized(b.s.n) && |b.s.divider.buf| == b.s.n == |b.s.collectors|
    requires b.depths.Positive() && b.Stuck()
    ensures b.s.Quiet() && |b.s.folder.results| == |b.s.divider.done|
  {
    hide *;
    StuckParts(b);
    SizedNow(b.s);
    var s := b.s;
    var c: nat :| c < |s.folder.dsti| && s.folder.dsti[c] == [];
    LaneCount(s, c);
    SentSize(s);
    forall i: nat | i < s.n
      ensures |Split(s.divider.sent[i]).done| + (if s.divider.flush && s.divider.buf[i].keep then 1 else 0)
              == |s.divider.done|
      ensures var r := s.collectors[i];
        s.divider.dst[i] != [] || s.ranked[i] != [] || r.state != FEED || r.y.Some? ==>
        |Split(s.divider.sent[c]).done| < |Split(s.divider.sent[i]).done|
    {
      LaneCount(s, i);
      BlockedIsAhead(b, c, i);
    }
    DividerRests(b, c);
    MakeQuiet(s);
    s.AllReported();
  }

  lemma SentSize(s: Sketch)
    requires s.Valid()
    ensures |s.divider.sent| == s.n
  {
  }

  /** Then the divider does not owe anything: a lane ahead of lane `c` has no last value held back. */
  lemma DividerRests(b: BoundedSketch, c: nat)
    requires LanesOf(b.s).Sized(b.s.n) && |b.s.divider.buf| == b.s.n == |b.s.divider.sent| == |b.s.collectors|
    requires !b.CanDivide() && b.depths.Positive() && c < b.s.n
    requires forall i: nat :: i < b.s.n ==>
      |Split(b.s.divider.sent[i]).done| + (if b.s.divider.flush && b.s.divider.buf[i].keep then 1 else 0)
      == |b.s.divider.done|
    requires forall i: nat :: i < b.s.n ==>
      var r := b.s.collectors[i];
      b.s.divider.dst[i] != [] || b.s.ranked[i] != [] || r.state != FEED || r.y.Some? ==>
      |Split(b.s.divider.sent[c]).done| < |Split(b.s.divider.sent[i]).done|
    ensures b.s.divider.src == [] && !b.s.divider.flush
    ensures forall i: nat :: i < b.s.n ==>
      b.s.divider.dst[i] == [] && b.s.ranked[i] == [] && b.s.collectors[i].state == FEED && b.s.collectors[i].y == None
  {
    hide Split;
    assert |Split(b.s.divider.sent[c]).done| <= |b.s.divider.done|;
  }

  lemma MakeQuiet(s: Sketch)
    requires s.Valid() && s.divider.src == [] && !s.divider.flush
    requires exists c :: 0 <= c < |s.folder.dsti| && s.folder.dsti[c] == []
    requires s.n == |s.divider.dst| == |s.ranked| == |s.collectors|
    requires forall i: nat :: i < s.n ==>
      s.divider.dst[i] == [] && s.ranked[i] == [] && s.collectors[i].state == FEED && s.collectors[i].y == None
    ensures s.Quiet()
  {
  }
}
