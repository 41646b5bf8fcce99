/** HllSketch.hpp: hashes are ranked, N collectors keep the maximum rank per bucket, their dumps are
    merged by maximum, and an exact fixed-point accumulator sums 2^-rank over the buckets. */
module HllSketch {
  import opened Arith
  import opened Flits
  import opened Collectors

  // ----- Rank -----

  /** Leading zeros of the w-bit number x. */
  function Clz(x: nat, w: nat): (c: nat)
    ensures c <= w
  {
    if w == 0 || x >= Pow2(w - 1) then 0 else 1 + Clz(x, w - 1)
  }

  /** Bucket and rank of an H-bit hash: its top P bits, and one more than the number of zeros
      leading the others. */
  function Ranked(h: nat, p: nat, hash: nat): KV<nat>
    requires p <= h
  {
    KV(Quot(hash, Pow2(h - p)), 1 + Clz(Wrap(hash, Pow2(h - p)), h - p))
  }

  lemma {:induction false} ClzExact(x: nat, w: nat, c: nat)
    requires x < Pow2(w) && c <= w
    ensures Clz(x, w) >= c <==> x < Pow2(w - c)
  {
    if w != 0 && c != 0 {
      if x >= Pow2(w - 1) {
        Pow2Mono(w - c, w - 1);
      } else {
        ClzExact(x, w - 1, c - 1);
      }
    }
  }

  /** Bucket and rank are in range, and the rank exceeds r exactly when the r bits below the bucket
      number are zero. */
  lemma RankedExact(h: nat, p: nat, hash: nat, r: nat)
    requires p <= h && hash < Pow2(h) && r <= h - p
    ensures Ranked(h, p, hash).key < Pow2(p)
    ensures 1 <= Ranked(h, p, hash).val <= h - p + 1
    ensures Ranked(h, p, hash).val > r <==> Wrap(hash, Pow2(h - p)) < Pow2(h - p - r)
  {
    hide Quot, Wrap;
    Pow2Sum(p, h - p);
    QuotBelow(hash, Pow2(p), Pow2(h - p));
    ClzExact(Wrap(hash, Pow2(h - p)), h - p, r);
  }

  /** The hashes of bucket k are those of the k-th interval of length 2^(h-p), and the rank exceeds r exactly for those
      less than 2^(h-p-r) behind its start. */
  lemma RankedIff(h: nat, p: nat, hash: nat, k: nat, r: nat)
    requires p <= h && hash < Pow2(h) && r <= h - p
    ensures Ranked(h, p, hash).key == k <==> k * Pow2(h - p) <= hash < (k + 1) * Pow2(h - p)
    ensures Ranked(h, p, hash).key == k && Ranked(h, p, hash).val > r
            <==> k * Pow2(h - p) <= hash < (k + 1) * Pow2(h - p) && hash < k * Pow2(h - p) + Pow2(h - p - r)
  {
    hide Quot, Wrap, Pow2, Clz;
    RankedExact(h, p, hash, r);
    var m := Pow2(h - p);
    QuotWrap(hash, m);
    if k * m <= hash < (k + 1) * m {
      Next(k, m);
      DivModUnique(m, k, hash - k * m);
    } else {
      Next(Quot(hash, m), m);
    }
  }

  lemma Next(k: nat, m: nat)
    ensures (k + 1) * m == k * m + m
  {
  }

  function Max(a: nat, b: nat): nat {
    if a > b then a else b
  }

  // ----- Maximum per bucket -----

  const MAX := (a: nat, b: nat) => Max(a, b)

  ghost predicate IsMaxRank(r: nat, items: set<KV<nat>>, k: nat) {
    && (forall x :: x in items && x.key == k ==> x.val <= r)
    && (r == 0 || exists x :: x in items && x.key == k && x.val == r)
  }

  ghost function Items(lane: seq<KV<nat>>): set<KV<nat>> {
    set x | x in lane
  }

  lemma {:induction false} FoldIsMaxRank(lane: seq<KV<nat>>, k: nat)
    ensures IsMaxRank(FoldKey(MAX, 0, lane, k), Items(lane), k)
  {
    if lane != [] {
      var front, x := lane[..|lane| - 1], lane[|lane| - 1];
      FoldIsMaxRank(front, k);
      assert lane == front + [x];
      assert Items(lane) == Items(front) + {x};
      MaxRankAdd(FoldKey(MAX, 0, front, k), Items(front), {x}, if x.key == k then x.val else 0, k);
      assert FoldKey(MAX, 0, lane, k) == Max(FoldKey(MAX, 0, front, k), if x.key == k then x.val else 0);
    }
  }

  lemma MaxRankAdd(r: nat, a: set<KV<nat>>, b: set<KV<nat>>, s: nat, k: nat)
    requires IsMaxRank(r, a, k) && IsMaxRank(s, b, k)
    ensures IsMaxRank(Max(r, s), a + b, k)
  {
  }

  lemma MaxRankUnique(r: nat, s: nat, items: set<KV<nat>>, k: nat)
    requires IsMaxRank(r, items, k) && IsMaxRank(s, items, k)
    ensures r == s
  {
  }

  /** The maximum fold across the lanes, starting at 0. */
  function MaxOver(row: seq<nat>): nat {
    if row == [] then 0 else Max(MaxOver(row[..|row| - 1]), row[|row| - 1])
  }

  ghost function AllItems(lanes: seq<seq<KV<nat>>>): set<KV<nat>> {
    if lanes == [] then {} else AllItems(lanes[..|lanes| - 1]) + Items(lanes[|lanes| - 1])
  }

  /** The ranks of bucket k on all lanes. */
  function Row(lanes: seq<seq<KV<nat>>>, k: nat): seq<nat> {
    seq(|lanes|, i requires 0 <= i < |lanes| => FoldKey(MAX, 0, lanes[i], k))
  }

  lemma {:induction false} MergeIsMaxRank(lanes: seq<seq<KV<nat>>>, k: nat)
    ensures IsMaxRank(MaxOver(Row(lanes, k)), AllItems(lanes), k)
  {
    if lanes != [] {
      var front, lane := lanes[..|lanes| - 1], lanes[|lanes| - 1];
      MergeIsMaxRank(front, k);
      FoldIsMaxRank(lane, k);
      assert Row(lanes, k)[..|lanes| - 1] == Row(front, k);
      MaxRankAdd(MaxOver(Row(front, k)), AllItems(front), Items(lane), FoldKey(MAX, 0, lane, k), k);
    }
  }

  /** However a batch is split over lanes and ordered within them, the merged rank of every bucket
      depends only on which items it has. */
  lemma MergeIgnoresLanes(lanes: seq<seq<KV<nat>>>, others: seq<seq<KV<nat>>>, k: nat)
    requires AllItems(lanes) == AllItems(others)
    ensures MaxOver(Row(lanes, k)) == MaxOver(Row(others, k))
  {
    MergeIsMaxRank(lanes, k);
    MergeIsMaxRank(others, k);
    MaxRankUnique(MaxOver(Row(lanes, k)), MaxOver(Row(others, k)), AllItems(lanes), k);
  }

  // ----- The accumulator -----

  /** Fraction bits: ranks go up to this number. */
  function Frac(h: nat, p: nat): nat
    requires p <= h
  {
    h - p + 1
  }

  /** The exact sum of 2^-rank, in units of 2^-frac. */
  function RawSum(frac: nat, ranks: seq<nat>): nat
    requires forall i :: 0 <= i < |ranks| ==> ranks[i] <= frac
  {
    if ranks == [] then 0 else RawSum(frac, ranks[..|ranks| - 1]) + Pow2(frac - ranks[|ranks| - 1])
  }

  function CountZeros(ranks: seq<nat>): (c: nat)
    ensures c <= |ranks|
  {
    if ranks == [] then 0 else CountZeros(ranks[..|ranks| - 1]) + if ranks[|ranks| - 1] == 0 then 1 else 0
  }

  function Recip(k: nat): real {
    1.0 / (Pow2(k) as real)
  }

  /** The same sum over the reals. */
  function RealSum(ranks: seq<nat>): real {
    if ranks == [] then 0.0 else RealSum(ranks[..|ranks| - 1]) + Recip(ranks[|ranks| - 1])
  }

  lemma Cancel(a: real, b: real, c: real)
    requires a * b == c && b > 0.0
    ensures a == 1.0 / b * c
  {
    assert 1.0 / b * (a * b) == a * (1.0 / b * b);
  }

  lemma RealPart(frac: nat, rank: nat)
    requires rank <= frac
    ensures Pow2(frac - rank) as real == Recip(rank) * (Pow2(frac) as real)
  {
    hide Pow2;
    Pow2Sum(frac - rank, rank);
    var a, b := Pow2(frac - rank), Pow2(rank);
    assert (a * b) as real == (a as real) * (b as real);
    Cancel(a as real, b as real, Pow2(frac) as real);
  }

  /** Every 2^-rank is a whole number of units, so the fixed-point sum is the real one. */
  lemma {:induction false} RawSumIsReal(frac: nat, ranks: seq<nat>)
    requires forall i :: 0 <= i < |ranks| ==> ranks[i] <= frac
    ensures RawSum(frac, ranks) as real == RealSum(ranks) * (Pow2(frac) as real)
  {
    hide Pow2, Recip;
    if ranks != [] {
      var front, r := ranks[..|ranks| - 1], ranks[|ranks| - 1];
      RawSumIsReal(frac, front);
      RealPart(frac, r);
      Distribute(RealSum(front), Recip(r), Pow2(frac) as real);
    }
  }

  lemma Distribute(a: real, b: real, c: real)
    ensures (a + b) * c == a * c + b * c
  {
  }

  /** The sum reaches |ranks| exactly when all ranks are zero. */
  lemma {:induction false} RawSumBound(frac: nat, ranks: seq<nat>)
    requires forall i :: 0 <= i < |ranks| ==> ranks[i] <= frac
    ensures RawSum(frac, ranks) <= |ranks| * Pow2(frac)
    ensures RawSum(frac, ranks) == |ranks| * Pow2(frac) <==> CountZeros(ranks) == |ranks|
  {
    if ranks != [] {
      var n, r := |ranks| - 1, ranks[|ranks| - 1];
      RawSumBound(frac, ranks[..n]);
      Pow2Mono(frac - r, frac);
      assert |ranks| * Pow2(frac) == n * Pow2(frac) + Pow2(frac);
    }
  }

  class HllEstimator {
    const h: nat
    const p: nat
    var zeros: nat
    var accu: nat
    /** The ranks collected since the last reset. */
    ghost var ranks: seq<nat>

    ghost predicate Valid()
      reads this
    {
      && p <= h && (forall i :: 0 <= i < |ranks| ==> ranks[i] <= Frac(h, p))
      && zeros == Wrap(CountZeros(ranks), Pow2(p + 1))
      && accu == Wrap(RawSum(Frac(h, p), ranks), Pow2(h + 1))
    }

    constructor (h: nat, p: nat)
      requires p <= h
      ensures Valid() && ranks == [] && this.h == h && this.p == p
    {
      this.h, this.p, zeros, accu, ranks := h, p, 0, 0, [];
      new;
      WrapSmall(0, Pow2(p + 1));
      WrapSmall(0, Pow2(h + 1));
    }

    /** `zeros` has P+1 bits; `accu` has P integer and H-P+1 fraction bits, and wraps. */
    method Collect(rank: nat)
      requires Valid() && rank <= Frac(h, p)
      modifies this
      ensures Valid() && ranks == old(ranks) + [rank]
    {
      hide Wrap, Pow2;
      assert (ranks + [rank])[..|ranks|] == ranks;
      WrapAdd(CountZeros(ranks), 1, Pow2(p + 1));
      WrapAdd(RawSum(Frac(h, p), ranks), Pow2(Frac(h, p) - rank), Pow2(h + 1));
      if rank == 0 {
        zeros := Wrap(zeros + 1, Pow2(p + 1));
      }
      var d := Pow2(h - p + 1 - rank);
      accu := Wrap(accu + d, Pow2(h + 1));
      ranks := ranks + [rank];
    }

    /** The state reset of `estimate`; the number it computes from `zeros` and `accu` is left out. */
    method Reset()
      requires Valid()
      modifies this
      ensures Valid() && ranks == []
    {
      hide Wrap, Pow2;
      WrapSmall(0, Pow2(p + 1));
      WrapSmall(0, Pow2(h + 1));
      zeros, accu := 0, 0;
      ranks := [];
    }
  }

  /** After one rank per bucket, `zeros` is the number of empty buckets and `accu` the exact sum of
      2^-rank, except that it has wrapped to 0 when every bucket is empty. */
  lemma AccumulatorExact(h: nat, p: nat, ranks: seq<nat>)
    requires p <= h && |ranks| == Pow2(p) && forall i :: 0 <= i < |ranks| ==> ranks[i] <= Frac(h, p)
    ensures Wrap(CountZeros(ranks), Pow2(p + 1)) == CountZeros(ranks)
    ensures var sum := RawSum(Frac(h, p), ranks);
      Wrap(sum, Pow2(h + 1)) == if CountZeros(ranks) == |ranks| then 0 else sum
  {
    Pow2Mono(p, p + 1);
    Pow2Mono(0, p);
    hide Wrap, Pow2;
    var frac := Frac(h, p);
    var sum := RawSum(frac, ranks);
    RawSumBound(frac, ranks);
    Pow2Sum(p, frac);
    assert p + frac == h + 1;
    WrapSmall(CountZeros(ranks), Pow2(p + 1));
    if CountZeros(ranks) == |ranks| {
      assert sum == Pow2(h + 1);
      WrapMultiple(0, 1, Pow2(h + 1));
    } else {
      WrapSmall(sum, Pow2(h + 1));
    }
  }

  // ----- fold -----

  function Vals(row: seq<Flit<nat>>): seq<nat> {
    seq(|row|, i requires 0 <= i < |row| => row[i].val)
  }

  predicate AnyLast(row: seq<Flit<nat>>) {
    exists i :: 0 <= i < |row| && row[i].last
  }

  /** One merged value for each row of values read from the lanes together. */
  function Merged(rows: seq<seq<Flit<nat>>>): seq<Flit<nat>> {
    seq(|rows|, j requires 0 <= j < |rows| => Flit(AnyLast(rows[j]), MaxOver(Vals(rows[j]))))
  }

  datatype Metrics = Metrics(zeros: nat, accu: nat)

  function MetricsOf(h: nat, p: nat, ranks: seq<nat>): Metrics
    requires p <= h && forall i :: 0 <= i < |ranks| ==> ranks[i] <= Frac(h, p)
  {
    Metrics(Wrap(CountZeros(ranks), Pow2(p + 1)), Wrap(RawSum(Frac(h, p), ranks), Pow2(h + 1)))
  }

  lemma MaxOverBound(row: seq<nat>, bound: nat)
    requires forall i :: 0 <= i < |row| ==> row[i] <= bound
    ensures MaxOver(row) <= bound
  {
  }

  function Heads<T>(qs: seq<seq<T>>): seq<T>
    requires forall i :: 0 <= i < |qs| ==> qs[i] != []
  {
    seq(|qs|, i requires 0 <= i < |qs| => qs[i][0])
  }

  function Tails<T>(qs: seq<seq<T>>): seq<seq<T>>
    requires forall i :: 0 <= i < |qs| ==> qs[i] != []
  {
    seq(|qs|, i requires 0 <= i < |qs| => qs[i][1..])
  }

  predicate AllReady<T(==)>(qs: seq<seq<T>>) {
    forall i :: 0 <= i < |qs| ==> qs[i] != []
  }

  predicate InRanks(frac: nat, ranks: seq<nat>) {
    forall i :: 0 <= i < |ranks| ==> ranks[i] <= frac
  }

  /** The ranks in the estimator and the metrics reported, as functions of the merged values. */
  ghost predicate FoldInv(h: nat, p: nat, ranks: seq<nat>, results: seq<Metrics>, b: Batches<nat>)
    requires p <= h
  {
    && ranks == b.cur && |results| == |b.done|
    && forall k :: 0 <= k < |b.done| ==> InRanks(Frac(h, p), b.done[k]) && results[k] == MetricsOf(h, p, b.done[k])
  }

  lemma FoldStep(h: nat, p: nat, ranks: seq<nat>, results: seq<Metrics>, rows: seq<seq<Flit<nat>>>, row: seq<Flit<nat>>)
    requires p <= h && InRanks(Frac(h, p), ranks) && FoldInv(h, p, ranks, results, Split(Merged(rows)))
    requires InRanks(Frac(h, p), Vals(row))
    ensures var rank := MaxOver(Vals(row)); var all := ranks + [rank];
      && rank <= Frac(h, p)
      && if AnyLast(row) then FoldInv(h, p, [], results + [MetricsOf(h, p, all)], Split(Merged(rows + [row])))
         else FoldInv(h, p, all, results, Split(Merged(rows + [row])))
  {
    MaxOverBound(Vals(row), Frac(h, p));
    var x := Flit(AnyLast(row), MaxOver(Vals(row)));
    assert Merged(rows + [row]) == Merged(rows) + [x];
    SplitSnoc(Merged(rows), x);
  }

  /** The values of lane `i` in the rows. */
  function Column(rows: seq<seq<Flit<nat>>>, i: nat): (c: seq<Flit<nat>>)
    requires forall j :: 0 <= j < |rows| ==> i < |rows[j]|
    ensures |c| == |rows|
  {
    seq(|rows|, j requires 0 <= j < |rows| => rows[j][i])
  }

  /** Everything fed to the lanes is in the rows read, or still waiting. */
  ghost predicate Fed(rows: seq<seq<Flit<nat>>>, waiting: seq<seq<Flit<nat>>>, fed: seq<seq<Flit<nat>>>) {
    && |fed| == |waiting| && (forall j :: 0 <= j < |rows| ==> |rows[j]| == |fed|)
    && forall i :: 0 <= i < |fed| ==> fed[i] == Column(rows, i) + waiting[i]
  }

  lemma FedRow(rows: seq<seq<Flit<nat>>>, waiting: seq<seq<Flit<nat>>>, fed: seq<seq<Flit<nat>>>)
    requires Fed(rows, waiting, fed) && AllReady(waiting)
    ensures Fed(rows + [Heads(waiting)], Tails(waiting), fed)
  {
    var row := Heads(waiting);
    forall i | 0 <= i < |fed| ensures fed[i] == Column(rows + [row], i) + Tails(waiting)[i] {
      assert Column(rows + [row], i) == Column(rows, i) + [row[i]];
      assert waiting[i] == [row[i]] + Tails(waiting)[i];
    }
  }

  lemma FedMore(rows: seq<seq<Flit<nat>>>, waiting: seq<seq<Flit<nat>>>, fed: seq<seq<Flit<nat>>>, i: nat, x: Flit<nat>)
    requires Fed(rows, waiting, fed) && i < |fed|
    ensures Fed(rows, waiting[i := waiting[i] + [x]], fed[i := fed[i] + [x]])
  {
  }

  lemma FedLanes(rows: seq<seq<Flit<nat>>>, waiting: seq<seq<Flit<nat>>>, fed: seq<seq<Flit<nat>>>)
    requires Fed(rows, waiting, fed)
    ensures |fed| == |waiting|
  {
  }

  class Folder {
    const estimator: HllEstimator
    var dsti: seq<seq<Flit<nat>>>
    /** The metrics of the batches finished so far; the source sends an estimate made of them. */
    var results: seq<Metrics>
    /** The rows read so far, and all that was ever written to each lane. */
    ghost var rows: seq<seq<Flit<nat>>>
    ghost var fed: seq<seq<Flit<nat>>>

    ghost predicate Valid()
      reads this, estimator
    {
      && estimator.Valid() && Fed(rows, dsti, fed)
      && FoldInv(estimator.h, estimator.p, estimator.ranks, results, Split(Merged(rows)))
      && forall i, j :: 0 <= i < |dsti| && 0 <= j < |dsti[i]| ==> dsti[i][j].val <= Frac(estimator.h, estimator.p)
    }

    constructor (estimator: HllEstimator, lanes: nat)
      requires estimator.Valid() && estimator.ranks == []
      ensures Valid() && this.estimator == estimator && dsti == seq(lanes, i => []) && results == [] && rows == []
      ensures fed == seq(lanes, i => [])
    {
      this.estimator, dsti, results, rows := estimator, seq(lanes, i => []), [], [];
      fed := seq(lanes, i => []);
    }

    /** The write side of a lane. */
    method Feed(i: nat, x: Flit<nat>)
      requires Valid() && i < |dsti| && x.val <= Frac(estimator.h, estimator.p)
      modifies this`dsti, this`fed
      ensures Valid() && dsti == old(dsti)[i := old(dsti)[i] + [x]] && fed == old(fed)[i := old(fed)[i] + [x]]
    {
      hide FoldInv, Fed;
      FedLanes(rows, dsti, fed);
      FedMore(rows, dsti, fed, i, x);
      dsti := dsti[i := dsti[i] + [x]];
      fed := fed[i := fed[i] + [x]];
    }

    /** Read one value from every lane, tracking the batch end and the maximum rank. */
    method ReadRow() returns (last: bool, rank: nat)
      requires AllReady(dsti)
      modifies this`dsti
      ensures dsti == Tails(old(dsti))
      ensures last == AnyLast(Heads(old(dsti))) && rank == MaxOver(Vals(Heads(old(dsti))))
    {
      ghost var row := Heads(dsti);
      last, rank := false, 0;
      for i := 0 to |dsti|
        invariant |dsti| == |old(dsti)|
        invariant forall k :: 0 <= k < i ==> dsti[k] == old(dsti)[k][1..]
        invariant forall k :: i <= k < |dsti| ==> dsti[k] == old(dsti)[k]
        invariant last <==> exists k :: 0 <= k < i && row[k].last
        invariant rank == MaxOver(Vals(row[..i]))
      {
        var x := dsti[i][0];
        assert x == row[i] && Vals(row[..i + 1])[..i] == Vals(row[..i]);
        dsti := dsti[i := dsti[i][1..]];
        last := last || x.last;
        rank := Max(rank, x.val);
      }
      assert row[..|row|] == row;
    }

    /** One call: when every lane has a value, merge one row into the estimator; the end of a batch
        reports the metrics and resets it. */
    method Fold()
      requires Valid()
      modifies this, estimator
      ensures Valid()
      ensures !AllReady(old(dsti)) ==> rows == old(rows) && dsti == old(dsti) && results == old(results)
      ensures AllReady(old(dsti)) ==> rows == old(rows) + [Heads(old(dsti))] && dsti == Tails(old(dsti))
      ensures fed == old(fed)
    {
      hide Wrap, Split, Merged, FoldInv, MetricsOf, Fed;
      if AllReady(dsti) {
        ghost var row := Heads(dsti);
        FoldStep(estimator.h, estimator.p, estimator.ranks, results, rows, row);
        FedRow(rows, dsti, fed);
        var last, rank := ReadRow();
        rows := rows + [row];
        estimator.Collect(rank);
        if last {
          var y := Metrics(estimator.zeros, estimator.accu);
          assert y == MetricsOf(estimator.h, estimator.p, estimator.ranks) by {
            MetricsNow(estimator);
          }
          results := results + [y];
          estimator.Reset();
        }
      }
    }
  }

  lemma MetricsNow(e: HllEstimator)
    requires e.Valid()
    ensures Metrics(e.zeros, e.accu) == MetricsOf(e.h, e.p, e.ranks)
  {
  }

  // ----- The whole sketch -----

  function Fronts<T>(lanes: seq<seq<T>>): seq<seq<T>>
    requires AllNonEmpty(lanes)
  {
    seq(|lanes|, i requires 0 <= i < |lanes| => lanes[i][..|lanes[i]| - 1])
  }

  function Backs<T>(lanes: seq<seq<T>>): seq<T>
    requires AllNonEmpty(lanes)
  {
    seq(|lanes|, i requires 0 <= i < |lanes| => lanes[i][|lanes[i]| - 1])
  }

  ghost predicate AllNonEmpty<T>(lanes: seq<seq<T>>) {
    forall i :: 0 <= i < |lanes| ==> lanes[i] != []
  }

  /** The merged rank of every bucket. */
  function BucketRanks(size: nat, lanes: seq<seq<KV<nat>>>): (r: seq<nat>)
    ensures |r| == size
  {
    seq(size, k requires 0 <= k < size => MaxOver(Row(lanes, k)))
  }

  /** The bucket ranks of each of the n batches. */
  ghost function AllRanks(size: nat, lanes: seq<seq<seq<KV<nat>>>>, n: nat): seq<seq<nat>>
    requires forall i :: 0 <= i < |lanes| ==> |lanes[i]| == n
    decreases n
  {
    if n == 0 then [] else AllRanks(size, Fronts(lanes), n - 1) + [BucketRanks(size, Backs(lanes))]
  }

  /** The first m values of every lane, row by row. */
  function Rows(m: nat, streams: seq<seq<Flit<nat>>>): (r: seq<seq<Flit<nat>>>)
    requires forall i :: 0 <= i < |streams| ==> |streams[i]| == m
    ensures |r| == m
  {
    seq(m, j requires 0 <= j < m => seq(|streams|, i requires 0 <= i < |streams| => streams[i][j]))
  }

  function DumpsOf(size: nat, lanes: seq<seq<seq<KV<nat>>>>): seq<seq<Flit<nat>>> {
    seq(|lanes|, i requires 0 <= i < |lanes| => Dumps(MAX, 0, size, lanes[i]))
  }

  lemma MergedConcat(a: seq<seq<Flit<nat>>>, b: seq<seq<Flit<nat>>>)
    ensures Merged(a + b) == Merged(a) + Merged(b)
  {
  }

  function JoinedFolds(size: nat, batch: seq<seq<KV<nat>>>): seq<seq<Flit<nat>>> {
    seq(|batch|, i requires 0 <= i < |batch| => Join(Folds(MAX, 0, size, batch[i])))
  }

  /** The lanes dump one batch each: merging gives one value per bucket, the last one flagged. */
  lemma MergedBatch(size: nat, batch: seq<seq<KV<nat>>>)
    requires |batch| > 0
    ensures Merged(Rows(size, JoinedFolds(size, batch))) == Join(BucketRanks(size, batch))
  {
    var rows := Rows(size, JoinedFolds(size, batch));
    forall k | 0 <= k < size
      ensures Merged(rows)[k] == Join(BucketRanks(size, batch))[k]
    {
      assert Vals(rows[k]) == Row(batch, k);
      assert forall i :: 0 <= i < |batch| ==> (rows[k][i].last <==> k == size - 1);
      assert rows[k][0].last <==> k == size - 1;
    }
  }

  lemma RowsConcat(m: nat, k: nat, a: seq<seq<Flit<nat>>>, b: seq<seq<Flit<nat>>>, c: seq<seq<Flit<nat>>>)
    requires |a| == |b| == |c|
    requires forall i :: 0 <= i < |a| ==> |a[i]| == m && |b[i]| == k && c[i] == a[i] + b[i]
    ensures Rows(m + k, c) == Rows(m, a) + Rows(k, b)
  {
    var left, right := Rows(m + k, c), Rows(m, a) + Rows(k, b);
    forall j | 0 <= j < m + k ensures left[j] == right[j] {
      assert |left[j]| == |right[j]|;
    }
  }

  lemma {:induction false} DumpsSize(size: nat, batches: seq<seq<KV<nat>>>)
    ensures |Dumps(MAX, 0, size, batches)| == |batches| * size
  {
    if batches != [] {
      var n := |batches| - 1;
      DumpsSize(size, batches[..n]);
      assert |batches| * size == n * size + size;
    }
  }

  lemma DumpSizes(size: nat, lanes: seq<seq<seq<KV<nat>>>>, n: nat)
    requires forall i :: 0 <= i < |lanes| ==> |lanes[i]| == n
    ensures forall i :: 0 <= i < |lanes| ==> |DumpsOf(size, lanes)[i]| == n * size
  {
    forall i | 0 <= i < |lanes| ensures |DumpsOf(size, lanes)[i]| == n * size {
      DumpsSize(size, lanes[i]);
    }
  }

  lemma RowsOfBatches(size: nat, lanes: seq<seq<seq<KV<nat>>>>, n: nat)
    requires n > 0 && forall i :: 0 <= i < |lanes| ==> |lanes[i]| == n
    ensures forall i :: 0 <= i < |lanes| ==> |DumpsOf(size, lanes)[i]| == n * size
    ensures forall i :: 0 <= i < |lanes| ==> |DumpsOf(size, Fronts(lanes))[i]| == (n - 1) * size
    ensures Rows(n * size, DumpsOf(size, lanes))
            == Rows((n - 1) * size, DumpsOf(size, Fronts(lanes))) + Rows(size, JoinedFolds(size, Backs(lanes)))
  {
    var a, b, c := DumpsOf(size, Fronts(lanes)), JoinedFolds(size, Backs(lanes)), DumpsOf(size, lanes);
    DumpSizes(size, lanes, n);
    DumpSizes(size, Fronts(lanes), n - 1);
    assert n * size == (n - 1) * size + size;
    forall i | 0 <= i < |lanes| ensures c[i] == a[i] + b[i] {
      assert lanes[i] != [];
    }
    RowsConcat((n - 1) * size, size, a, b, c);
  }

  /** From complete dumps, the merged values are, batch by batch, the bucket ranks. */
  lemma {:induction false} SketchRanks(size: nat, lanes: seq<seq<seq<KV<nat>>>>, n: nat)
    requires size > 0 && |lanes| > 0 && forall i :: 0 <= i < |lanes| ==> |lanes[i]| == n
    ensures forall i :: 0 <= i < |lanes| ==> |DumpsOf(size, lanes)[i]| == n * size
    ensures Split(Merged(Rows(n * size, DumpsOf(size, lanes)))) == Batches(AllRanks(size, lanes, n), [])
    decreases n
  {
    DumpSizes(size, lanes, n);
    if n == 0 {
      assert Rows(0, DumpsOf(size, lanes)) == [];
    } else {
      SketchRanks(size, Fronts(lanes), n - 1);
      RowsOfBatches(size, lanes, n);
      hide *;
      RanksNext(size, lanes, n, Rows((n - 1) * size, DumpsOf(size, Fronts(lanes))));
    }
  }

  lemma RanksNext(size: nat, lanes: seq<seq<seq<KV<nat>>>>, n: nat, before: seq<seq<Flit<nat>>>)
    requires size > 0 && |lanes| > 0 && n > 0 && forall i :: 0 <= i < |lanes| ==> |lanes[i]| == n
    requires Split(Merged(before)) == Batches(AllRanks(size, Fronts(lanes), n - 1), [])
    ensures Split(Merged(before + Rows(size, JoinedFolds(size, Backs(lanes))))) == Batches(AllRanks(size, lanes, n), [])
  {
    var backs := Backs(lanes);
    assert AllRanks(size, lanes, n) == AllRanks(size, Fronts(lanes), n - 1) + [BucketRanks(size, backs)];
    assert |backs| > 0 && |BucketRanks(size, backs)| == size;
    hide *;
    MergedConcat(before, Rows(size, JoinedFolds(size, backs)));
    MergedBatch(size, backs);
    SplitJoin(Merged(before), BucketRanks(size, backs));
  }

  /** At the end of a batch `zeros` is the number of empty buckets and `accu` the sum of 2^-rank of
      the maximum rank of every bucket, over the items of all lanes. */
  lemma BatchMetrics(h: nat, p: nat, lanes: seq<seq<KV<nat>>>)
    requires p <= h && forall x :: x in AllItems(lanes) ==> 1 <= x.val <= Frac(h, p)
    ensures var ranks := BucketRanks(Pow2(p), lanes);
      && (forall k :: 0 <= k < |ranks| ==> ranks[k] <= Frac(h, p) && IsMaxRank(ranks[k], AllItems(lanes), k))
      && (forall k :: 0 <= k < |ranks| ==> (ranks[k] == 0 <==> forall x :: x in AllItems(lanes) ==> x.key != k))
      && MetricsOf(h, p, ranks).zeros == CountZeros(ranks)
      && MetricsOf(h, p, ranks).accu
         == if CountZeros(ranks) == |ranks| then 0 else RawSum(Frac(h, p), ranks)
  {
    var ranks := BucketRanks(Pow2(p), lanes);
    forall k | 0 <= k < |ranks|
      ensures ranks[k] <= Frac(h, p) && IsMaxRank(ranks[k], AllItems(lanes), k)
      ensures ranks[k] == 0 <==> forall x :: x in AllItems(lanes) ==> x.key != k
    {
      MergeIsMaxRank(lanes, k);
    }
    AccumulatorExact(h, p, ranks);
  }

  // ----- From the divided lanes to the metrics -----

  function RankBatch(h: nat, p: nat, hash: nat -> nat, batch: seq<nat>): (r: seq<KV<nat>>)
    requires p <= h
    ensures |r| == |batch|
  {
    seq(|batch|, j requires 0 <= j < |batch| => Ranked(h, p, hash(batch[j])))
  }

  function RankBatches(h: nat, p: nat, hash: nat -> nat, batches: seq<seq<nat>>): (r: seq<seq<KV<nat>>>)
    requires p <= h
    ensures |r| == |batches|
  {
    seq(|batches|, b requires 0 <= b < |batches| => RankBatch(h, p, hash, batches[b]))
  }

  /** The rank stage: every item is ranked, batch ends stay. */
  function RankStage(h: nat, p: nat, hash: nat -> nat, s: seq<Flit<nat>>): (r: seq<Flit<KV<nat>>>)
    requires p <= h
    ensures |r| == |s|
  {
    seq(|s|, j requires 0 <= j < |s| => Flit(s[j].last, Ranked(h, p, hash(s[j].val))))
  }

  lemma {:induction false} RankKeepsBatches(h: nat, p: nat, hash: nat -> nat, s: seq<Flit<nat>>)
    requires p <= h
    ensures Split(RankStage(h, p, hash, s))
            == Batches(RankBatches(h, p, hash, Split(s).done), RankBatch(h, p, hash, Split(s).cur))
  {
    hide Ranked;
    if s != [] {
      var front, x := s[..|s| - 1], s[|s| - 1];
      RankKeepsBatches(h, p, hash, front);
      assert s == front + [x];
      SplitSnoc(front, x);
      SplitSnoc(RankStage(h, p, hash, front), Flit(x.last, Ranked(h, p, hash(x.val))));
      RankSnoc(h, p, hash, front, x);
    }
  }

  lemma RankSnoc(h: nat, p: nat, hash: nat -> nat, front: seq<Flit<nat>>, x: Flit<nat>)
    requires p <= h
    ensures RankStage(h, p, hash, front + [x])
            == RankStage(h, p, hash, front) + [Flit(x.last, Ranked(h, p, hash(x.val)))]
    ensures forall batch: seq<nat> ::
              RankBatch(h, p, hash, batch + [x.val]) == RankBatch(h, p, hash, batch) + [Ranked(h, p, hash(x.val))]
    ensures forall done: seq<seq<nat>>, batch: seq<nat> ::
              RankBatches(h, p, hash, done + [batch]) == RankBatches(h, p, hash, done) + [RankBatch(h, p, hash, batch)]
  {
  }

  function At<T>(lanes: seq<seq<T>>, b: nat): (r: seq<T>)
    requires forall i :: 0 <= i < |lanes| ==> b < |lanes[i]|
    ensures |r| == |lanes|
  {
    seq(|lanes|, i requires 0 <= i < |lanes| => lanes[i][b])
  }

  lemma {:induction false} AllRanksAt(size: nat, lanes: seq<seq<seq<KV<nat>>>>, n: nat, b: nat)
    requires b < n && forall i :: 0 <= i < |lanes| ==> |lanes[i]| == n
    ensures |AllRanks(size, lanes, n)| == n
    ensures AllRanks(size, lanes, n)[b] == BucketRanks(size, At(lanes, b))
    decreases n
  {
    AllRanksSize(size, Fronts(lanes), n - 1);
    if b < n - 1 {
      AllRanksAt(size, Fronts(lanes), n - 1, b);
      assert At(Fronts(lanes), b) == At(lanes, b);
    } else {
      assert Backs(lanes) == At(lanes, b);
    }
  }

  lemma {:induction false} AllRanksSize(size: nat, lanes: seq<seq<seq<KV<nat>>>>, n: nat)
    requires forall i :: 0 <= i < |lanes| ==> |lanes[i]| == n
    ensures |AllRanks(size, lanes, n)| == n
    decreases n
  {
    if n != 0 {
      AllRanksSize(size, Fronts(lanes), n - 1);
    }
  }

  lemma {:induction false} AllItemsOf(lanes: seq<seq<KV<nat>>>)
    ensures forall x :: x in AllItems(lanes) <==> exists i :: 0 <= i < |lanes| && x in lanes[i]
  {
    if lanes != [] {
      var front, lane := lanes[..|lanes| - 1], lanes[|lanes| - 1];
      AllItemsOf(front);
      forall x ensures x in AllItems(lanes) <==> exists i :: 0 <= i < |lanes| && x in lanes[i] {
        if i :| 0 <= i < |lanes| && x in lanes[i] {
          assert i < |front| ==> x in front[i];
        }
      }
    }
  }
}
