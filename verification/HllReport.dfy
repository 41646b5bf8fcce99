/** What the sketch reports, told by the lines it was given and the hashes of their values. */
module HllReport {
  import opened Arith
  import opened Collectors
  import opened HllSketch
  import opened DivideData
  import opened HllHistory
  import opened HllPipeline

  /** `v` takes part in batch `b`: it is in some lane of a line, and kept there if the line is the last one; or it is
      what the lane still had from the last line of the batch before, 0 in the first batch. */
  ghost predicate Fed(n: nat, done: seq<seq<Line>>, b: nat, v: nat)
    requires AllLines(n, done) && b < |done|
  {
    exists i: nat :: i < n && OnLane(n, done, b, i, v)
  }

  ghost predicate OnLane(n: nat, done: seq<seq<Line>>, b: nat, i: nat, v: nat)
    requires AllLines(n, done) && b < |done| && i < n
  {
    || (b == 0 && v == 0)
    || (b > 0 && v == done[b - 1][|done[b - 1]| - 1].vals[i])
    || exists j :: 0 <= j < |done[b]| && v == done[b][j].vals[i] && (j == |done[b]| - 1 ==> done[b][j].keep[i])
  }

  /** The k-th interval of 2^(h-p) hashes. */
  predicate InBucket(h: nat, p: nat, x: nat, k: nat)
    requires p <= h
  {
    k * Pow2(h - p) <= x < (k + 1) * Pow2(h - p)
  }

  /** Some value of the batch has its hash in the first 2^(h-p-r) of the k-th interval. */
  ghost predicate Reaches(h: nat, p: nat, hash: nat -> nat, n: nat, done: seq<seq<Line>>, b: nat, k: nat, r: nat)
    requires p <= h && r <= h - p && AllLines(n, done) && b < |done|
  {
    exists v :: Fed(n, done, b, v) && InBucket(h, p, hash(v), k) && hash(v) < k * Pow2(h - p) + Pow2(h - p - r)
  }

  lemma LaneValues(n: nat, done: seq<seq<Line>>, b: nat, i: nat, v: nat)
    requires AllLines(n, done) && b < |done| && i < n
    ensures v in LaneBatches(n, i, done)[b] <==> OnLane(n, done, b, i, v)
  {
    LeftoverFirst(n, i, done, b);
    hide LaneBatches;
    OwnValues(n, done[b], i, v);
  }

  lemma OwnValues(n: nat, batch: seq<Line>, i: nat, v: nat)
    requires batch != [] && Lines(n, batch) && i < n
    ensures v in OwnVals(i, batch)
      <==> exists j :: 0 <= j < |batch| && v == batch[j].vals[i] && (j == |batch| - 1 ==> batch[j].keep[i])
  {
    var own := OwnVals(i, batch);
    forall j | 0 <= j < |own| ensures own[j] == batch[j].vals[i] {
    }
    if j :| 0 <= j < |batch| && v == batch[j].vals[i] && (j == |batch| - 1 ==> batch[j].keep[i]) {
      assert own[j] == v;
    }
  }

  lemma ItemsAre(h: nat, p: nat, hash: nat -> nat, n: nat, done: seq<seq<Line>>, b: nat, x: KV<nat>)
    requires p <= h && AllLines(n, done) && b < |done|
    ensures x in AllItems(At(AllLanes(h, p, hash, n, done), b))
            <==> exists v :: Fed(n, done, b, v) && x == Ranked(h, p, hash(v))
  {
    hide Ranked, LaneBatches, OnLane;
    var lanes := At(AllLanes(h, p, hash, n, done), b);
    AllItemsOf(lanes);
    forall i: nat | i < n ensures lanes[i] == RankBatch(h, p, hash, LaneBatches(n, i, done)[b]) {
    }
    if x in AllItems(lanes) {
      var i: nat :| i < |lanes| && x in lanes[i];
      var vals := LaneBatches(n, i, done)[b];
      var j :| 0 <= j < |vals| && x == Ranked(h, p, hash(vals[j]));
      LaneValues(n, done, b, i, vals[j]);
      assert Fed(n, done, b, vals[j]);
    }
    if v :| Fed(n, done, b, v) && x == Ranked(h, p, hash(v)) {
      var i: nat :| i < n && OnLane(n, done, b, i, v);
      LaneValues(n, done, b, i, v);
      var vals := LaneBatches(n, i, done)[b];
      var j :| 0 <= j < |vals| && vals[j] == v;
      assert lanes[i][j] == x;
    }
  }

  lemma ReachesIff(h: nat, p: nat, hash: nat -> nat, n: nat, done: seq<seq<Line>>, b: nat, k: nat, r: nat)
    requires p <= h && r <= h - p && Hashes(h, hash) && AllLines(n, done) && b < |done|
    ensures Reaches(h, p, hash, n, done, b, k, r)
      <==> exists x :: x in AllItems(At(AllLanes(h, p, hash, n, done), b)) && x.key == k && x.val > r
  {
    hide Ranked, Pow2, AllLines, Fed, AllItems, AllLanes;
    if v :| Fed(n, done, b, v) && InBucket(h, p, hash(v), k) && hash(v) < k * Pow2(h - p) + Pow2(h - p - r) {
      RankedIff(h, p, hash(v), k, r);
      ItemsAre(h, p, hash, n, done, b, Ranked(h, p, hash(v)));
    }
    if x :| x in AllItems(At(AllLanes(h, p, hash, n, done), b)) && x.key == k && x.val > r {
      ItemsAre(h, p, hash, n, done, b, x);
      var v :| Fed(n, done, b, v) && x == Ranked(h, p, hash(v));
      RankedIff(h, p, hash(v), k, r);
      assert InBucket(h, p, hash(v), k);
    }
  }

  ghost function Zeros(ranks: seq<nat>, n: nat): set<nat>
    requires n <= |ranks|
  {
    set k: nat | k < n && ranks[k] == 0
  }

  lemma {:induction false} ZerosCount(ranks: seq<nat>)
    ensures CountZeros(ranks) == |Zeros(ranks, |ranks|)|
  {
    if ranks != [] {
      var n := |ranks| - 1;
      ZerosCount(ranks[..n]);
      var before := Zeros(ranks[..n], n);
      assert n !in before;
      assert Zeros(ranks, n + 1) == before + if ranks[n] == 0 then {n} else {};
    }
  }

  /** The ranks of a batch, its empty buckets and their exact sum, whatever lane and order its values came in:
      the rank of bucket k exceeds r if and only if the hash of some value lies in the first 2^(h-p-r) of the k-th
      interval, `zeros` is the number of intervals without a hash, and `accu` the sum of 2^-rank over the reals, in
      units of 2^-(h-p+1), with 0 for a batch without values. */
  lemma ReportExact(h: nat, p: nat, hash: nat -> nat, n: nat, done: seq<seq<Line>>, b: nat, m: Metrics)
    returns (ranks: seq<nat>)
    requires p <= h && Hashes(h, hash) && AllLines(n, done) && b < |done|
    requires Reported(h, p, AllLanes(h, p, hash, n, done), b, m)
    ensures |ranks| == Pow2(p)
    ensures forall k, r :: 0 <= k < Pow2(p) && 0 <= r <= h - p ==>
      (ranks[k] > r <==> Reaches(h, p, hash, n, done, b, k, r))
    ensures m.zeros == |set k: nat | k < Pow2(p) && !Reaches(h, p, hash, n, done, b, k, 0)|
    ensures m.accu as real == if m.zeros == Pow2(p) then 0.0 else RealSum(ranks) * (Pow2(h - p + 1) as real)
  {
    hide Reaches, Ranked, AllLines, AllLanes, AllItems, BucketRanks, Pow2, Reported, CountZeros, RawSum, RealSum;
    hide Hashes;
    var lanes := At(AllLanes(h, p, hash, n, done), b);
    ReportRanks(h, p, hash, n, done, b, m);
    ranks := BucketRanks(Pow2(p), lanes);
    forall k, r | 0 <= k < Pow2(p) && 0 <= r <= h - p
      ensures ranks[k] > r <==> Reaches(h, p, hash, n, done, b, k, r)
    {
      ReachesIff(h, p, hash, n, done, b, k, r);
    }
    ZerosCount(ranks);
    assert Zeros(ranks, Pow2(p)) == set k: nat | k < Pow2(p) && !Reaches(h, p, hash, n, done, b, k, 0);
    RawSumIsReal(Frac(h, p), ranks);
  }
}
