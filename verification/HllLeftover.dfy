/** What the leftovers that divide_data emits do to the metrics of a batch. */
module HllLeftover {
  import opened Arith
  import opened Flits
  import opened Collectors
  import opened HllSketch
  import opened DivideData
  import opened HllHistory
  import opened HllPipeline

  /** The lanes with one more item in front of each. */
  function WithExtra(extra: seq<KV<nat>>, own: seq<seq<KV<nat>>>): (r: seq<seq<KV<nat>>>)
    requires |extra| == |own|
    ensures |r| == |own|
  {
    seq(|own|, i requires 0 <= i < |own| => [extra[i]] + own[i])
  }

  /** Some item has the bucket of x and at least its rank. */
  ghost predicate Covered(items: set<KV<nat>>, x: KV<nat>) {
    exists y :: y in items && y.key == x.key && y.val >= x.val
  }

  lemma ItemsWithExtra(extra: seq<KV<nat>>, own: seq<seq<KV<nat>>>)
    requires |extra| == |own|
    ensures AllItems(WithExtra(extra, own)) == AllItems(own) + Items(extra)
  {
    var all := WithExtra(extra, own);
    AllItemsOf(all);
    AllItemsOf(own);
    forall x ensures x in AllItems(all) <==> x in AllItems(own) || x in extra {
      if x in AllItems(all) {
        var i :| 0 <= i < |all| && x in all[i];
        assert x == extra[i] || x in own[i];
      }
      if x in AllItems(own) {
        var i :| 0 <= i < |own| && x in own[i];
        assert x in all[i];
      }
      if x in extra {
        var i :| 0 <= i < |extra| && extra[i] == x;
        assert all[i][0] == x;
      }
    }
  }

  /** More items never lower the rank of a bucket. */
  lemma RanksGrow(extra: seq<KV<nat>>, own: seq<seq<KV<nat>>>, k: nat)
    requires |extra| == |own|
    ensures MaxOver(Row(own, k)) <= MaxOver(Row(WithExtra(extra, own), k))
    ensures (forall i :: 0 <= i < |extra| ==> Covered(AllItems(own), extra[i])) ==>
      MaxOver(Row(own, k)) == MaxOver(Row(WithExtra(extra, own), k))
  {
    hide *;
    ItemsWithExtra(extra, own);
    MergeIsMaxRank(own, k);
    MergeIsMaxRank(WithExtra(extra, own), k);
    MaxRankGrows(MaxOver(Row(own, k)), MaxOver(Row(WithExtra(extra, own), k)), AllItems(own), extra, k);
  }

  lemma MaxRankGrows(r: nat, s: nat, items: set<KV<nat>>, extra: seq<KV<nat>>, k: nat)
    requires IsMaxRank(r, items, k) && IsMaxRank(s, items + Items(extra), k)
    ensures r <= s
    ensures (forall i :: 0 <= i < |extra| ==> Covered(items, extra[i])) ==> r == s
  {
  }

  /** The extra items leave every bucket's rank as it is exactly when each of them is covered. */
  lemma ExtraRanksIff(size: nat, extra: seq<KV<nat>>, own: seq<seq<KV<nat>>>)
    requires |extra| == |own| && forall i :: 0 <= i < |extra| ==> extra[i].key < size && extra[i].val > 0
    ensures BucketRanks(size, WithExtra(extra, own)) == BucketRanks(size, own)
      <==> forall i :: 0 <= i < |extra| ==> Covered(AllItems(own), extra[i])
    ensures forall k :: 0 <= k < size ==> BucketRanks(size, own)[k] <= BucketRanks(size, WithExtra(extra, own))[k]
  {
    var all := WithExtra(extra, own);
    var a, b := BucketRanks(size, own), BucketRanks(size, all);
    forall k | 0 <= k < size
      ensures a[k] <= b[k] && ((forall i :: 0 <= i < |extra| ==> Covered(AllItems(own), extra[i])) ==> a[k] == b[k])
    {
      RanksGrow(extra, own, k);
    }
    if a == b {
      forall i | 0 <= i < |extra| ensures Covered(AllItems(own), extra[i]) {
        MergeIsMaxRank(own, extra[i].key);
        MergeIsMaxRank(all, extra[i].key);
        ItemsWithExtra(extra, own);
        assert extra[i] in AllItems(all);
        assert a[extra[i].key] == b[extra[i].key] >= extra[i].val;
      }
    }
  }

  lemma SumsLast(frac: nat, a: seq<nat>)
    requires a != [] && InRanks(frac, a)
    ensures var m := |a| - 1;
      && InRanks(frac, a[..m]) && a == a[..m] + [a[m]]
      && RawSum(frac, a) == RawSum(frac, a[..m]) + Pow2(frac - a[m])
      && CountZeros(a) == CountZeros(a[..m]) + if a[m] == 0 then 1 else 0
  {
    hide Pow2;
  }

  /** Higher ranks give a smaller sum; the same sum only from the same ranks. */
  lemma {:induction false} RawSumShrinks(frac: nat, a: seq<nat>, b: seq<nat>)
    requires |a| == |b| && InRanks(frac, a) && InRanks(frac, b) && forall k :: 0 <= k < |a| ==> a[k] <= b[k]
    ensures RawSum(frac, b) <= RawSum(frac, a) && (RawSum(frac, a) == RawSum(frac, b) ==> a == b)
    ensures CountZeros(b) <= CountZeros(a)
  {
    if a != [] {
      hide Pow2, RawSum, CountZeros;
      var m := |a| - 1;
      var a0, b0 := a[..m], b[..m];
      SumsLast(frac, a);
      SumsLast(frac, b);
      RawSumShrinks(frac, a0, b0);
      Pow2Mono(frac - b[m], frac - a[m]);
    }
  }

  /** With the ranks only higher, the metrics are the same only when the ranks are. */
  lemma MetricsTell(h: nat, p: nat, a: seq<nat>, b: seq<nat>)
    requires p <= h && |a| == |b| == Pow2(p) && InRanks(Frac(h, p), a) && InRanks(Frac(h, p), b)
    requires forall k :: 0 <= k < |a| ==> a[k] <= b[k]
    ensures MetricsOf(h, p, a) == MetricsOf(h, p, b) <==> a == b
  {
    RawSumShrinks(Frac(h, p), a, b);
    AccumulatorExact(h, p, a);
    AccumulatorExact(h, p, b);
    hide Wrap, Pow2, RawSum;
    if CountZeros(a) == |a| && CountZeros(b) == |b| {
      AllZero(a);
      AllZero(b);
    } else if MetricsOf(h, p, a) == MetricsOf(h, p, b) {
      assert CountZeros(a) == CountZeros(b);
    }
  }

  lemma {:induction false} AllZero(ranks: seq<nat>)
    requires CountZeros(ranks) == |ranks|
    ensures ranks == seq(|ranks|, i => 0)
  {
    if ranks != [] {
      AllZero(ranks[..|ranks| - 1]);
      assert ranks == ranks[..|ranks| - 1] + [ranks[|ranks| - 1]];
    }
  }

  // ----- The leftovers -----

  /** The ranked items that the lanes themselves keep of a batch. */
  function OwnItems(h: nat, p: nat, hash: nat -> nat, n: nat, batch: seq<Line>): (r: seq<seq<KV<nat>>>)
    requires p <= h && batch != [] && Lines(n, batch)
    ensures |r| == n
  {
    seq(n, i requires 0 <= i < n => RankBatch(h, p, hash, OwnVals(i, batch)))
  }

  /** The ranked leftovers before batch `b`. */
  function Leftovers(h: nat, p: nat, hash: nat -> nat, n: nat, before: seq<seq<Line>>): (r: seq<KV<nat>>)
    requires p <= h && AllLines(n, before)
    ensures |r| == n
  {
    seq(n, i requires 0 <= i < n => Ranked(h, p, hash(Leftover(i, before))))
  }

  lemma BatchIsOwnAndLeftover(h: nat, p: nat, hash: nat -> nat, n: nat, done: seq<seq<Line>>, b: nat)
    requires p <= h && AllLines(n, done) && b < |done|
    ensures AllLines(n, done[..b]) && done[b] != [] && Lines(n, done[b])
    ensures At(AllLanes(h, p, hash, n, done), b)
            == WithExtra(Leftovers(h, p, hash, n, done[..b]), OwnItems(h, p, hash, n, done[b]))
  {
    assert AllLines(n, done[..b]);
    hide Ranked, LaneBatches, OwnVals, Leftover, RankBatch;
    var left := At(AllLanes(h, p, hash, n, done), b);
    var right := WithExtra(Leftovers(h, p, hash, n, done[..b]), OwnItems(h, p, hash, n, done[b]));
    forall i | 0 <= i < n ensures left[i] == right[i] {
      LeftoverFirst(n, i, done, b);
      RankFirst(h, p, hash, Leftover(i, done[..b]), OwnVals(i, done[b]));
    }
  }

  lemma RankFirst(h: nat, p: nat, hash: nat -> nat, v: nat, own: seq<nat>)
    requires p <= h
    ensures RankBatch(h, p, hash, [v] + own) == [Ranked(h, p, hash(v))] + RankBatch(h, p, hash, own)
  {
    hide Ranked;
  }

  lemma OwnInRange(h: nat, p: nat, hash: nat -> nat, n: nat, batch: seq<Line>, k: nat)
    requires p <= h && Hashes(h, hash) && batch != [] && Lines(n, batch)
    ensures MaxOver(Row(OwnItems(h, p, hash, n, batch), k)) <= Frac(h, p)
  {
    hide Ranked, Hashes;
    var lanes := OwnItems(h, p, hash, n, batch);
    forall i | 0 <= i < n ensures Row(lanes, k)[i] <= Frac(h, p) {
      forall j | 0 <= j < |lanes[i]| ensures lanes[i][j].val <= Frac(h, p) {
        RanksInRange(h, p, hash, OwnVals(i, batch)[j]);
      }
      FoldInRange(Frac(h, p), lanes[i], k);
    }
    MaxOverBound(Row(lanes, k), Frac(h, p));
  }

  /** The metrics reported for a batch are those of its own items exactly when, for every lane, some
      item that any lane itself keeps of the batch has the bucket of the leftover and at least its
      rank.  Otherwise a value of the batch before, or the value 0 of the first batch, shows in them. */
  lemma LeftoverHarmlessIff(h: nat, p: nat, hash: nat -> nat, n: nat, done: seq<seq<Line>>, b: nat, m: Metrics)
    requires p <= h && Hashes(h, hash) && AllLines(n, done) && b < |done|
    requires Reported(h, p, AllLanes(h, p, hash, n, done), b, m)
    ensures AllLines(n, done[..b]) && done[b] != [] && Lines(n, done[b])
    ensures var own := OwnItems(h, p, hash, n, done[b]);
      && InRanks(Frac(h, p), BucketRanks(Pow2(p), own))
      && (m == MetricsOf(h, p, BucketRanks(Pow2(p), own))
          <==> forall i :: 0 <= i < n ==> Covered(AllItems(own), Leftovers(h, p, hash, n, done[..b])[i]))
  {
    BatchIsOwnAndLeftover(h, p, hash, n, done, b);
    var own, extra := OwnItems(h, p, hash, n, done[b]), Leftovers(h, p, hash, n, done[..b]);
    hide Ranked, LaneBatches, OwnItems, AllItems, MaxOver, Row, Covered, MetricsOf, RawSum, CountZeros, Pow2;
    forall k | 0 <= k < Pow2(p) ensures BucketRanks(Pow2(p), own)[k] <= Frac(h, p) {
      OwnInRange(h, p, hash, n, done[b], k);
    }
    forall i | 0 <= i < n ensures extra[i].key < Pow2(p) && extra[i].val > 0 {
      RanksInRange(h, p, hash, Leftover(i, done[..b]));
    }
    ExtraRanksIff(Pow2(p), extra, own);
    MetricsTell(h, p, BucketRanks(Pow2(p), own), BucketRanks(Pow2(p), WithExtra(extra, own)));
  }
}
