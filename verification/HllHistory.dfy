/** What the stages of HllSketch.hpp and divide_data have passed on at any moment, as prefixes of what
    they pass on in the end. */
module HllHistory {
  import opened Arith
  import opened Flits
  import opened Collectors
  import opened HllSketch
  import opened DivideData

  // ----- Prefixes -----

  lemma {:induction false} SplitPrefix<T>(a: seq<Flit<T>>, b: seq<Flit<T>>)
    requires a <= b
    ensures Split(a).done <= Split(b).done
    decreases |b|
  {
    if a != b {
      SplitPrefix(a, b[..|b| - 1]);
    }
  }

  lemma RankPrefix(h: nat, p: nat, hash: nat -> nat, a: seq<seq<nat>>, b: seq<seq<nat>>)
    requires p <= h && a <= b
    ensures RankBatches(h, p, hash, a) <= RankBatches(h, p, hash, b)
  {
  }

  // ----- The items of a lane -----

  /** The ranked items of every finished batch on lane `i`. */
  function LaneItems(h: nat, p: nat, hash: nat -> nat, n: nat, done: seq<seq<Line>>, i: nat): (r: seq<seq<KV<nat>>>)
    requires p <= h && i < n && AllLines(n, done)
    ensures |r| == |done|
  {
    RankBatches(h, p, hash, LaneBatches(n, i, done))
  }

  function AllLanes(h: nat, p: nat, hash: nat -> nat, n: nat, done: seq<seq<Line>>): (r: seq<seq<seq<KV<nat>>>>)
    requires p <= h && AllLines(n, done)
    ensures |r| == n && forall i :: 0 <= i < n ==> |r[i]| == |done|
  {
    seq(n, i requires 0 <= i < n => LaneItems(h, p, hash, n, done, i))
  }

  /** A lane has sent the finished batches, or all but the end of the last one. */
  lemma LaneDone(n: nat, i: nat, flush: bool, held: Held, done: seq<seq<Line>>, cur: seq<Line>, sent: seq<Flit<nat>>)
    requires i < n && AllLines(n, done) && Lines(n, cur) && LaneInv(n, i, flush, held, done, cur, sent)
    ensures Split(sent).done <= LaneBatches(n, i, done)
    ensures !flush ==> Split(sent).done == LaneBatches(n, i, done)
  {
    hide LaneBatches;
    if flush && held.keep {
      SplitPrefix(sent, sent + [Flit(true, held.val)]);
    }
  }

  /** From the divider to the input of fold: what lane `i` has delivered is the beginning of the dumps
      of the finished batches, and all of it when nothing is on the way. */
  lemma LaneFeeds(h: nat, p: nat, hash: nat -> nat, n: nat, done: seq<seq<Line>>, i: nat,
                  sent: seq<Flit<nat>>, read: seq<Flit<nat>>, ranked: seq<Flit<KV<nat>>>, taken: seq<Flit<KV<nat>>>,
                  st: State, ptr: nat, buckets: seq<nat>, emitted: seq<Flit<nat>>)
    requires p <= h && i < n && AllLines(n, done) && Split(sent).done <= LaneBatches(n, i, done)
    requires read <= sent && RankStage(h, p, hash, read) == taken + ranked
    requires Agrees(MAX, 0, st, ptr, buckets, Split(taken), emitted)
    ensures emitted <= Dumps(MAX, 0, |buckets|, LaneItems(h, p, hash, n, done, i))
    ensures Split(sent).done == LaneBatches(n, i, done) && read == sent && ranked == [] && st == FEED ==>
      emitted == Dumps(MAX, 0, |buckets|, LaneItems(h, p, hash, n, done, i))
  {
    hide Split, Dumps, LaneBatches, RankStage, RankBatches, Agrees, AllLines;
    SplitPrefix(read, sent);
    SplitPrefix(taken, taken + ranked);
    RankKeepsBatches(h, p, hash, read);
    RankPrefix(h, p, hash, Split(read).done, LaneBatches(n, i, done));
    EmittedPrefix(MAX, 0, st, ptr, buckets, Split(taken), emitted);
    DumpsPrefix(MAX, 0, |buckets|, Split(taken).done, LaneItems(h, p, hash, n, done, i));
    assert ranked == [] ==> taken + ranked == taken;
  }

  // ----- Ranges -----

  ghost predicate ItemsInRange(frac: nat, batch: seq<KV<nat>>) {
    forall j :: 0 <= j < |batch| ==> batch[j].val <= frac
  }

  ghost predicate FlitsInRange(frac: nat, s: seq<Flit<nat>>) {
    forall j :: 0 <= j < |s| ==> s[j].val <= frac
  }

  lemma {:induction false} FoldInRange(frac: nat, batch: seq<KV<nat>>, k: nat)
    requires ItemsInRange(frac, batch)
    ensures FoldKey<nat>(MAX, 0, batch, k) <= frac
  {
    if batch != [] {
      FoldInRange(frac, batch[..|batch| - 1], k);
    }
  }

  lemma FlitsConcat(frac: nat, a: seq<Flit<nat>>, b: seq<Flit<nat>>)
    requires FlitsInRange(frac, a) && FlitsInRange(frac, b)
    ensures FlitsInRange(frac, a + b)
  {
  }

  lemma {:induction false} DumpsInRange(frac: nat, size: nat, batches: seq<seq<KV<nat>>>)
    requires forall b :: 0 <= b < |batches| ==> ItemsInRange(frac, batches[b])
    ensures FlitsInRange(frac, Dumps(MAX, 0, size, batches))
  {
    if batches != [] {
      var front, batch := batches[..|batches| - 1], batches[|batches| - 1];
      DumpsInRange(frac, size, front);
      var folds := Folds<nat>(MAX, 0, size, batch);
      forall k | 0 <= k < size ensures folds[k] <= frac {
        FoldInRange(frac, batch, k);
      }
      assert FlitsInRange(frac, Join(folds));
      FlitsConcat(frac, Dumps(MAX, 0, size, front), Join(folds));
    }
  }

  ghost predicate Hashes(h: nat, hash: nat -> nat) {
    forall v :: hash(v) < Pow2(h)
  }

  lemma RanksInRange(h: nat, p: nat, hash: nat -> nat, v: nat)
    requires p <= h && Hashes(h, hash)
    ensures Ranked(h, p, hash(v)).key < Pow2(p) && 1 <= Ranked(h, p, hash(v)).val <= Frac(h, p)
  {
    RankedExact(h, p, hash(v), 0);
  }

  lemma LaneInRange(h: nat, p: nat, hash: nat -> nat, n: nat, done: seq<seq<Line>>, i: nat)
    requires p <= h && i < n && AllLines(n, done) && Hashes(h, hash)
    ensures FlitsInRange(Frac(h, p), Dumps(MAX, 0, Pow2(p), LaneItems(h, p, hash, n, done, i)))
  {
    hide Ranked, Hashes, LaneBatches, Pow2, AllLines;
    var batches := LaneItems(h, p, hash, n, done, i);
    forall b | 0 <= b < |batches| ensures ItemsInRange(Frac(h, p), batches[b]) {
      forall j | 0 <= j < |batches[b]| ensures batches[b][j].val <= Frac(h, p) {
        RanksInRange(h, p, hash, LaneBatches(n, i, done)[b][j]);
      }
    }
    DumpsInRange(Frac(h, p), Pow2(p), batches);
  }

  // ----- The rows read by fold -----

  /** Rows whose columns are beginnings of streams of one length are the first rows of the streams. */
  lemma RowsPrefix(rows: seq<seq<Flit<nat>>>, streams: seq<seq<Flit<nat>>>, length: nat)
    requires |streams| > 0 && forall j :: 0 <= j < |rows| ==> |rows[j]| == |streams|
    requires forall i :: 0 <= i < |streams| ==> |streams[i]| == length && Column(rows, i) <= streams[i]
    ensures |rows| <= length && rows == Rows(length, streams)[..|rows|]
  {
    assert |Column(rows, 0)| <= |streams[0]|;
    forall j | 0 <= j < |rows| ensures rows[j] == Rows(length, streams)[j] {
      forall i | 0 <= i < |streams| ensures rows[j][i] == Rows(length, streams)[j][i] {
        assert Column(rows, i)[j] == streams[i][j];
      }
    }
  }

  lemma MergedPrefix(rows: seq<seq<Flit<nat>>>, all: seq<seq<Flit<nat>>>)
    requires rows <= all
    ensures Merged(rows) <= Merged(all)
  {
  }

  /** Whatever part of the lanes' dumps fold has read, its finished batches are the first ones of the
      bucket ranks of all batches. */
  lemma FoldedPrefix(size: nat, lanes: seq<seq<seq<KV<nat>>>>, n: nat, rows: seq<seq<Flit<nat>>>)
    requires size > 0 && |lanes| > 0 && forall i :: 0 <= i < |lanes| ==> |lanes[i]| == n
    requires forall j :: 0 <= j < |rows| ==> |rows[j]| == |lanes|
    requires forall i :: 0 <= i < |lanes| ==> Column(rows, i) <= Dumps(MAX, 0, size, lanes[i])
    ensures Split(Merged(rows)).done <= AllRanks(size, lanes, n)
    ensures |AllRanks(size, lanes, n)| == n
    ensures |rows| == n * size ==> Split(Merged(rows)).done == AllRanks(size, lanes, n)
  {
    var streams := DumpsOf(size, lanes);
    SketchRanks(size, lanes, n);
    AllRanksSize(size, lanes, n);
    hide Dumps, Split, Merged, AllRanks, DumpsOf;
    DumpsAre(size, lanes);
    MergedDone(rows, streams, n * size);
  }

  lemma DumpsAre(size: nat, lanes: seq<seq<seq<KV<nat>>>>)
    ensures |DumpsOf(size, lanes)| == |lanes|
    ensures forall i :: 0 <= i < |lanes| ==> DumpsOf(size, lanes)[i] == Dumps(MAX, 0, size, lanes[i])
  {
  }

  lemma MergedDone(rows: seq<seq<Flit<nat>>>, streams: seq<seq<Flit<nat>>>, length: nat)
    requires |streams| > 0 && forall j :: 0 <= j < |rows| ==> |rows[j]| == |streams|
    requires forall i :: 0 <= i < |streams| ==> |streams[i]| == length && Column(rows, i) <= streams[i]
    ensures Split(Merged(rows)).done <= Split(Merged(Rows(length, streams))).done
    ensures |rows| == length ==> Merged(rows) == Merged(Rows(length, streams))
  {
    RowsPrefix(rows, streams, length);
    var all := Rows(length, streams);
    hide Rows, Merged, Split, Column;
    MergedPrefix(rows, all);
    SplitPrefix(Merged(rows), Merged(all));
    assert |rows| == length ==> rows == all;
  }
}
