/** The flits of stream.hpp: user data with a batch boundary flag. */
module Flits {
  datatype Flit<T> = Flit(last: bool, val: T)

  /** The values of the finished batches of a stream and those of the unfinished one. */
  datatype Batches<T> = Batches(done: seq<seq<T>>, cur: seq<T>)

  function Split<T>(s: seq<Flit<T>>): Batches<T> {
    if s == [] then Batches([], []) else
      var b := Split(s[..|s| - 1]);
      var x := s[|s| - 1];
      if x.last then Batches(b.done + [b.cur + [x.val]], []) else Batches(b.done, b.cur + [x.val])
  }

  /** A batch with the flag on its final value only. */
  function Join<T>(batch: seq<T>): (r: seq<Flit<T>>)
    ensures |r| == |batch|
  {
    seq(|batch|, i requires 0 <= i < |batch| => Flit(i == |batch| - 1, batch[i]))
  }

  /** A batch that is still open. */
  function Open<T>(batch: seq<T>): (r: seq<Flit<T>>)
    ensures |r| == |batch|
  {
    seq(|batch|, i requires 0 <= i < |batch| => Flit(false, batch[i]))
  }

  lemma SplitSnoc<T>(s: seq<Flit<T>>, x: Flit<T>)
    ensures var b := Split(s);
      Split(s + [x]) == if x.last then Batches(b.done + [b.cur + [x.val]], []) else Batches(b.done, b.cur + [x.val])
  {
    assert (s + [x])[..|s|] == s;
  }

  lemma JoinOpen<T>(batch: seq<T>)
    requires batch != []
    ensures Join(batch) == Open(batch[..|batch| - 1]) + [Flit(true, batch[|batch| - 1])]
  {
  }

  lemma OpenSnoc<T>(s: seq<Flit<T>>, front: seq<T>, x: T)
    ensures s + Open(front + [x]) == (s + Open(front)) + [Flit(false, x)]
  {
  }

  lemma {:induction false} SplitOpen<T>(s: seq<Flit<T>>, batch: seq<T>)
    ensures Split(s + Open(batch)) == Batches(Split(s).done, Split(s).cur + batch)
    decreases |batch|
  {
    if batch == [] {
      assert s + Open(batch) == s;
    } else {
      var front, x := batch[..|batch| - 1], batch[|batch| - 1];
      SplitOpen(s, front);
      hide Split, Open;
      OpenSnoc(s, front, x);
      SplitSnoc(s + Open(front), Flit(false, x));
      assert batch == front + [x] && Split(s).cur + front + [x] == Split(s).cur + batch;
    }
  }

  /** Appending a joined batch to finished batches adds exactly that batch. */
  lemma SplitJoin<T>(s: seq<Flit<T>>, batch: seq<T>)
    requires Split(s).cur == [] && batch != []
    ensures Split(s + Join(batch)) == Batches(Split(s).done + [batch], [])
  {
    var front, x := batch[..|batch| - 1], batch[|batch| - 1];
    hide Split;
    JoinOpen(batch);
    SplitOpen(s, front);
    SplitSnoc(s + Open(front), Flit(true, x));
    assert s + Join(batch) == s + Open(front) + [Flit(true, x)];
    assert (Split(s).cur + front) + [x] == batch;
  }
}
