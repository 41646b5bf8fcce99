/** hls::stream: a queue.  Where it has a depth, a stage asks for room before it writes.  The ghost
    histories record everything ever written to and read from it; a stage is specified by what it
    wrote as a function of what it read, which makes its specification independent of when it is
    called. */
module Fifos {
  /** What a stage that takes at most one element takes from a queue. */
  function Next<T>(q: seq<T>): seq<T> {
    if q == [] then [] else [q[0]]
  }

  class Fifo<T> {
    var q: seq<T>
    ghost var pushed: seq<T>
    ghost var popped: seq<T>

    ghost predicate Valid()
      reads this
    {
      pushed == popped + q
    }

    constructor ()
      ensures Valid() && q == [] && pushed == [] && popped == []
    {
      q, pushed, popped := [], [], [];
    }

    method Read() returns (x: T)
      requires Valid() && q != []
      modifies this`q, this`popped
      ensures Valid() && x == old(q)[0] && q == old(q)[1..] && popped == old(popped) + [x]
    {
      x := q[0];
      q := q[1..];
      popped := popped + [x];
    }

    method Write(x: T)
      requires Valid()
      modifies this`q, this`pushed
      ensures Valid() && q == old(q) + [x] && pushed == old(pushed) + [x]
    {
      q := q + [x];
      pushed := pushed + [x];
    }
  }
}
