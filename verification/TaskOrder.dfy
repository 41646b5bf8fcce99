/** taskCmprSched of cSched.hpp and what serving the queue in its order costs in reconfigurations. */
module TaskOrder {
  import opened Collections

  /** cLoad. */
  datatype Load = Load(cpid: int, oid: int, priority: nat)

  /** The comparator: true when `a` is to be served after `b`. */
  predicate Less(priority: bool, reorder: bool, a: Load, b: Load) {
    if priority && a.priority < b.priority then true
    else reorder && a.priority == b.priority && a.oid > b.oid
  }

  // ----- The comparator as an order -----

  ghost predicate Incomparable(priority: bool, reorder: bool, a: Load, b: Load) {
    !Less(priority, reorder, a, b) && !Less(priority, reorder, b, a)
  }

  /** What std::priority_queue demands of a comparator. */
  ghost predicate StrictWeakOrder(priority: bool, reorder: bool) {
    && (forall a :: !Less(priority, reorder, a, a))
    && (forall a, b, c :: Less(priority, reorder, a, b) && Less(priority, reorder, b, c) ==>
          Less(priority, reorder, a, c))
    && (forall a, b, c :: Incomparable(priority, reorder, a, b) && Incomparable(priority, reorder, b, c)
                          ==> Incomparable(priority, reorder, a, c))
  }

  /** Reordering without priorities is the one setting that is no strict weak order: requests of
      different priority are incomparable to each other, but their oids are not. */
  lemma StrictWeakOrderIff(priority: bool, reorder: bool)
    ensures StrictWeakOrder(priority, reorder) <==> priority || !reorder
  {
    if reorder && !priority {
      var a, b, c := Load(0, 1, 0), Load(0, 0, 1), Load(0, 0, 0);
      assert Incomparable(priority, reorder, a, b) && Incomparable(priority, reorder, b, c);
      assert !Incomparable(priority, reorder, a, c);
    }
  }

  // ----- Serving a queue -----

  /** Nothing in the queue is to be served before element `i`. */
  ghost predicate IsTop(priority: bool, reorder: bool, q: seq<Load>, i: nat)
    requires i < |q|
  {
    forall j :: 0 <= j < |q| ==> !Less(priority, reorder, q[i], q[j])
  }

  function Without<T>(q: seq<T>, i: nat): (r: seq<T>)
    requires i < |q|
    ensures |r| == |q| - 1
  {
    q[..i] + q[i + 1..]
  }

  lemma WithoutMultiset<T>(q: seq<T>, i: nat)
    requires i < |q|
    ensures multiset(q) == multiset(Without(q, i)) + multiset{q[i]}
  {
    assert q == q[..i] + [q[i]] + q[i + 1..];
  }

  /** `order` is a way to serve the whole queue, always taking a top element. */
  ghost predicate Served(priority: bool, reorder: bool, q: seq<Load>, order: seq<Load>)
    decreases |q|
  {
    if q == [] then order == [] else
      order != [] && exists i :: 0 <= i < |q| && IsTop(priority, reorder, q, i) && order[0] == q[i]
                                 && Served(priority, reorder, Without(q, i), order[1..])
  }

  /** Priorities descend, and oids ascend within a priority. */
  ghost predicate Sorted(order: seq<Load>) {
    forall i, j :: 0 <= i < j < |order| ==>
      order[i].priority > order[j].priority || (order[i].priority == order[j].priority && order[i].oid <= order[j].oid)
  }

  /** The first request served is a top one, and the others are served in the order of the rest. */
  lemma ServedHead(priority: bool, reorder: bool, q: seq<Load>, order: seq<Load>) returns (i: nat)
    requires Served(priority, reorder, q, order) && q != []
    ensures order != [] && i < |q| && IsTop(priority, reorder, q, i) && order[0] == q[i]
    ensures |Without(q, i)| < |q| && Served(priority, reorder, Without(q, i), order[1..])
  {
    i :| 0 <= i < |q| && IsTop(priority, reorder, q, i) && order[0] == q[i]
         && Served(priority, reorder, Without(q, i), order[1..]);
  }

  lemma {:induction false} ServedPermutes(priority: bool, reorder: bool, q: seq<Load>, order: seq<Load>)
    requires Served(priority, reorder, q, order)
    ensures multiset(order) == multiset(q)
    decreases |q|
  {
    if q != [] {
      var i := ServedHead(priority, reorder, q, order);
      ServedPermutes(priority, reorder, Without(q, i), order[1..]);
      WithoutMultiset(q, i);
      assert order == [order[0]] + order[1..];
    }
  }

  /** No request comes before one of higher priority, if priorities count, nor, if requests are reordered, before one
      of the same priority and a smaller oid. */
  ghost predicate Follows(priority: bool, reorder: bool, order: seq<Load>) {
    forall i, j :: 0 <= i < j < |order| ==>
      && !(priority && order[i].priority < order[j].priority)
      && !(reorder && order[i].priority == order[j].priority && order[i].oid > order[j].oid)
  }

  lemma TopFirst(priority: bool, reorder: bool, q: seq<Load>, i: nat, order: seq<Load>)
    requires i < |q| && order != [] && order[0] == q[i] && multiset(order) == multiset(q)
    ensures IsTop(priority, reorder, q, i)
            <==> forall j :: 0 < j < |order| ==> !Less(priority, reorder, order[0], order[j])
  {
    hide Less;
    NotBeforeItself(priority, reorder, q[i]);
    if IsTop(priority, reorder, q, i) {
      forall j | 0 < j < |order| ensures !Less(priority, reorder, order[0], order[j]) {
        var k := Place(order, q, j);
      }
    } else {
      var k :| 0 <= k < |q| && Less(priority, reorder, q[i], q[k]);
      var j := Place(q, order, k);
    }
  }

  lemma NotBeforeItself(priority: bool, reorder: bool, a: Load)
    ensures !Less(priority, reorder, a, a)
  {
  }

  lemma Place(a: seq<Load>, b: seq<Load>, j: nat) returns (k: nat)
    requires j < |a| && multiset(a) == multiset(b)
    ensures k < |b| && b[k] == a[j]
  {
    assert a[j] in multiset(b);
    k :| 0 <= k < |b| && b[k] == a[j];
  }

  lemma FollowsHead(priority: bool, reorder: bool, order: seq<Load>)
    requires order != []
    ensures Follows(priority, reorder, order) <==>
      && (forall j :: 0 < j < |order| ==> !Less(priority, reorder, order[0], order[j]))
      && Follows(priority, reorder, order[1..])
  {
    var rest := order[1..];
    assert forall i :: 0 <= i < |rest| ==> rest[i] == order[i + 1];
    if && Follows(priority, reorder, rest)
       && forall j :: 0 < j < |order| ==> !Less(priority, reorder, order[0], order[j]) {
      forall i, j | 0 <= i < j < |order|
        ensures !(priority && order[i].priority < order[j].priority)
        ensures !(reorder && order[i].priority == order[j].priority && order[i].oid > order[j].oid)
      {
        if i > 0 {
          assert order[i] == rest[i - 1] && order[j] == rest[j - 1];
        }
      }
    }
  }

  lemma ServedStep(priority: bool, reorder: bool, q: seq<Load>, order: seq<Load>, i: nat)
    requires order != [] && i < |q| && IsTop(priority, reorder, q, i) && order[0] == q[i]
    requires Served(priority, reorder, Without(q, i), order[1..])
    ensures Served(priority, reorder, q, order)
  {
  }

  lemma RestPermutes(q: seq<Load>, order: seq<Load>, i: nat)
    requires order != [] && i < |q| && order[0] == q[i]
    ensures multiset(order) == multiset(q) <==> multiset(order[1..]) == multiset(Without(q, i))
  {
    WithoutMultiset(q, i);
    assert order == [order[0]] + order[1..];
    assert multiset(order) == multiset(order[1..]) + multiset{q[i]};
    assert multiset(order[1..]) == multiset(order) - multiset{q[i]};
    assert multiset(Without(q, i)) == multiset(q) - multiset{q[i]};
  }

  /** In every setting: the orders in which a queue can be served are exactly its permutations that follow the
      priorities and oids the setting asks for. */
  lemma {:induction false} ServedIff(priority: bool, reorder: bool, q: seq<Load>, order: seq<Load>)
    ensures Served(priority, reorder, q, order)
            <==> multiset(order) == multiset(q) && Follows(priority, reorder, order)
    decreases |order|
  {
    if Served(priority, reorder, q, order) {
      ServedPermutes(priority, reorder, q, order);
    }
    if order == [] {
      Empty(q);
    } else if Served(priority, reorder, q, order) && q != [] {
      var i := ServedHead(priority, reorder, q, order);
      ServedIff(priority, reorder, Without(q, i), order[1..]);
      TopFirst(priority, reorder, q, i, order);
      FollowsHead(priority, reorder, order);
    } else if multiset(order) == multiset(q) && Follows(priority, reorder, order) {
      assert order[0] in multiset(q);
      var i :| 0 <= i < |q| && q[i] == order[0];
      FollowsHead(priority, reorder, order);
      TopFirst(priority, reorder, q, i, order);
      RestPermutes(q, order, i);
      ServedIff(priority, reorder, Without(q, i), order[1..]);
      ServedStep(priority, reorder, q, order, i);
    }
  }

  lemma Empty(q: seq<Load>)
    ensures multiset(q) == multiset{} <==> q == []
  {
    if q != [] {
      assert q[0] in multiset(q);
    }
  }

  lemma ServedSorted(q: seq<Load>, order: seq<Load>)
    requires Served(true, true, q, order)
    ensures Sorted(order)
  {
    hide Served;
    ServedIff(true, true, q, order);
  }

  // ----- Reconfigurations -----

  /** How often the loaded operator changes when the requests are served in this order. */
  function Reconfigs(curr: int, order: seq<Load>): nat
    decreases |order|
  {
    if order == [] then 0
    else (if curr != order[0].oid then 1 else 0) + Reconfigs(order[0].oid, order[1..])
  }

  ghost function Pairs(order: seq<Load>): set<(nat, int)> {
    if order == [] then {} else {(order[0].priority, order[0].oid)} + Pairs(order[1..])
  }

  ghost function Oids(order: seq<Load>): set<int> {
    if order == [] then {} else {order[0].oid} + Oids(order[1..])
  }

  lemma {:induction false} PairsOf(order: seq<Load>, pair: (nat, int)) returns (i: nat)
    requires pair in Pairs(order)
    ensures i < |order| && pair == (order[i].priority, order[i].oid)
  {
    if pair == (order[0].priority, order[0].oid) {
      i := 0;
    } else {
      i := PairsOf(order[1..], pair);
      i := i + 1;
    }
  }

  lemma {:induction false} OidsOf(order: seq<Load>, oid: int) returns (i: nat)
    requires oid in Oids(order)
    ensures i < |order| && oid == order[i].oid
  {
    if oid == order[0].oid {
      i := 0;
    } else {
      i := OidsOf(order[1..], oid);
      i := i + 1;
    }
  }

  lemma SortedTail(order: seq<Load>)
    requires Sorted(order) && order != []
    ensures Sorted(order[1..])
  {
  }

  /** In sorted order every (priority, oid) pair is loaded at most once. */
  lemma {:induction false} SortedReconfigs(curr: int, order: seq<Load>)
    requires Sorted(order) && order != []
    ensures 1 + Reconfigs(order[0].oid, order[1..]) <= |Pairs(order)|
    ensures Reconfigs(curr, order) <= |Pairs(order)|
    decreases |order|
  {
    var x, rest := order[0], order[1..];
    if rest != [] {
      SortedTail(order);
      SortedReconfigs(x.oid, rest);
      if (x.priority, x.oid) in Pairs(rest) {
        var i := PairsOf(rest, (x.priority, x.oid));
        assert order[i + 1] == rest[i] && order[1] == rest[0];
        assert rest[0].oid == x.oid;
        assert Pairs(order) == Pairs(rest);
      }
    }
  }

  /** Serving a batch with priorities and reordering on costs at most one reconfiguration for each
      (priority, oid) pair in it. */
  lemma BatchReconfigs(curr: int, q: seq<Load>, order: seq<Load>)
    requires Served(true, true, q, order)
    ensures Sorted(order) && multiset(order) == multiset(q)
    ensures Reconfigs(curr, order) <= |Pairs(order)|
  {
    ServedSorted(q, order);
    ServedPermutes(true, true, q, order);
    if order != [] {
      SortedReconfigs(curr, order);
    }
  }

  ghost predicate OnePriority(order: seq<Load>) {
    forall i, j :: 0 <= i < j < |order| ==> order[i].priority == order[j].priority
  }

  lemma {:induction false} SortedOids(order: seq<Load>)
    requires Sorted(order) && OnePriority(order) && order != []
    ensures 1 + Reconfigs(order[0].oid, order[1..]) == |Oids(order)|
    decreases |order|
  {
    var x, rest := order[0], order[1..];
    if rest != [] {
      SortedTail(order);
      SortedOids(rest);
      if x.oid in Oids(rest) {
        var i := OidsOf(rest, x.oid);
        assert order[i + 1] == rest[i] && order[1] == rest[0];
        assert rest[0].oid == x.oid;
        assert Oids(order) == Oids(rest);
      } else {
        assert rest[0].oid in Oids(rest);
      }
    }
  }

  /** No order can do with fewer reconfigurations than there are operators to load. */
  lemma {:induction false} ReconfigsAtLeast(curr: int, order: seq<Load>)
    ensures Reconfigs(curr, order) >= |Oids(order) - {curr}|
    decreases |order|
  {
    if order != [] {
      var x, rest := order[0], order[1..];
      ReconfigsAtLeast(x.oid, rest);
      assert Oids(order) - {curr} == (Oids(rest) - {x.oid} - {curr}) + ({x.oid} - {curr});
      SubsetSize(Oids(rest) - {x.oid} - {curr}, Oids(rest) - {x.oid});
    }
  }

  lemma {:induction false} OidsOfMultiset(a: seq<Load>, oid: int)
    ensures oid in Oids(a) <==> exists x :: x in multiset(a) && x.oid == oid
  {
    if a != [] {
      OidsOfMultiset(a[1..], oid);
      assert a == [a[0]] + a[1..];
    }
  }

  lemma SameOids(a: seq<Load>, b: seq<Load>)
    requires multiset(a) == multiset(b)
    ensures Oids(a) == Oids(b)
  {
    forall oid ensures oid in Oids(a) <==> oid in Oids(b) {
      OidsOfMultiset(a, oid);
      OidsOfMultiset(b, oid);
    }
  }

  /** For requests of one priority, starting with none of their operators loaded, the scheduler's
      order needs exactly one reconfiguration per operator, and no other order of the same requests
      needs fewer. */
  lemma ReconfigsOptimal(curr: int, q: seq<Load>, order: seq<Load>, other: seq<Load>)
    requires Served(true, true, q, order) && OnePriority(order) && curr !in Oids(order)
    requires multiset(other) == multiset(q)
    ensures Reconfigs(curr, order) == |Oids(order)| <= Reconfigs(curr, other)
  {
    BatchReconfigs(curr, q, order);
    if order != [] {
      SortedOids(order);
      assert order[0].oid in Oids(order);
    }
    SameOids(order, other);
    ReconfigsAtLeast(curr, other);
    assert Oids(other) - {curr} == Oids(other);
  }
}
