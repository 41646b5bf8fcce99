/** What a run of the scheduler of cSched.cpp costs in reconfigurations while it drains its queue. */
module SchedulerDrain {
  import opened TaskOrder
  import opened Scheduler
  import opened SchedulerProgress
  import opened SchedulerFaults

  /** The requests that the scheduler prepares the vFPGA for, in the order of the run. */
  ghost function Prepared(d: Device, s: State, acts: seq<Action>): seq<Load>
    requires Runnable(d, s, acts)
    decreases |acts|
  {
    if acts == [] then [] else
      (if acts[0].Reconfigure? then [s.pc.req] else []) + Prepared(d, Apply(d, s, acts[0]), acts[1..])
  }

  /** How often the run changes the operator it believes to be loaded. */
  ghost function Changes(d: Device, s: State, acts: seq<Action>): nat
    requires Runnable(d, s, acts)
    decreases |acts|
  {
    if acts == [] then 0 else
      var s1 := Apply(d, s, acts[0]);
      (if s1.currOid != s.currOid then 1 else 0) + Changes(d, s1, acts[1..])
  }

  /** Any run reconfigures as often as the order of its requests demands. */
  lemma {:induction false} ChangesAreReconfigs(d: Device, s: State, acts: seq<Action>)
    requires d.enPr && Runnable(d, s, acts)
    ensures Changes(d, s, acts) == Reconfigs(s.currOid, Prepared(d, s, acts))
    decreases |acts|
  {
    if acts != [] {
      var s1 := Apply(d, s, acts[0]);
      ChangesAreReconfigs(d, s1, acts[1..]);
      var rest := Prepared(d, s1, acts[1..]);
      assert [] + rest == rest;
      if acts[0].Reconfigure? {
        assert ([s.pc.req] + rest)[1..] == rest && s1.currOid == s.pc.req.oid;
      }
    }
  }

  /** A queue that is drained in a run without new requests is served in the order of the comparator. */
  ghost predicate Serves(o: Order, s: State, prepared: seq<Load>) {
    if s.pc.Popped? then
      prepared != [] && prepared[0] == s.pc.req && Served(o.priority, o.reorder, s.queue, prepared[1..])
    else Served(o.priority, o.reorder, s.queue, prepared)
  }

  lemma {:induction false} DrainServes(o: Order, d: Device, s: State, acts: seq<Action>, s': State)
    requires (o.priority || !o.reorder) && Runnable(d, s, acts) && AllInOrder(o, d, s, acts) && NoSubmit(acts)
    requires Runs(d, s, acts, s') && s'.queue == [] && !s'.pc.Popped?
    ensures Serves(o, s, Prepared(d, s, acts))
    decreases |acts|
  {
    if acts != [] {
      var a, s1 := acts[0], Apply(d, s, acts[0]);
      assert !a.Submit?;
      assert NoSubmit(acts[1..]);
      DrainServes(o, d, s1, acts[1..], s');
      var rest := Prepared(d, s1, acts[1..]);
      hide *;
      ServesStep(o, d, s, a, rest);
    }
  }

  lemma ServesStep(o: Order, d: Device, s: State, a: Action, rest: seq<Load>)
    requires (o.priority || !o.reorder) && Enabled(s, a) && InOrder(o, s, a) && !a.Submit?
    requires Serves(o, Apply(d, s, a), rest)
    ensures Serves(o, s, (if a.Reconfigure? then [s.pc.req] else []) + rest)
  {
    assert [] + rest == rest;
    match a
    case Pop(i) => assert rest[0] == s.queue[i];
    case Reconfigure => assert ([s.pc.req] + rest)[1..] == rest;
    case _ =>
  }

  /** Draining a batch with priorities and reordering on, however the clients behave in between: the vFPGA
      is reconfigured at most once for each (priority, oid) pair in it. */
  lemma DrainReconfigs(d: Device, s: State, acts: seq<Action>, s': State)
    requires d.enPr && s.pc.Idle? && Runnable(d, s, acts) && AllInOrder(Order(true, true), d, s, acts) && NoSubmit(acts)
    requires Runs(d, s, acts, s') && s'.queue == [] && !s'.pc.Popped?
    ensures var order := Prepared(d, s, acts);
      && Served(true, true, s.queue, order) && Changes(d, s, acts) == Reconfigs(s.currOid, order)
      && Changes(d, s, acts) <= |Pairs(order)|
      && (OnePriority(order) && s.currOid !in Oids(order) ==>
            Changes(d, s, acts) == |Oids(order)|
            && forall other :: multiset(other) == multiset(s.queue) ==>
              Changes(d, s, acts) <= Reconfigs(s.currOid, other))
  {
    var order := Prepared(d, s, acts);
    ChangesAreReconfigs(d, s, acts);
    DrainServes(Order(true, true), d, s, acts, s');
    hide *;
    ServedFrom(s, order);
    BatchReconfigs(s.currOid, s.queue, order);
    if OnePriority(order) && s.currOid !in Oids(order) {
      ReconfigsOptimal(s.currOid, s.queue, order, order);
      forall other: seq<Load> | multiset(other) == multiset(s.queue)
        ensures Changes(d, s, acts) <= Reconfigs(s.currOid, other)
      {
        ReconfigsOptimal(s.currOid, s.queue, order, other);
      }
    }
  }

  lemma ServedFrom(s: State, order: seq<Load>)
    requires s.pc.Idle? && Serves(Order(true, true), s, order)
    ensures Served(true, true, s.queue, order)
  {
  }
}
