/** Without its conditions the scheduler of cSched.cpp lets two clients in at once: exactly a completion
    timeout, a request under a cpid that has one outstanding, and a call of pUnlock under the cpid of the
    client inside by another thread lead to a state from which some continuation does. */
module SchedulerFaults {
  import opened Options
  import opened TaskOrder
  import opened Scheduler
  import opened SchedulerProgress

  /** The two settings of the queue. */
  datatype Order = Order(priority: bool, reorder: bool)

  /** The queue delivers a top request, when its comparator lets it. */
  ghost predicate InOrder(o: Order, s: State, a: Action) {
    a.Pop? && a.i < |s.queue| && (o.priority || !o.reorder) ==> IsTop(o.priority, o.reorder, s.queue, a.i)
  }

  ghost predicate AllInOrder(o: Order, d: Device, s: State, acts: seq<Action>)
    decreases |acts|
  {
    acts == [] || (Enabled(s, acts[0]) && InOrder(o, s, acts[0]) && AllInOrder(o, d, Apply(d, s, acts[0]), acts[1..]))
  }

  /** Two clients are inside. */
  ghost predicate Collision(s: State) {
    exists t, u :: t in s.clients && u in s.clients && t != u && s.clients[t].Inside? && s.clients[u].Inside?
  }

  /** A continuation that keeps all conditions ends with two clients inside. */
  ghost predicate CanCollide(o: Order, d: Device, s: State) {
    exists acts, s' :: Runs(d, s, acts, s') && AllAllowed(d, s, acts) && AllInOrder(o, d, s, acts) && Collision(s')
  }

  lemma CollidesNow(o: Order, d: Device, s: State, t: nat, u: nat)
    requires t in s.clients && u in s.clients && t != u && s.clients[t].Inside? && s.clients[u].Inside?
    ensures CanCollide(o, d, s)
  {
    assert Runs(d, s, [], s) && AllAllowed(d, s, []) && AllInOrder(o, d, s, []);
  }

  lemma CollidesAfter(o: Order, d: Device, s: State, a: Action)
    requires Enabled(s, a) && Allowed(s, a) && InOrder(o, s, a) && CanCollide(o, d, Apply(d, s, a))
    ensures CanCollide(o, d, s)
  {
    hide Enabled, Allowed, InOrder, Apply, Collision;
    var s1 := Apply(d, s, a);
    var acts, s' :| Runs(d, s1, acts, s') && AllAllowed(d, s1, acts) && AllInOrder(o, d, s1, acts) && Collision(s');
    var all := [a] + acts;
    assert all[1..] == acts;
    assert Runs(d, s, all, s') && AllAllowed(d, s, all) && AllInOrder(o, d, s, all);
  }

  /** Under the invariant nothing can go wrong any more. */
  lemma InvIsSafe(o: Order, d: Device, s: State)
    requires Inv(s)
    ensures !CanCollide(o, d, s)
  {
    forall acts, s' | Runs(d, s, acts, s') && AllAllowed(d, s, acts) ensures !Collision(s') {
      RunKeeps(d, s, acts, s');
      assert DistinctCpids(s') && Exclusive(s');
    }
  }

  // ----- A top request, a fresh thread and a fresh cpid always exist -----

  lemma {:induction false} TopExists(o: Order, q: seq<Load>) returns (i: nat)
    requires q != []
    ensures i < |q| && IsTop(o.priority, o.reorder, q, i)
  {
    i := 0;
    if |q| > 1 {
      var k := |q| - 1;
      i := TopExists(o, q[..k]);
      assert forall j :: 0 <= j < k ==> q[..k][j] == q[j];
      i := if Less(o.priority, o.reorder, q[i], q[k]) then k else i;
    }
  }

  lemma {:induction false} FreshNumber(used: set<nat>) returns (x: nat)
    ensures x !in used && forall y :: y in used ==> y < x
  {
    if used == {} {
      x := 0;
    } else {
      var y :| y in used;
      var above := FreshNumber(used - {y});
      x := if above <= y then y + 1 else above;
      assert forall z :: z in used ==> z == y || z in used - {y};
    }
  }

  lemma FreshCpid(s: State) returns (cpid: int)
    ensures forall t :: t in s.clients ==> s.clients[t].load.cpid != cpid
  {
    var used := set t | t in s.clients && s.clients[t].load.cpid >= 0 :: s.clients[t].load.cpid as nat;
    cpid := FreshNumber(used);
    forall t | t in s.clients ensures s.clients[t].load.cpid != cpid {
      if s.clients[t].load.cpid >= 0 {
        assert s.clients[t].load.cpid as nat in used;
      }
    }
  }

  // ----- A timeout -----

  /** With a client inside and the scheduler idle, serving any waiting request lets a second one in. */
  lemma ServingCollides(o: Order, d: Device, s: State, t: nat)
    requires s.pc.Idle? && s.queue != [] && t in s.clients && s.clients[t].Inside?
    requires forall i :: 0 <= i < |s.queue| ==> IsWaiting(s, s.queue[i])
    ensures CanCollide(o, d, s)
  {
    var i := TopExists(o, s.queue);
    var u :| u in s.clients && s.clients[u] == Waiting(s.queue[i]);
    var s1 := Apply(d, s, Pop(i));
    var s2 := Apply(d, s1, Reconfigure);
    var s3 := Apply(d, s2, Grant);
    var s4 := Apply(d, s3, Enter(u));
    assert Enabled(s3, Enter(u)) && s4.clients[t].Inside? && s4.clients[u].Inside?;
    hide Apply, Enabled, CanCollide, IsTop;
    CollidesNow(o, d, s4, t, u);
    CollidesAfter(o, d, s3, Enter(u));
    CollidesAfter(o, d, s2, Grant);
    CollidesAfter(o, d, s1, Reconfigure);
    CollidesAfter(o, d, s, Pop(i));
  }

  /** Idle with a client inside: when nothing is queued, a new request can come. */
  lemma InsideCollides(o: Order, d: Device, s: State, t: nat, load: Load)
    requires s.pc.Idle? && t in s.clients && s.clients[t].Inside?
    requires forall i :: 0 <= i < |s.queue| ==> IsWaiting(s, s.queue[i])
    ensures CanCollide(o, d, s)
  {
    if s.queue != [] {
      ServingCollides(o, d, s, t);
    } else {
      var u := FreshNumber(s.clients.Keys);
      var cpid := FreshCpid(s);
      var a := Submit(u, load.(cpid := cpid));
      var s1 := Apply(d, s, a);
      assert s1.clients[u] == Waiting(a.load) && s1.queue == [a.load];
      assert IsWaiting(s1, a.load);
      ServingCollides(o, d, s1, t);
      CollidesAfter(o, d, s, a);
    }
  }

  /** After a timeout in any state, whether or not the client has entered and whether or not another
      request is queued. */
  lemma TimeoutCollides(o: Order, d: Device, s: State)
    requires Inv(s) && Enabled(s, Timeout)
    ensures CanCollide(o, d, Apply(d, s, Timeout))
  {
    var t :| t in s.clients && s.clients[t].load == s.pc.req;
    var s1 := Apply(d, s, Timeout);
    assert forall i :: 0 <= i < |s1.queue| ==> IsWaiting(s1, s1.queue[i]) by {
      WaitingStays(s, s1);
    }
    if s.clients[t].Inside? {
      InsideCollides(o, d, s1, t, s.pc.req);
    } else {
      var s2 := Apply(d, s1, Enter(t));
      forall i | 0 <= i < |s2.queue| ensures IsWaiting(s2, s2.queue[i]) {
        var u :| u in s1.clients && s1.clients[u] == Waiting(s1.queue[i]);
        assert u != t;
        assert s2.clients[u] == Waiting(s2.queue[i]);
      }
      InsideCollides(o, d, s2, t, s.pc.req);
      CollidesAfter(o, d, s1, Enter(t));
    }
  }

  lemma WaitingStays(s: State, s': State)
    requires AllWaiting(s) && s'.clients == s.clients && s'.queue == s.queue
    ensures forall i :: 0 <= i < |s'.queue| ==> IsWaiting(s', s'.queue[i])
  {
    forall i | 0 <= i < |s'.queue| ensures IsWaiting(s', s'.queue[i]) {
      assert IsWaiting(s, s.queue[i]);
      var t :| t in s.clients && s.clients[t] == Waiting(s.queue[i]);
      assert s'.clients[t] == Waiting(s'.queue[i]);
    }
  }

  // ----- A second request under an outstanding cpid -----

  /** Two clients under cpid `c`, the first one still waiting, and nobody else under it; a request of theirs
      is queued, in hand or granted.  The rest is as the invariant demands for other cpids. */
  ghost predicate Doubled(s: State, c: int, t: nat, u: nat) {
    && t in s.clients && u in s.clients && t != u && s.clients[t].load.cpid == c == s.clients[u].load.cpid
    && s.clients[t].Waiting? && (s.clients[u].Inside? ==> s.currRun && s.currCpid == c)
    && OthersDistinct(s, c, t, u) && OthersWait(s, c) && RunsFor(s, c, t, u)
    && (Queued(s, c) || (!s.pc.Idle? && s.pc.req.cpid == c && (s.pc.Granted? ==> s.currRun)))
  }

  ghost predicate Queued(s: State, c: int) {
    exists i :: 0 <= i < |s.queue| && s.queue[i].cpid == c
  }

  ghost predicate OthersDistinct(s: State, c: int, t: nat, u: nat) {
    && (forall v :: v in s.clients && v != t && v != u ==> s.clients[v].load.cpid != c)
    && (forall v, w :: v in s.clients && w in s.clients && v != w && s.clients[v].load.cpid == s.clients[w].load.cpid
          ==> s.clients[v].load.cpid == c)
    && (forall i, j :: 0 <= i < j < |s.queue| && s.queue[i].cpid == s.queue[j].cpid ==> s.queue[i].cpid == c)
    && (!s.pc.Idle? && (s.pc.Granted? ==> s.currRun) && s.pc.req.cpid != c ==>
          forall i :: 0 <= i < |s.queue| ==> s.queue[i].cpid != s.pc.req.cpid)
  }

  ghost predicate OthersWait(s: State, c: int) {
    && (forall i :: 0 <= i < |s.queue| && s.queue[i].cpid != c ==> IsWaiting(s, s.queue[i]))
    && (s.pc.Popped? || s.pc.Locked? ==> s.pc.req.cpid != c ==> IsWaiting(s, s.pc.req))
  }

  ghost predicate RunsFor(s: State, c: int, t: nat, u: nat) {
    && (s.currRun ==> s.pc.Granted? && s.currCpid == s.pc.req.cpid && (s.pc.req.cpid != c ==> HasClient(s, s.pc.req)))
    && (forall v :: v in s.clients && v != t && v != u && s.clients[v].Inside? ==>
          s.currRun && s.clients[v].load == s.pc.req)
  }

  /** The next step towards the grant of a request under `c`. */
  ghost predicate Towards(s: State, c: int, a: Action) {
    match a
    case Pop(i) => true
    case Reconfigure => true
    case Grant => true
    case Complete => true
    case Enter(v) => v in s.clients && s.clients[v].load.cpid != c
    case Leave(v) => v in s.clients && s.clients[v].load.cpid != c
    case _ => false
  }

  ghost predicate Steady(d: Device, s: State, c: int, t: nat, u: nat, a: Action) {
    Doubled(s, c, t, u) && !(s.currRun && s.currCpid == c) && Enabled(s, a) && Towards(s, c, a)
  }

  lemma DistinctStays(d: Device, s: State, c: int, t: nat, u: nat, a: Action)
    requires Steady(d, s, c, t, u, a)
    ensures OthersDistinct(Apply(d, s, a), c, t, u)
  {
    hide OthersWait;
    var s' := Apply(d, s, a);
    if a.Pop? {
      assert forall j :: 0 <= j < |s'.queue| ==> s'.queue[j] == s.queue[if j < a.i then j else j + 1];
    }
  }

  lemma WaitStays(d: Device, s: State, c: int, t: nat, u: nat, a: Action)
    requires Steady(d, s, c, t, u, a)
    ensures OthersWait(Apply(d, s, a), c)
  {
    var s' := Apply(d, s, a);
    forall load | IsWaiting(s, load) && (a.Enter? ==> s.clients[a.t].load != load)
      ensures IsWaiting(s', load)
    {
      var v :| v in s.clients && s.clients[v] == Waiting(load);
      assert v in s'.clients && s'.clients[v] == Waiting(load);
    }
    if a.Enter? {
      GrantedOther(d, s, c, t, u, a.t);
    }
  }

  /** Another client that may enter is the one whose request was granted. */
  lemma GrantedOther(d: Device, s: State, c: int, t: nat, u: nat, v: nat)
    requires Steady(d, s, c, t, u, Enter(v))
    ensures s.pc.Granted? && s.clients[v].load == s.pc.req && s.pc.req.cpid != c
    ensures forall i :: 0 <= i < |s.queue| ==> s.queue[i] != s.pc.req
  {
    var w :| w in s.clients && s.clients[w].load == s.pc.req;
    assert w == v;
  }

  lemma RunsStay(d: Device, s: State, c: int, t: nat, u: nat, a: Action)
    requires Steady(d, s, c, t, u, a)
    ensures RunsFor(Apply(d, s, a), c, t, u)
  {
    var s' := Apply(d, s, a);
    if s.currRun {
      var v :| v in s.clients && s.clients[v].load == s.pc.req;
      assert !a.Leave? ==> v in s'.clients && s'.clients[v].load == s.pc.req;
    }
    if a.Enter? {
      GrantedOther(d, s, c, t, u, a.t);
    } else if a.Grant? && s.pc.req.cpid != c {
      var v :| v in s.clients && s.clients[v] == Waiting(s.pc.req);
      assert v in s'.clients && s'.clients[v].load == s.pc.req;
    }
  }

  lemma PendingStaysDoubled(d: Device, s: State, c: int, t: nat, u: nat, a: Action)
    requires Steady(d, s, c, t, u, a)
    ensures var s' := Apply(d, s, a);
      Queued(s', c) || (!s'.pc.Idle? && s'.pc.req.cpid == c && (s'.pc.Granted? ==> s'.currRun))
  {
    hide OthersDistinct, OthersWait;
    var s' := Apply(d, s, a);
    if a.Pop? && s.queue[a.i].cpid != c {
      var k :| 0 <= k < |s.queue| && s.queue[k].cpid == c;
      assert s'.queue[if k < a.i then k else k - 1].cpid == c;
    }
  }

  lemma DoubledStays(d: Device, s: State, c: int, t: nat, u: nat, a: Action)
    requires Steady(d, s, c, t, u, a)
    ensures Doubled(Apply(d, s, a), c, t, u)
  {
    DistinctStays(d, s, c, t, u, a);
    WaitStays(d, s, c, t, u, a);
    RunsStay(d, s, c, t, u, a);
    PendingStaysDoubled(d, s, c, t, u, a);
    hide OthersDistinct, OthersWait, RunsFor, Queued;
  }

  /** While no request under `c` is granted, there is a step towards it. */
  lemma StepTowards(o: Order, d: Device, s: State, c: int, t: nat, u: nat) returns (a: Action)
    requires Doubled(s, c, t, u) && !(s.currRun && s.currCpid == c)
    ensures Steady(d, s, c, t, u, a) && InOrder(o, s, a)
  {
    match s.pc
    case Popped(_) => a := Reconfigure;
    case Locked(_) => a := Grant;
    case Idle =>
      var i := TopExists(o, s.queue);
      a := Pop(i);
    case Granted(req) =>
      if s.currRun {
        var v :| v in s.clients && s.clients[v].load == req;
        a := if s.clients[v].Waiting? then Enter(v) else Leave(v);
      } else {
        a := Complete;
      }
  }

  /** In the end both clients under `c` are let in. */
  lemma {:induction false} DoubledCollides(o: Order, d: Device, s: State, c: int, t: nat, u: nat)
    requires Doubled(s, c, t, u)
    ensures CanCollide(o, d, s)
    decreases Work(s)
  {
    if s.currRun && s.currCpid == c {
      BothEnter(o, d, s, c, t, u);
    } else {
      var a := StepTowards(o, d, s, c, t, u);
      DoubledStays(d, s, c, t, u, a);
      StepWorks(d, s, a);
      DoubledCollides(o, d, Apply(d, s, a), c, t, u);
      CollidesAfter(o, d, s, a);
    }
  }

  lemma BothEnter(o: Order, d: Device, s: State, c: int, t: nat, u: nat)
    requires t in s.clients && u in s.clients && t != u && s.clients[t].load.cpid == c == s.clients[u].load.cpid
    requires s.clients[t].Waiting? && s.currRun && s.currCpid == c
    ensures CanCollide(o, d, s)
  {
    var s1 := Apply(d, s, Enter(t));
    if s.clients[u].Waiting? {
      CollidesNow(o, d, Apply(d, s1, Enter(u)), t, u);
      CollidesAfter(o, d, s1, Enter(u));
    } else {
      CollidesNow(o, d, s1, t, u);
    }
    CollidesAfter(o, d, s, Enter(t));
  }

  /** A request under a cpid that has one outstanding. */
  lemma DoubleCollides(o: Order, d: Device, s: State, t: nat, load: Load, u: nat)
    requires Inv(s) && Enabled(s, Submit(t, load)) && u in s.clients && s.clients[u].load.cpid == load.cpid
    ensures CanCollide(o, d, Apply(d, s, Submit(t, load)))
  {
    hide *;
    SubmitDoubles(d, s, t, load, u);
    DoubledCollides(o, d, Apply(d, s, Submit(t, load)), load.cpid, t, u);
  }

  lemma SubmitDoubles(d: Device, s: State, t: nat, load: Load, u: nat)
    requires Inv(s) && Enabled(s, Submit(t, load)) && u in s.clients && s.clients[u].load.cpid == load.cpid
    ensures Doubled(Apply(d, s, Submit(t, load)), load.cpid, t, u)
  {
    hide Accounted;
    var s1 := Apply(d, s, Submit(t, load));
    assert s1.queue[|s.queue|].cpid == load.cpid;
    forall x | IsWaiting(s, x) ensures IsWaiting(s1, x) {
      var v :| v in s.clients && s.clients[v] == Waiting(x);
      assert s1.clients[v] == Waiting(x);
    }
    if s.currRun {
      var v :| v in s.clients && s.clients[v].load == s.pc.req;
      assert s1.clients[v].load == s.pc.req;
    }
  }

  // ----- A call of pUnlock by somebody else -----

  /** pUnlock under the cpid of the client inside, by another thread. */
  lemma UnlockCollides(o: Order, d: Device, s: State, t: nat)
    requires Inv(s) && t in s.clients && s.clients[t].Inside?
    ensures CanCollide(o, d, Apply(d, s, Unlock(s.clients[t].load.cpid)))
  {
    var s1 := Apply(d, s, Unlock(s.clients[t].load.cpid));
    var s2 := Apply(d, s1, Complete);
    WaitingStays(s, s2);
    InsideCollides(o, d, s2, t, s.pc.req);
    CollidesAfter(o, d, s1, Complete);
  }

  /** From every state that the conditions have led to: a next step, by any thread, makes it possible that
      two clients are inside at once, however well everybody behaves after it, if and only if it is a
      completion timeout, a request under a cpid that has one outstanding, or a call of pUnlock by
      somebody else under the cpid of the client inside. */
  lemma CollisionIff(o: Order, d: Device, s: State, a: Action)
    requires Inv(s) && Enabled(s, a)
    ensures CanCollide(o, d, Apply(d, s, a)) <==>
      || a.Timeout?
      || (a.Submit? && exists u :: u in s.clients && s.clients[u].load.cpid == a.load.cpid)
      || (a.Unlock? && exists u :: u in s.clients && s.clients[u].Inside? && s.clients[u].load.cpid == a.cpid)
  {
    hide Inv, CanCollide, Apply;
    if Allowed(s, a) {
      StepKeeps(d, s, a);
      InvIsSafe(o, d, Apply(d, s, a));
    } else if a.Timeout? {
      TimeoutCollides(o, d, s);
    } else if a.Submit? {
      var u :| u in s.clients && s.clients[u].load.cpid == a.load.cpid;
      DoubleCollides(o, d, s, a.t, a.load, u);
    } else {
      var u :| u in s.clients && s.clients[u].Inside? && s.clients[u].load.cpid == a.cpid;
      UnlockCollides(o, d, s, u);
    }
  }

  // ----- Whole runs -----

  /** The steps can be taken one after the other. */
  ghost predicate Runnable(d: Device, s: State, acts: seq<Action>)
    decreases |acts|
  {
    acts == [] || (Enabled(s, acts[0]) && Runnable(d, Apply(d, s, acts[0]), acts[1..]))
  }

  /** In no state of the run is a collision possible. */
  ghost predicate SafeThroughout(o: Order, d: Device, s: State, acts: seq<Action>)
    requires Runnable(d, s, acts)
    decreases |acts|
  {
    !CanCollide(o, d, s) && (acts == [] || SafeThroughout(o, d, Apply(d, s, acts[0]), acts[1..]))
  }

  /** Whatever operators it asks for, a run is safe throughout if and only if no completion times out in it, no
      request comes under a cpid that has one outstanding, and nobody else calls pUnlock under the cpid of
      the client inside. */
  lemma {:induction false} RunSafeIff(o: Order, d: Device, s: State, acts: seq<Action>)
    requires Inv(s) && Runnable(d, s, acts)
    ensures SafeThroughout(o, d, s, acts) <==> AllAllowed(d, s, acts)
    decreases |acts|
  {
    InvIsSafe(o, d, s);
    if acts != [] {
      var a := acts[0];
      CollisionIff(o, d, s, a);
      if Allowed(s, a) {
        StepKeeps(d, s, a);
        hide Inv, CanCollide, Apply, Enabled, Allowed;
        RunSafeIff(o, d, Apply(d, s, a), acts[1..]);
      } else {
        hide Inv, Apply, Enabled;
        assert CanCollide(o, d, Apply(d, s, a));
      }
    }
  }

  // ----- Two runs from the start -----

  lemma RunsFirst(d: Device, s: State, a: Action, acts: seq<Action>, s': State)
    requires Enabled(s, a) && Runs(d, Apply(d, s, a), acts, s')
    ensures Runs(d, s, [a] + acts, s')
  {
    assert ([a] + acts)[1..] == acts;
  }

  /** A request comes to the idle scheduler, is granted, and its client enters. */
  function Serve(t: nat, load: Load): seq<Action> {
    [Submit(t, load), Pop(0), Reconfigure, Grant, Enter(t)]
  }

  lemma AllowedFirst(d: Device, s: State, a: Action, acts: seq<Action>)
    requires Enabled(s, a) && Allowed(s, a) && AllAllowed(d, Apply(d, s, a), acts)
    ensures AllAllowed(d, s, [a] + acts)
  {
    assert ([a] + acts)[1..] == acts;
  }

  /** The state once the client is inside. */
  function AfterServe(d: Device, s: State, t: nat, load: Load): State {
    var loads := d.enPr && s.currOid != load.oid;
    s.(pc := Granted(load), currOid := if loads then load.oid else s.currOid,
       loaded := if loads && load.oid in d.bstreams then Some(load.oid) else s.loaded,
       currCpid := load.cpid, currRun := true, clients := s.clients[t := Inside(load)],
       accepted := s.accepted + [load], granted := s.granted + [load])
  }

  lemma ServedRun(d: Device, s: State, t: nat, load: Load, rest: seq<Action>) returns (s1: State)
    requires s.queue == [] && s.pc.Idle? && t !in s.clients
    ensures s1 == AfterServe(d, s, t, load)
    ensures forall s' :: Runs(d, s1, rest, s') ==> Runs(d, s, Serve(t, load) + rest, s')
    ensures (forall u :: u in s.clients ==> s.clients[u].load.cpid != load.cpid) && AllAllowed(d, s1, rest) ==>
              AllAllowed(d, s, Serve(t, load) + rest)
  {
    var a, b, c, e := ServedStates(d, s, t, load);
    s1 := Apply(d, e, Enter(t));
    var r1 := [Enter(t)] + rest;
    var r2 := [Grant] + r1;
    var r3 := [Reconfigure] + r2;
    var r4 := [Pop(0)] + r3;
    assert Serve(t, load) + rest == [Submit(t, load)] + r4;
    hide *;
    forall s' | Runs(d, s1, rest, s') ensures Runs(d, s, [Submit(t, load)] + r4, s') {
      RunsFirst(d, e, Enter(t), rest, s');
      RunsFirst(d, c, Grant, r1, s');
      RunsFirst(d, b, Reconfigure, r2, s');
      RunsFirst(d, a, Pop(0), r3, s');
      RunsFirst(d, s, Submit(t, load), r4, s');
    }
    if Allowed(s, Submit(t, load)) && AllAllowed(d, s1, rest) {
      AllowedFirst(d, e, Enter(t), rest);
      AllowedFirst(d, c, Grant, r1);
      AllowedFirst(d, b, Reconfigure, r2);
      AllowedFirst(d, a, Pop(0), r3);
      AllowedFirst(d, s, Submit(t, load), r4);
    }
    SubmitAllowed(s, t, load);
  }

  lemma SubmitAllowed(s: State, t: nat, load: Load)
    ensures Allowed(s, Submit(t, load)) <==> forall u :: u in s.clients ==> s.clients[u].load.cpid != load.cpid
  {
  }

  lemma ServedStates(d: Device, s: State, t: nat, load: Load) returns (a: State, b: State, c: State, e: State)
    requires s.queue == [] && s.pc.Idle? && t !in s.clients
    ensures Enabled(s, Submit(t, load)) && a == Apply(d, s, Submit(t, load))
    ensures Enabled(a, Pop(0)) && Allowed(a, Pop(0)) && b == Apply(d, a, Pop(0))
    ensures Enabled(b, Reconfigure) && Allowed(b, Reconfigure) && c == Apply(d, b, Reconfigure)
    ensures Enabled(c, Grant) && Allowed(c, Grant) && e == Apply(d, c, Grant)
    ensures Enabled(e, Enter(t)) && Allowed(e, Enter(t)) && Apply(d, e, Enter(t)) == AfterServe(d, s, t, load)
  {
    a := Apply(d, s, Submit(t, load));
    assert a.queue == [load] && Without(a.queue, 0) == [];
    b := Apply(d, a, Pop(0));
    c := Apply(d, b, Reconfigure);
    e := Apply(d, c, Grant);
    assert s.clients[t := Waiting(load)][t := Inside(load)] == s.clients[t := Inside(load)];
  }

  /** One client enters, the scheduler times out, and lets the next one in. */
  lemma TimeoutRun(d: Device, a: Load, b: Load) returns (s: State)
    ensures Runs(d, Init(), Serve(0, a) + ([Timeout] + Serve(1, b)), s) && Collision(s)
  {
    hide Runs;
    var rest := [Timeout] + Serve(1, b);
    var s1 := ServedRun(d, Init(), 0, a, rest);
    s := ServedRun(d, Apply(d, s1, Timeout), 1, b, []);
    assert Runs(d, s, [], s) by { RunsNothing(d, s); }
    assert Serve(1, b) + [] == Serve(1, b);
    RunsFirst(d, s1, Timeout, Serve(1, b), s);
    assert s.clients[0].Inside? && s.clients[1].Inside?;
  }

  lemma RunsNothing(d: Device, s: State)
    ensures Runs(d, s, [], s)
  {
  }

  /** Two requests under one cpid: the grant of the first lets both clients in. */
  lemma SameCpidRun(d: Device, a: Load, b: Load) returns (s: State)
    requires a.cpid == b.cpid
    ensures Runs(d, Init(), Serve(0, a) + [Submit(1, b), Enter(1)], s) && Collision(s)
  {
    hide Runs;
    var s1 := ServedRun(d, Init(), 0, a, [Submit(1, b), Enter(1)]);
    var s2 := Apply(d, s1, Submit(1, b));
    s := Apply(d, s2, Enter(1));
    RunsNothing(d, s);
    RunsFirst(d, s2, Enter(1), [], s);
    assert [Enter(1)] + [] == [Enter(1)];
    RunsFirst(d, s1, Submit(1, b), [Enter(1)], s);
    assert [Submit(1, b)] + [Enter(1)] == [Submit(1, b), Enter(1)];
    assert s.clients[0].Inside? && s.clients[1].Inside?;
  }

  /** pUnlock by another thread under the cpid of the client inside: the next one is let in. */
  lemma UnlockRun(d: Device, a: Load, b: Load) returns (s: State)
    ensures Runs(d, Init(), Serve(0, a) + ([Unlock(a.cpid), Complete] + Serve(1, b)), s) && Collision(s)
  {
    hide Runs;
    var rest := [Unlock(a.cpid), Complete] + Serve(1, b);
    var s1 := ServedRun(d, Init(), 0, a, rest);
    var s2 := Apply(d, s1, Unlock(a.cpid));
    s := ServedRun(d, Apply(d, s2, Complete), 1, b, []);
    RunsNothing(d, s);
    assert Serve(1, b) + [] == Serve(1, b);
    RunsFirst(d, s2, Complete, Serve(1, b), s);
    RunsFirst(d, s1, Unlock(a.cpid), [Complete] + Serve(1, b), s);
    assert [Unlock(a.cpid)] + ([Complete] + Serve(1, b)) == rest;
    assert s.clients[0].Inside? && s.clients[1].Inside?;
  }
}
