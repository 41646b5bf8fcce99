/** cSched.cpp as atomic steps: clients call pLock and pUnlock, the scheduler thread pops requests,
    reconfigures the vFPGA, grants it and waits for completion. */
module Scheduler {
  import opened Options
  import opened TaskOrder

  /** A thread in pLock, or between pLock and pUnlock. */
  datatype Client = Waiting(load: Load) | Inside(load: Load)

  /** Where the scheduler thread is in its loop. */
  datatype Pc = Idle | Popped(req: Load) | Locked(req: Load) | Granted(req: Load)

  datatype State = State(
    queue: seq<Load>, pc: Pc, currOid: int, loaded: Option<int>, currCpid: int, currRun: bool,
    clients: map<nat, Client>, accepted: seq<Load>, granted: seq<Load>)

  /** What does not change: whether partial reconfiguration is enabled, and the bitstreams. */
  datatype Device = Device(enPr: bool, bstreams: set<int>)

  /** Leave is pUnlock by the client inside, Unlock a call of it by anybody else. */
  datatype Action =
    | Submit(t: nat, load: Load) | Enter(t: nat) | Leave(t: nat) | Unlock(cpid: int)
    | Pop(i: nat) | Reconfigure | Grant | Complete | Timeout

  const NO_OID: int := -1

  function Init(): State {
    State([], Idle, NO_OID, None, -1, false, map[], [], [])
  }

  predicate Enabled(s: State, a: Action) {
    match a
    case Submit(t, load) => t !in s.clients
    case Enter(t) => t in s.clients && s.clients[t].Waiting? && s.currRun && s.currCpid == s.clients[t].load.cpid
    case Leave(t) => t in s.clients && s.clients[t].Inside?
    case Unlock(cpid) => true
    case Pop(i) => s.pc.Idle? && i < |s.queue|
    case Reconfigure => s.pc.Popped?
    case Grant => s.pc.Locked?
    case Complete => s.pc.Granted? && !s.currRun
    case Timeout => s.pc.Granted? && s.currRun
  }

  function Apply(d: Device, s: State, a: Action): State
    requires Enabled(s, a)
  {
    match a
    case Submit(t, load) =>
      s.(queue := s.queue + [load], clients := s.clients[t := Waiting(load)], accepted := s.accepted + [load])
    case Enter(t) => s.(clients := s.clients[t := Inside(s.clients[t].load)])
    case Leave(t) =>
      s.(clients := s.clients - {t}, currRun := if s.currCpid == s.clients[t].load.cpid then false else s.currRun)
    case Unlock(cpid) => s.(currRun := if s.currCpid == cpid then false else s.currRun)
    case Pop(i) => s.(queue := Without(s.queue, i), pc := Popped(s.queue[i]))
    case Reconfigure =>
      var oid := s.pc.req.oid;
      if d.enPr && s.currOid != oid then
        s.(pc := Locked(s.pc.req), currOid := oid, loaded := if oid in d.bstreams then Some(oid) else s.loaded)
      else s.(pc := Locked(s.pc.req))
    case Grant =>
      s.(pc := Granted(s.pc.req), currCpid := s.pc.req.cpid, currRun := true, granted := s.granted + [s.pc.req])
    case Complete => s.(pc := Idle)
    case Timeout => s.(pc := Idle)
  }

  // ----- Safety -----

  /** The conditions under which clients exclude each other: one outstanding request per cpid, no completion
      timeout, and no call of pUnlock by others under the cpid of the client inside. */
  ghost predicate Allowed(s: State, a: Action) {
    match a
    case Submit(t, load) => forall u :: u in s.clients ==> s.clients[u].load.cpid != load.cpid
    case Unlock(cpid) => forall t :: t in s.clients && s.clients[t].Inside? ==> s.clients[t].load.cpid != cpid
    case Timeout => false
    case _ => true
  }

  /** The request the scheduler holds and has not granted yet. */
  ghost function InHand(s: State): seq<Load> {
    if s.pc.Popped? || s.pc.Locked? then [s.pc.req] else []
  }

  ghost predicate DistinctCpids(s: State) {
    && (forall t, u :: t in s.clients && u in s.clients && s.clients[t].load.cpid == s.clients[u].load.cpid ==> t == u)
    && (forall i, j :: 0 <= i < j < |s.queue| ==> s.queue[i].cpid != s.queue[j].cpid)
    && (!s.pc.Idle? && (s.pc.Granted? ==> s.currRun) ==>
          forall i :: 0 <= i < |s.queue| ==> s.queue[i].cpid != s.pc.req.cpid)
  }

  ghost predicate IsWaiting(s: State, load: Load) {
    exists t :: t in s.clients && s.clients[t] == Waiting(load)
  }

  ghost predicate HasClient(s: State, load: Load) {
    exists t :: t in s.clients && s.clients[t].load == load
  }

  /** Every request not yet granted has its client waiting. */
  ghost predicate AllWaiting(s: State) {
    && (forall i :: 0 <= i < |s.queue| ==> IsWaiting(s, s.queue[i]))
    && (s.pc.Popped? || s.pc.Locked? ==> IsWaiting(s, s.pc.req))
  }

  /** The vFPGA is given to one client at a time, the one whose request was granted. */
  ghost predicate Exclusive(s: State) {
    && (s.currRun ==> s.pc.Granted? && s.currCpid == s.pc.req.cpid && HasClient(s, s.pc.req))
    && (forall t :: t in s.clients && s.clients[t].Inside? ==> s.currRun && s.clients[t].load == s.pc.req)
  }

  /** Every accepted request is queued, in hand, or granted once. */
  ghost predicate Accounted(s: State) {
    multiset(s.accepted) == multiset(s.queue) + multiset(InHand(s)) + multiset(s.granted)
  }

  ghost predicate Inv(s: State) {
    DistinctCpids(s) && AllWaiting(s) && Exclusive(s) && Accounted(s)
  }

  lemma KeepsDistinct(d: Device, s: State, a: Action)
    requires Inv(s) && Enabled(s, a) && Allowed(s, a)
    ensures DistinctCpids(Apply(d, s, a))
  {
    hide Accounted;
    var s' := Apply(d, s, a);
    if a.Submit? {
      assert s'.clients.Keys == s.clients.Keys + {a.t};
    } else if a.Pop? {
      assert forall j :: 0 <= j < |s'.queue| ==> s'.queue[j] == s.queue[if j < a.i then j else j + 1];
    }
  }

  lemma KeepsWaiting(d: Device, s: State, a: Action)
    requires Inv(s) && Enabled(s, a) && Allowed(s, a)
    ensures AllWaiting(Apply(d, s, a))
  {
    hide Accounted;
    var s' := Apply(d, s, a);
    forall load | IsWaiting(s, load) && (a.Enter? ==> s.clients[a.t].load != load)
      ensures IsWaiting(s', load)
    {
      var t :| t in s.clients && s.clients[t] == Waiting(load);
      assert t in s'.clients && s'.clients[t] == Waiting(load);
    }
    if a.Submit? {
      assert s'.clients[a.t] == Waiting(a.load);
      assert IsWaiting(s', a.load);
    } else if a.Enter? {
      EnteringIsGranted(d, s, a.t);
    }
  }

  /** A client that may enter is the one whose request was granted. */
  lemma EnteringIsGranted(d: Device, s: State, t: nat)
    requires Inv(s) && Enabled(s, Enter(t))
    ensures s.pc.Granted? && s.clients[t].load == s.pc.req
    ensures forall i :: 0 <= i < |s.queue| ==> s.queue[i] != s.pc.req
  {
    var u :| u in s.clients && s.clients[u].load == s.pc.req;
    assert u == t;
  }

  lemma KeepsExclusive(d: Device, s: State, a: Action)
    requires Inv(s) && Enabled(s, a) && Allowed(s, a)
    ensures Exclusive(Apply(d, s, a))
  {
    hide Accounted;
    var s' := Apply(d, s, a);
    if s.currRun {
      var u :| u in s.clients && s.clients[u].load == s.pc.req;
      assert !a.Leave? ==> u in s'.clients && s'.clients[u].load == s.pc.req;
    }
    if a.Enter? {
      EnteringIsGranted(d, s, a.t);
    } else if a.Grant? {
      var u :| u in s.clients && s.clients[u] == Waiting(s.pc.req);
      assert u in s'.clients && s'.clients[u].load == s.pc.req;
    }
  }

  lemma KeepsAccounts(d: Device, s: State, a: Action)
    requires Inv(s) && Enabled(s, a) && Allowed(s, a)
    ensures Accounted(Apply(d, s, a))
  {
    hide DistinctCpids, AllWaiting, Exclusive;
    if a.Pop? {
      WithoutMultiset(s.queue, a.i);
    }
  }

  /** Every allowed step keeps the invariant. */
  lemma StepKeeps(d: Device, s: State, a: Action)
    requires Inv(s) && Enabled(s, a) && Allowed(s, a)
    ensures Inv(Apply(d, s, a))
  {
    KeepsDistinct(d, s, a);
    KeepsWaiting(d, s, a);
    KeepsExclusive(d, s, a);
    KeepsAccounts(d, s, a);
  }

  // ----- Runs -----

  /** `acts` lead from s to s', one enabled step after the other. */
  predicate Runs(d: Device, s: State, acts: seq<Action>, s': State)
    decreases |acts|
  {
    if acts == [] then s == s' else Enabled(s, acts[0]) && Runs(d, Apply(d, s, acts[0]), acts[1..], s')
  }

  ghost predicate AllAllowed(d: Device, s: State, acts: seq<Action>)
    decreases |acts|
  {
    acts == [] || (Enabled(s, acts[0]) && Allowed(s, acts[0]) && AllAllowed(d, Apply(d, s, acts[0]), acts[1..]))
  }

  lemma {:induction false} RunKeeps(d: Device, s: State, acts: seq<Action>, s': State)
    requires Inv(s) && Runs(d, s, acts, s') && AllAllowed(d, s, acts)
    ensures Inv(s')
    decreases |acts|
  {
    hide Inv, Enabled, Apply, Allowed;
    if acts != [] {
      StepKeeps(d, s, acts[0]);
      RunKeeps(d, Apply(d, s, acts[0]), acts[1..], s');
    }
  }

  /** After any allowed run, in any interleaving: two clients are never inside at once, the one inside
      is the granted one, and every accepted request has been granted exactly once or is still to be. */
  lemma RunIsSafe(d: Device, acts: seq<Action>, s: State)
    requires Runs(d, Init(), acts, s) && AllAllowed(d, Init(), acts)
    ensures forall t, u :: t in s.clients && u in s.clients && s.clients[t].Inside? && s.clients[u].Inside? ==> t == u
    ensures forall t :: t in s.clients && s.clients[t].Inside? ==>
              s.currRun && s.currCpid == s.clients[t].load.cpid
    ensures multiset(s.accepted) == multiset(s.queue) + multiset(InHand(s)) + multiset(s.granted)
  {
    RunKeeps(d, Init(), acts, s);
  }

  // ----- The scheduler object -----

  class CSched {
    const device: Device
    const priority: bool
    const reorder: bool
    var requestQueue: seq<Load>
    var pc: Pc
    var currOid: int
    var loaded: Option<int>
    var currCpid: int
    var currRun: bool
    var clients: map<nat, Client>
    ghost var accepted: seq<Load>
    ghost var granted: seq<Load>

    ghost function View(): State
      reads this
    {
      State(requestQueue, pc, currOid, loaded, currCpid, currRun, clients, accepted, granted)
    }

    constructor (device: Device, priority: bool, reorder: bool)
      ensures View() == Init() && this.device == device && this.priority == priority && this.reorder == reorder
    {
      this.device, this.priority, this.reorder := device, priority, reorder;
      requestQueue, pc, currOid, loaded := [], Idle, NO_OID, None;
      currCpid, currRun, clients, accepted, granted := -1, false, map[], [], [];
    }

    /** pLock, first critical section. */
    method PLock(t: nat, load: Load)
      requires Enabled(View(), Submit(t, load))
      modifies this
      ensures View() == Apply(device, old(View()), Submit(t, load))
    {
      requestQueue := requestQueue + [load];
      clients := clients[t := Waiting(load)];
      accepted := accepted + [load];
    }

    /** pLock returns once its wait condition holds. */
    method PLockReturns(t: nat)
      requires Enabled(View(), Enter(t))
      modifies this
      ensures View() == Apply(device, old(View()), Enter(t))
    {
      clients := clients[t := Inside(clients[t].load)];
    }

    /** pUnlock by thread `t`, whoever it is; the client inside has left when it calls it under its own cpid. */
    method PUnlock(t: nat, cpid: int)
      modifies this
      ensures View() == Apply(device, old(View()),
                              if old(Holds(t, cpid)) then Leave(t) else Unlock(cpid))
      ensures currRun == (if old(currCpid) == cpid then false else old(currRun))
      ensures clients == if old(Holds(t, cpid)) then old(clients) - {t} else old(clients)
    {
      var holds := t in clients && clients[t].Inside? && clients[t].load.cpid == cpid;
      if currCpid == cpid {
        currRun := false;
      }
      if holds {
        clients := clients - {t};
      }
    }

    ghost predicate Holds(t: nat, cpid: int)
      reads this
    {
      t in clients && clients[t].Inside? && clients[t].load.cpid == cpid
    }

    /** Take a top request off the priority queue; the heap order decides among equals.  A heap whose
        comparator is no strict weak order may deliver `any` request. */
    method PopRequest(any: nat) returns (i: nat)
      requires pc.Idle? && any < |requestQueue|
      modifies this
      ensures i < |old(requestQueue)|
      ensures StrictWeakOrder(priority, reorder) ==> IsTop(priority, reorder, old(requestQueue), i)
      ensures View() == Apply(device, old(View()), Pop(i))
    {
      StrictWeakOrderIff(priority, reorder);
      i := any;
      if priority || !reorder {
        i := TopOf(priority, reorder, requestQueue);
      }
      pc := Popped(requestQueue[i]);
      requestQueue := Without(requestQueue, i);
    }

    method ReconfigureFor()
      requires pc.Popped?
      modifies this
      ensures View() == Apply(device, old(View()), Reconfigure)
    {
      if device.enPr {
        if currOid != pc.req.oid {
          if pc.req.oid in device.bstreams {
            loaded := Some(pc.req.oid);
          }
          currOid := pc.req.oid;
        }
      }
      pc := Locked(pc.req);
    }

    method Notify()
      requires pc.Locked?
      modifies this
      ensures View() == Apply(device, old(View()), Grant)
    {
      currCpid := pc.req.cpid;
      currRun := true;
      granted := granted + [pc.req];
      pc := Granted(pc.req);
    }

    /** The wait for completion ends: the client has finished, or the time is up. */
    method WaitEnds() returns (completed: bool)
      requires pc.Granted?
      modifies this
      ensures completed == !old(currRun)
      ensures View() == Apply(device, old(View()), if completed then Complete else Timeout)
    {
      completed := !currRun;
      pc := Idle;
    }
  }

  /** What `top` of the priority queue delivers. */
  method TopOf(priority: bool, reorder: bool, q: seq<Load>) returns (i: nat)
    requires q != [] && StrictWeakOrder(priority, reorder)
    ensures i < |q| && IsTop(priority, reorder, q, i)
  {
    i := 0;
    for j := 1 to |q|
      invariant i < j
      invariant forall k :: 0 <= k < j ==> !Less(priority, reorder, q[i], q[k])
    {
      if Less(priority, reorder, q[i], q[j]) {
        TopMoves(priority, reorder, q, i, j);
        i := j;
      }
    }
  }

  lemma TopMoves(priority: bool, reorder: bool, q: seq<Load>, i: nat, j: nat)
    requires StrictWeakOrder(priority, reorder) && i < j < |q| && Less(priority, reorder, q[i], q[j])
    requires forall k :: 0 <= k < j ==> !Less(priority, reorder, q[i], q[k])
    ensures forall k :: 0 <= k <= j ==> !Less(priority, reorder, q[j], q[k])
  {
  }
}
