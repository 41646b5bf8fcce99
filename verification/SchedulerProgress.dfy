/** Progress of the scheduler of cSched.cpp: under the conditions of safety, and when only the client inside
    calls pUnlock, it never gets stuck, and once no new requests come, every accepted one has been granted
    exactly once after boundedly many steps. */
module SchedulerProgress {
  import opened Scheduler
  import opened TaskOrder

  /** The scheduler still owes or is giving this request its turn. */
  predicate Pending(s: State, load: Load) {
    load in s.queue || (!s.pc.Idle? && s.pc.req == load && (s.pc.Granted? ==> s.currRun))
  }

  /** No waiting client is forgotten. */
  ghost predicate Attended(s: State) {
    forall t :: t in s.clients && s.clients[t].Waiting? ==> Pending(s, s.clients[t].load)
  }

  lemma PendingStays(s: State, d: Device, a: Action, load: Load)
    requires Enabled(s, a) && Pending(s, load)
    requires a.Leave? ==> s.clients[a.t].load.cpid != load.cpid || load in s.queue
    requires a.Leave? && !s.pc.Idle? && s.pc.req == load ==> s.currCpid == load.cpid || !s.pc.Granted?
    requires !a.Timeout? && !a.Unlock?
    ensures Pending(Apply(d, s, a), load)
  {
    var s' := Apply(d, s, a);
    if a.Pop? && load in s.queue {
      var k :| 0 <= k < |s.queue| && s.queue[k] == load;
      if k != a.i {
        assert s'.queue[if k < a.i then k else k - 1] == load;
      }
    } else if a.Submit? && load in s.queue {
      var k :| 0 <= k < |s.queue| && s.queue[k] == load;
      assert s'.queue[k] == load;
    }
  }

  lemma KeepsAttended(d: Device, s: State, a: Action)
    requires Inv(s) && Attended(s) && Enabled(s, a) && Allowed(s, a) && !a.Unlock?
    ensures Attended(Apply(d, s, a))
  {
    hide Accounted, AllWaiting, Pending;
    var s' := Apply(d, s, a);
    forall t | t in s'.clients && s'.clients[t].Waiting? ensures Pending(s', s'.clients[t].load) {
      if a.Submit? && t == a.t {
        SubmittedPends(d, s, a);
      } else {
        assert t in s.clients && s.clients[t] == s'.clients[t];
        PendingStays(s, d, a, s.clients[t].load);
      }
    }
  }

  /** A call of pUnlock by somebody else forgets a client exactly when it comes between the grant and the return of
      that client's pLock, under its cpid. */
  lemma UnlockForgetsIff(d: Device, s: State, cpid: int)
    requires Inv(s) && Attended(s)
    ensures Attended(Apply(d, s, Unlock(cpid))) <==>
      !exists t :: t in s.clients && s.clients[t].Waiting? && s.clients[t].load.cpid == cpid
                   && s.currRun && s.currCpid == cpid
  {
    hide Accounted, AllWaiting;
    var s' := Apply(d, s, Unlock(cpid));
    if t :| && t in s.clients && s.clients[t].Waiting? && s.clients[t].load.cpid == cpid
            && s.currRun && s.currCpid == cpid {
      EnteringIsGranted(d, s, t);
      assert !Pending(s', s.clients[t].load);
    } else {
      forall t | t in s'.clients && s'.clients[t].Waiting? ensures Pending(s', s'.clients[t].load) {
        assert Pending(s, s.clients[t].load);
      }
    }
  }

  lemma SubmittedPends(d: Device, s: State, a: Action)
    requires a.Submit? && Enabled(s, a)
    ensures Pending(Apply(d, s, a), a.load)
  {
    assert Apply(d, s, a).queue[|s.queue|] == a.load;
  }

  /** Only the client inside calls pUnlock. */
  ghost predicate NoUnlock(acts: seq<Action>) {
    forall i :: 0 <= i < |acts| ==> !acts[i].Unlock?
  }

  lemma {:induction false} RunKeepsAttended(d: Device, s: State, acts: seq<Action>, s': State)
    requires Inv(s) && Attended(s) && Runs(d, s, acts, s') && AllAllowed(d, s, acts) && NoUnlock(acts)
    ensures Attended(s')
    decreases |acts|
  {
    if acts != [] {
      StepKeeps(d, s, acts[0]);
      assert !acts[0].Unlock? && NoUnlock(acts[1..]);
      KeepsAttended(d, s, acts[0]);
      RunKeepsAttended(d, Apply(d, s, acts[0]), acts[1..], s');
    }
  }

  // ----- No way to get stuck -----

  ghost predicate CanMove(d: Device, s: State) {
    exists a: Action :: !a.Submit? && !a.Unlock? && Enabled(s, a) && Allowed(s, a)
  }

  lemma Moves(d: Device, s: State, a: Action)
    requires !a.Submit? && !a.Unlock? && Enabled(s, a) && Allowed(s, a)
    ensures CanMove(d, s)
  {
  }

  /** While a request is queued or in hand, or a client is in the protocol, some thread can move. */
  lemma NeverStuck(d: Device, s: State)
    requires Inv(s) && Attended(s)
    ensures CanMove(d, s) <==> s.queue != [] || !s.pc.Idle? || s.clients != map[]
  {
    hide Accounted, CanMove;
    match s.pc
    case Popped(_) => Moves(d, s, Reconfigure);
    case Locked(_) => Moves(d, s, Grant);
    case Granted(req) =>
      if s.currRun {
        var t :| t in s.clients && s.clients[t].load == req;
        Moves(d, s, if s.clients[t].Waiting? then Enter(t) else Leave(t));
      } else {
        Moves(d, s, Complete);
      }
    case Idle =>
      if s.queue != [] {
        Moves(d, s, Pop(0));
      } else {
        NobodyWaits(s);
        NothingToDo(d, s);
      }
  }

  lemma NobodyWaits(s: State)
    requires Attended(s) && Exclusive(s) && s.pc.Idle? && s.queue == []
    ensures s.clients == map[]
  {
    assert s.clients.Keys == {};
  }

  lemma NothingToDo(d: Device, s: State)
    requires s.pc.Idle? && s.queue == [] && s.clients == map[]
    ensures !CanMove(d, s)
  {
  }

  // ----- Bounded work -----

  ghost function WaitingClients(s: State): set<nat> {
    set t | t in s.clients && s.clients[t].Waiting?
  }

  function StageWork(pc: Pc): nat {
    match pc
    case Idle => 0
    case Granted(_) => 1
    case Locked(_) => 2
    case Popped(_) => 3
  }

  /** The steps left for the requests and clients of a state. */
  ghost function Work(s: State): nat {
    4 * |s.queue| + StageWork(s.pc) + |s.clients.Keys| + |WaitingClients(s)|
  }

  lemma StepWorks(d: Device, s: State, a: Action)
    requires Enabled(s, a) && !a.Submit? && !a.Timeout? && !a.Unlock?
    ensures Work(Apply(d, s, a)) == Work(s) - 1
  {
    if a.Enter? {
      EnterWorks(d, s, a.t);
    } else if a.Leave? {
      LeaveWorks(d, s, a.t);
    } else {
      hide WaitingClients;
      SameClients(s, Apply(d, s, a));
    }
  }

  lemma SameClients(s: State, s': State)
    ensures s'.clients == s.clients ==> WaitingClients(s') == WaitingClients(s)
  {
  }

  lemma EnterWorks(d: Device, s: State, t: nat)
    requires Enabled(s, Enter(t))
    ensures Work(Apply(d, s, Enter(t))) == Work(s) - 1
  {
    var s' := Apply(d, s, Enter(t));
    assert s'.clients.Keys == s.clients.Keys;
    assert WaitingClients(s) == WaitingClients(s') + {t};
  }

  lemma LeaveWorks(d: Device, s: State, t: nat)
    requires Enabled(s, Leave(t))
    ensures Work(Apply(d, s, Leave(t))) == Work(s) - 1
  {
    var s' := Apply(d, s, Leave(t));
    assert s.clients.Keys == s'.clients.Keys + {t};
    assert WaitingClients(s') == WaitingClients(s);
  }

  ghost predicate NoSubmit(acts: seq<Action>) {
    forall i :: 0 <= i < |acts| ==> !acts[i].Submit?
  }

  /** Without new requests a run takes exactly the steps it works off. */
  lemma {:induction false} RunWorks(d: Device, s: State, acts: seq<Action>, s': State)
    requires Runs(d, s, acts, s') && AllAllowed(d, s, acts) && NoSubmit(acts) && NoUnlock(acts)
    ensures |acts| + Work(s') == Work(s)
    decreases |acts|
  {
    if acts != [] {
      assert !acts[0].Submit? && !acts[0].Unlock? && NoSubmit(acts[1..]) && NoUnlock(acts[1..]);
      StepWorks(d, s, acts[0]);
      RunWorks(d, Apply(d, s, acts[0]), acts[1..], s');
    }
  }

  lemma InitAttended()
    ensures Inv(Init()) && Attended(Init())
  {
  }

  /** After any allowed run, whatever happens next: the steps that remain before nothing but a new
      request can happen are bounded, and at that point every accepted request has been granted
      exactly once and no client is left. */
  lemma EveryRequestGranted(d: Device, before: seq<Action>, s: State, acts: seq<Action>, s': State)
    requires Runs(d, Init(), before, s) && AllAllowed(d, Init(), before) && NoUnlock(before)
    requires Runs(d, s, acts, s') && AllAllowed(d, s, acts) && NoSubmit(acts) && NoUnlock(acts)
    ensures |acts| <= Work(s) && (|acts| == Work(s) <==> !CanMove(d, s'))
    ensures !CanMove(d, s') ==> s'.clients == map[] && multiset(s'.accepted) == multiset(s'.granted)
  {
    InitAttended();
    RunKeeps(d, Init(), before, s);
    RunKeepsAttended(d, Init(), before, s);
    RunKeeps(d, s, acts, s');
    RunKeepsAttended(d, s, acts, s');
    RunWorks(d, s, acts, s');
    NeverStuck(d, s');
    hide Runs, AllAllowed, CanMove, Apply, Enabled;
    AtRest(s');
  }

  lemma AtRest(s: State)
    requires Inv(s)
    ensures Work(s) == 0 <==> s.queue == [] && s.pc.Idle? && s.clients == map[]
    ensures Work(s) == 0 ==> multiset(s.accepted) == multiset(s.granted)
  {
    assert s.clients.Keys == {} ==> s.clients == map[];
    assert WaitingClients(s) <= s.clients.Keys;
  }
}
