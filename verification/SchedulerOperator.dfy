/** Which operator a client of cSched.cpp finds in the vFPGA.  `reconfigure` skips an operator without a
    bitstream silently, and the scheduler remembers it as loaded all the same; operator -1 is the one it
    believes to be loaded at the start. */
module SchedulerOperator {
  import opened Options
  import opened TaskOrder
  import opened Scheduler
  import opened SchedulerFaults

  /** Some request granted so far asked for an operator other than -1. */
  ghost predicate AskedOther(s: State) {
    exists i :: 0 <= i < |s.granted| && s.granted[i].oid != NO_OID
  }

  /** What the scheduler believes to be loaded, and what is. */
  ghost predicate Tracks(d: Device, s: State) {
    && (s.loaded.Some? ==> d.enPr && s.loaded.value in d.bstreams)
    && (d.enPr && (s.pc.Locked? || s.pc.Granted?) ==> s.currOid == s.pc.req.oid)
    && (s.pc.Granted? ==> s.granted != [] && s.granted[|s.granted| - 1] == s.pc.req)
    && (d.enPr && s.currOid != NO_OID && s.currOid in d.bstreams ==> s.loaded == Some(s.currOid))
    && (d.enPr && s.currOid == NO_OID ==>
          if AskedOther(s) then NO_OID in d.bstreams ==> s.loaded == Some(NO_OID) else s.loaded == None)
    && (d.enPr && !s.pc.Locked? && s.currOid != NO_OID ==> AskedOther(s))
  }

  lemma AskedMore(s: State, s': State)
    requires AskedOther(s) && s.granted <= s'.granted
    ensures AskedOther(s')
  {
    var i :| 0 <= i < |s.granted| && s.granted[i].oid != NO_OID;
    assert s'.granted[i].oid != NO_OID;
  }

  /** The scheduler keeps track of the operator in every step, whatever the clients do. */
  lemma KeepsTracks(d: Device, s: State, a: Action)
    requires Tracks(d, s) && Enabled(s, a)
    ensures Tracks(d, Apply(d, s, a))
  {
    var s' := Apply(d, s, a);
    if AskedOther(s) {
      AskedMore(s, s');
    } else if a.Grant? {
      assert forall i :: 0 <= i < |s.granted| ==> s'.granted[i] == s.granted[i];
      assert s'.granted[|s.granted|] == s.pc.req;
    } else {
      assert s'.granted == s.granted;
    }
  }

  lemma {:induction false} RunKeepsTracks(d: Device, s: State, acts: seq<Action>, s': State)
    requires Tracks(d, s) && Runs(d, s, acts, s')
    ensures Tracks(d, s')
    decreases |acts|
  {
    hide Tracks, Enabled, Apply;
    if acts != [] {
      KeepsTracks(d, s, acts[0]);
      RunKeepsTracks(d, Apply(d, s, acts[0]), acts[1..], s');
    }
  }

  /** After any run that keeps the conditions of exclusion, whatever operators it asks for: the client inside
      finds its operator in the vFPGA if and only if reconfiguration is enabled and there is a bitstream
      for it; for operator -1, only once another operator has been asked for. */
  lemma FindsOperatorIff(d: Device, acts: seq<Action>, s: State, t: nat)
    requires Runs(d, Init(), acts, s) && AllAllowed(d, Init(), acts)
    requires t in s.clients && s.clients[t].Inside?
    ensures var oid := s.clients[t].load.oid;
      s.loaded == Some(oid) <==> d.enPr && oid in d.bstreams && (oid != NO_OID || AskedOther(s))
  {
    RunKeeps(d, Init(), acts, s);
    RunKeepsTracks(d, Init(), acts, s);
    hide DistinctCpids, AllWaiting, Accounted;
    assert s.pc.Granted? && s.clients[t].load == s.pc.req;
  }

  // ----- Two runs from the start -----

  /** A client that asks for an operator without a bitstream is let in with another one loaded. */
  lemma WrongOperatorRun(d: Device, a: Load, b: Load) returns (acts: seq<Action>, s: State)
    requires d.enPr && a.oid in d.bstreams && a.oid != NO_OID && b.oid !in d.bstreams
    ensures Runs(d, Init(), acts, s) && AllAllowed(d, Init(), acts)
    ensures s.clients == map[1 := Inside(b)] && s.currOid == b.oid && s.loaded == Some(a.oid) != Some(b.oid)
  {
    var rest := [Leave(0), Complete] + Serve(1, b);
    acts := Serve(0, a) + rest;
    hide Runs, AllAllowed;
    var s1 := ServedRun(d, Init(), 0, a, rest);
    var s2 := Apply(d, s1, Leave(0));
    var s3 := Apply(d, s2, Complete);
    assert s3.clients == map[] && s3.loaded == Some(a.oid) && s3.currOid == a.oid;
    s := ServedRun(d, s3, 1, b, []);
    AloneInside(d, s3, s, Serve(1, b));
    RunsFirst(d, s2, Complete, Serve(1, b), s);
    AllowedFirst(d, s2, Complete, Serve(1, b));
    RunsFirst(d, s1, Leave(0), [Complete] + Serve(1, b), s);
    AllowedFirst(d, s1, Leave(0), [Complete] + Serve(1, b));
    assert [Leave(0)] + ([Complete] + Serve(1, b)) == rest;
  }

  lemma AloneInside(d: Device, s: State, s': State, acts: seq<Action>)
    requires Runs(d, s', [], s') && AllAllowed(d, s', []) ==> Runs(d, s, acts + [], s') && AllAllowed(d, s, acts + [])
    ensures Runs(d, s, acts, s') && AllAllowed(d, s, acts)
  {
    assert acts + [] == acts;
  }

  /** A first client that asks for operator -1 is let in with nothing loaded, bitstream or not. */
  lemma NoOidRun(d: Device, a: Load) returns (s: State)
    requires a.oid == NO_OID
    ensures Runs(d, Init(), Serve(0, a), s) && AllAllowed(d, Init(), Serve(0, a))
    ensures s.clients == map[0 := Inside(a)] && s.loaded == None
  {
    hide Runs, AllAllowed;
    s := ServedRun(d, Init(), 0, a, []);
    AloneInside(d, Init(), s, Serve(0, a));
  }
}
