/** The cuckoo table of hash_table.cpp seen as a map from keys to values: what one operation
    does to the map, and what whole runs of operations do. */
module CuckooMap {
  import opened Collections
  import opened Options
  import opened CuckooTable

  type Contents = map<Key, Value>

  function Get(m: Contents, k: Key): Option<Value> {
    if k in m then Some(m[k]) else None
  }

  /** The table answers every lookup as `m` does, and stores every key once, at its own hash. */
  ghost predicate Represents(h: Hashing, t: Tables, m: Contents) {
    Shape(h, t) && Placed(h, t) && Unique(h, t) && forall k :: Lookup(h, t, k) == Get(m, k)
  }

  lemma LookupOf(h: Hashing, t: Tables, i: nat, k: Key)
    requires Shape(h, t) && Unique(h, t) && i < NUM_TABLES && Holds(h, t, i, k)
    ensures Lookup(h, t, k) == Some(Slot(h, t, i, k).value)
  {
  }

  lemma LookupNone(h: Hashing, t: Tables, k: Key)
    requires Shape(h, t)
    ensures Lookup(h, t, k) == None <==> Absent(h, t, k)
  {
  }

  /** Overwriting the slot of `e.key` in table `s` changes no other slot. */
  lemma PutFrame(h: Hashing, t: Tables, s: nat, e: Entry, i: nat, k: Key)
    requires Shape(h, t) && s < NUM_TABLES && i < NUM_TABLES
    ensures Slot(h, Put(h, t, s, e), i, k) ==
            if i == s && h.At(s, k) == h.At(s, e.key) then e else Slot(h, t, i, k)
  {
  }

  /** Writing an absent key over a slot: the map gains the new entry and loses the old
      occupant of the slot, if there was one. */
  lemma PutRepresents(h: Hashing, t: Tables, m: Contents, s: nat, e: Entry)
    requires Represents(h, t, m) && s < NUM_TABLES && e.valid && e.key !in m
    ensures var was := Slot(h, t, s, e.key);
      Represents(h, Put(h, t, s, e), (if was.valid then m - {was.key} else m)[e.key := e.value])
    ensures var was := Slot(h, t, s, e.key);
      was.valid ==> was.key in m && was.key != e.key && m[was.key] == was.value
  {
    var was := Slot(h, t, s, e.key);
    var t' := Put(h, t, s, e);
    var m' := (if was.valid then m - {was.key} else m)[e.key := e.value];
    assert Lookup(h, t, e.key) == Get(m, e.key);
    LookupNone(h, t, e.key);
    if was.valid {
      assert Holds(h, t, s, was.key);
      LookupOf(h, t, s, was.key);
    }
    forall i, k | 0 <= i < NUM_TABLES
      ensures Holds(h, t', i, k) <==> (if k == e.key then i == s else Holds(h, t, i, k) && !(was.valid && k == was.key))
      ensures Holds(h, t', i, k) ==> Slot(h, t', i, k).value == if k == e.key then e.value else Slot(h, t, i, k).value
    {
      PutFrame(h, t, s, e, i, k);
      if k == e.key {
        assert !Holds(h, t, i, k);
      } else if was.valid && k == was.key {
        assert Holds(h, t, i, k) ==> i == s;
        assert h.At(s, k) == h.At(s, e.key);
      }
    }
    forall k
      ensures Lookup(h, t', k) == Get(m', k)
    {
      LookupNone(h, t', k);
      LookupNone(h, t, k);
      assert Lookup(h, t, k) == Get(m, k);
      if Lookup(h, t', k) != None {
        var i := LastHit(h, t', k, NUM_TABLES);
        LookupOf(h, t', i, k);
        if k != e.key {
          LookupOf(h, t, i, k);
        }
      } else if k in m && k != e.key {
        var i := LastHit(h, t, k, NUM_TABLES);
        assert Holds(h, t, i, k) && !Holds(h, t', i, k);
      }
    }
  }

  // ----- One insert -----

  /** `whole` is what the tables hold together with the entry still carried. */
  ghost predicate TrialRepresents(h: Hashing, c: Trial, whole: Contents) {
    TrialOk(h, c) &&
    if c.done then Represents(h, c.t, whole)
    else c.cur.valid && Get(whole, c.cur.key) == Some(c.cur.value) && Represents(h, c.t, whole - {c.cur.key})
  }

  lemma RoundRepresents(h: Hashing, c: Trial, whole: Contents)
    requires TrialRepresents(h, c, whole) && !c.done
    ensures TrialRepresents(h, Round(h, c), whole)
  {
    var m := whole - {c.cur.key};
    var slot := LastFree(h, c.t, c.cur.key, NUM_TABLES);
    var s := if slot != -1 then slot else Victim(h, c);
    var was := Slot(h, c.t, s, c.cur.key);
    PutRepresents(h, c.t, m, s, c.cur);
    if slot != -1 {
      assert m[c.cur.key := c.cur.value] == whole;
    } else {
      assert was.valid;
      assert (m - {was.key})[c.cur.key := c.cur.value] == whole - {was.key};
    }
  }

  lemma {:induction false} RoundsRepresent(h: Hashing, c: Trial, whole: Contents, n: nat)
    requires TrialRepresents(h, c, whole)
    ensures TrialRepresents(h, Rounds(h, c, n), whole)
    decreases n
  {
    if !c.done && n != 0 {
      RoundRepresents(h, c, whole);
      RoundsRepresent(h, Round(h, c), whole, n - 1);
    }
  }

  /** Inserting an absent key: on success the map gains the entry; on failure it gains it and
      loses exactly one entry, not necessarily the new one. */
  lemma InsertRepresents(h: Hashing, t: Tables, m: Contents, bit: nat, key: Key, value: Value)
    requires Represents(h, t, m) && bit < 2 && key !in m
    ensures var r := Insert(h, t, bit, key, value);
      if r.done then Represents(h, r.t, m[key := value])
      else r.cur.key in m[key := value] && m[key := value][r.cur.key] == r.cur.value
           && Represents(h, r.t, m[key := value] - {r.cur.key})
  {
    var c := Trial(t, Entry(key, value, true), 0, bit, false);
    assert m[key := value] - {key} == m;
    RoundsRepresent(h, c, m[key := value], MAX_TRIALS);
  }

  // ----- Inserting a key that is already there -----

  /** The tables that hold `k`. */
  ghost function Copies(h: Hashing, t: Tables, k: Key): set<nat>
    requires Shape(h, t)
  {
    set i: nat | i < NUM_TABLES && Holds(h, t, i, k)
  }

  ghost function Carried(c: Trial, k: Key): nat {
    if !c.done && c.cur.key == k then 1 else 0
  }

  lemma UniqueCopies(h: Hashing, t: Tables)
    requires Shape(h, t)
    ensures Unique(h, t) <==> forall k :: |Copies(h, t, k)| <= 1
  {
    if Unique(h, t) {
      forall k ensures |Copies(h, t, k)| <= 1 {
        if i :| i in Copies(h, t, k) {
          assert Copies(h, t, k) == {i};
        }
      }
    } else {
      var i: nat, j: nat, k :| i < NUM_TABLES && j < NUM_TABLES && Holds(h, t, i, k) && Holds(h, t, j, k) && i != j;
      assert {i, j} <= Copies(h, t, k);
      SubsetSize({i, j}, Copies(h, t, k));
    }
  }

  lemma SizesApart<T>(a: set<T>, b: set<T>, x: T)
    requires a - {x} == b - {x}
    ensures |a| + (if x in b then 1 else 0) == |b| + if x in a then 1 else 0
  {
    assert a == if x in a then (a - {x}) + {x} else a - {x};
    assert b == if x in b then (b - {x}) + {x} else b - {x};
  }

  lemma PutHolds(h: Hashing, t: Tables, s: nat, e: Entry, k: Key)
    requires Shape(h, t) && Placed(h, t) && s < NUM_TABLES && e.valid
    ensures var was := Slot(h, t, s, e.key);
      (if Holds(h, Put(h, t, s, e), s, k) then 1 else 0) + (if was.valid && was.key == k then 1 else 0)
      == (if Holds(h, t, s, k) then 1 else 0) + if e.key == k then 1 else 0
  {
    var was := Slot(h, t, s, e.key);
    PutFrame(h, t, s, e, s, k);
    if was.valid && was.key == k {
      assert h.At(s, k) == h.At(s, e.key);
    }
  }

  /** Writing a valid entry over a slot adds a copy of its key and removes the old occupant's. */
  lemma PutCopies(h: Hashing, t: Tables, s: nat, e: Entry, k: Key)
    requires Shape(h, t) && Placed(h, t) && s < NUM_TABLES && e.valid
    ensures var was := Slot(h, t, s, e.key);
      |Copies(h, Put(h, t, s, e), k)| + (if was.valid && was.key == k then 1 else 0)
      == |Copies(h, t, k)| + if e.key == k then 1 else 0
  {
    var t' := Put(h, t, s, e);
    forall i: nat | i < NUM_TABLES && i != s
      ensures i in Copies(h, t', k) <==> i in Copies(h, t, k)
    {
      PutFrame(h, t, s, e, i, k);
    }
    SizesApart(Copies(h, t', k), Copies(h, t, k), s);
    PutHolds(h, t, s, e, k);
  }

  lemma RoundCopies(h: Hashing, c: Trial, k: Key)
    requires TrialOk(h, c) && Placed(h, c.t) && !c.done && c.cur.valid
    ensures var r := Round(h, c);
      |Copies(h, r.t, k)| + Carried(r, k) == |Copies(h, c.t, k)| + Carried(c, k)
  {
    var slot := LastFree(h, c.t, c.cur.key, NUM_TABLES);
    PutCopies(h, c.t, if slot != -1 then slot else Victim(h, c), c.cur, k);
  }

  lemma {:induction false} RoundsCopies(h: Hashing, c: Trial, n: nat, k: Key)
    requires TrialOk(h, c) && Placed(h, c.t) && (!c.done ==> c.cur.valid)
    ensures var r := Rounds(h, c, n);
      |Copies(h, r.t, k)| + Carried(r, k) == |Copies(h, c.t, k)| + Carried(c, k)
    decreases n
  {
    if !c.done && n != 0 {
      RoundCopies(h, c, k);
      RoundConserves(h, c);
      RoundsCopies(h, Round(h, c), n - 1, k);
    }
  }

  /** `insert` never looks for the key it inserts.  Keys stay unique exactly when the key was
      absent, or when the one entry that a failed insert drops is a copy of that very key; after a
      successful insert exactly when a lookup before it finds nothing. */
  lemma InsertKeepsUniqueIff(h: Hashing, t: Tables, bit: nat, key: Key, value: Value)
    requires Shape(h, t) && Placed(h, t) && Unique(h, t) && bit < 2
    ensures var r := Insert(h, t, bit, key, value);
      && (Unique(h, r.t) <==> Lookup(h, t, key) == None || (!r.done && r.cur.key == key))
      && (r.done ==> (Unique(h, r.t) <==> Lookup(h, t, key) == None))
  {
    var c := Trial(t, Entry(key, value, true), 0, bit, false);
    var r := Insert(h, t, bit, key, value);
    UniqueCopies(h, t);
    UniqueCopies(h, r.t);
    forall k ensures |Copies(h, r.t, k)| + Carried(r, k) == |Copies(h, t, k)| + if k == key then 1 else 0 {
      RoundsCopies(h, c, MAX_TRIALS, k);
    }
    LookupNone(h, t, key);
    if Lookup(h, t, key) == None {
      assert Copies(h, t, key) == {};
    } else {
      assert LastHit(h, t, key, NUM_TABLES) in Copies(h, t, key);
      assert |Copies(h, t, key)| == 1;
    }
  }

  /** A table in which an insert leaves two entries under one key: every lookup then reports
      the one in the higher table. */
  lemma InsertTwiceBreaksUnique(h: Hashing, key: Key, v: Value, w: Value, free: Entry)
    requires !free.valid
    ensures var empty := seq(NUM_TABLES, i => seq(h.size, a => free));
      && Represents(h, empty, map[])
      && var once := Insert(h, empty, 0, key, v);
         var twice := Insert(h, once.t, once.bit, key, w);
      && once.done && twice.done && !Unique(h, twice.t) && Lookup(h, twice.t, key) == Some(v)
  {
    var empty := seq(NUM_TABLES, i => seq(h.size, a => free));
    forall k ensures Lookup(h, empty, k) == None {
      LookupNone(h, empty, k);
    }
    var c := Trial(empty, Entry(key, v, true), 0, 0, false);
    assert LastFree(h, empty, key, NUM_TABLES) == 8;
    assert Rounds(h, c, MAX_TRIALS) == Round(h, c);
    var once := Insert(h, empty, 0, key, v);
    InsertRepresents(h, empty, map[], 0, key, v);
    assert Lookup(h, once.t, key) == Get(map[key := v], key);
    forall i: nat | i < NUM_TABLES ensures Slot(h, once.t, i, key).valid <==> i == 8 {
      PutFrame(h, empty, 8, c.cur, i, key);
    }
    var d := Trial(once.t, Entry(key, w, true), 0, once.bit, false);
    assert LastFree(h, once.t, key, NUM_TABLES) == 7;
    assert Rounds(h, d, MAX_TRIALS) == Round(h, d);
    InsertKeepsUniqueIff(h, once.t, once.bit, key, w);
    PutFrame(h, once.t, 7, d.cur, 8, key);
  }

  // ----- Remove -----

  lemma {:induction false} RemoveHolds(h: Hashing, t: Tables, k: Key, n: nat)
    requires Shape(h, t) && Placed(h, t) && n <= NUM_TABLES
    ensures var r := Remove(h, t, k, n);
      && Placed(h, r)
      && (forall i, x :: 0 <= i < NUM_TABLES ==> (Holds(h, r, i, x) <==> Holds(h, t, i, x) && !(x == k && i < n)))
      && (forall i, x :: 0 <= i < NUM_TABLES ==> Slot(h, r, i, x).value == Slot(h, t, i, x).value)
  {
    if n != 0 {
      RemoveHolds(h, t, k, n - 1);
    }
  }

  /** `remove` deletes the key from the map and reports whether it was there. */
  lemma RemoveRepresents(h: Hashing, t: Tables, m: Contents, k: Key)
    requires Represents(h, t, m)
    ensures Represents(h, Remove(h, t, k, NUM_TABLES), m - {k})
    ensures LastHit(h, t, k, NUM_TABLES) != -1 <==> k in m
  {
    var r := Remove(h, t, k, NUM_TABLES);
    RemoveHolds(h, t, k, NUM_TABLES);
    assert Lookup(h, t, k) == Get(m, k);
    forall x ensures Lookup(h, r, x) == Get(m - {k}, x) {
      assert Lookup(h, t, x) == Get(m, x);
      LookupNone(h, r, x);
      LookupNone(h, t, x);
      if Lookup(h, r, x) != None {
        LookupOf(h, t, LastHit(h, r, x, NUM_TABLES), x);
      }
    }
  }

  // ----- Runs -----

  datatype Op = LookupOp(key: Key) | InsertOp(key: Key, value: Value) | DeleteOp(key: Key)
  datatype Reply = Found(value: Option<Value>) | Updated(success: bool)
  datatype State = State(t: Tables, bit: nat)

  function Step(h: Hashing, s: State, op: Op): (r: (State, Reply))
    requires Shape(h, s.t) && s.bit < 2
    ensures Shape(h, r.0.t) && r.0.bit < 2
  {
    match op
    case LookupOp(k) => (s, Found(Lookup(h, s.t, k)))
    case InsertOp(k, v) =>
      var c := Insert(h, s.t, s.bit, k, v);
      (State(c.t, c.bit), Updated(c.done))
    case DeleteOp(k) => (State(Remove(h, s.t, k, NUM_TABLES), s.bit), Updated(LastHit(h, s.t, k, NUM_TABLES) != -1))
  }

  function Run(h: Hashing, s: State, ops: seq<Op>): (r: (State, seq<Reply>))
    requires Shape(h, s.t) && s.bit < 2
    ensures Shape(h, r.0.t) && r.0.bit < 2 && |r.1| == |ops|
    decreases |ops|
  {
    if ops == [] then (s, []) else
      var first := Step(h, s, ops[0]);
      var rest := Run(h, first.0, ops[1..]);
      (rest.0, [first.1] + rest.1)
  }

  /** The abstract map: every insert succeeds. */
  function MapStep(m: Contents, op: Op): (Contents, Reply) {
    match op
    case LookupOp(k) => (m, Found(Get(m, k)))
    case InsertOp(k, v) => (m[k := v], Updated(true))
    case DeleteOp(k) => (m - {k}, Updated(k in m))
  }

  function MapRun(m: Contents, ops: seq<Op>): (Contents, seq<Reply>)
    decreases |ops|
  {
    if ops == [] then (m, []) else
      var first := MapStep(m, ops[0]);
      var rest := MapRun(first.0, ops[1..]);
      (rest.0, [first.1] + rest.1)
  }

  /** The map a run really leaves behind: a failed insert drops the entry it still carries. */
  ghost function Survivors(h: Hashing, s: State, m: Contents, op: Op): Contents
    requires Shape(h, s.t) && s.bit < 2
  {
    if op.InsertOp? && !Insert(h, s.t, s.bit, op.key, op.value).done then
      m[op.key := op.value] - {Insert(h, s.t, s.bit, op.key, op.value).cur.key}
    else
      MapStep(m, op).0
  }

  ghost function SurvivorsRun(h: Hashing, s: State, m: Contents, ops: seq<Op>): Contents
    requires Shape(h, s.t) && s.bit < 2
    decreases |ops|
  {
    if ops == [] then m else SurvivorsRun(h, Step(h, s, ops[0]).0, Survivors(h, s, m, ops[0]), ops[1..])
  }

  /** Callers insert only keys that the table does not hold at that moment. */
  ghost predicate Fresh(h: Hashing, s: State, m: Contents, ops: seq<Op>)
    requires Shape(h, s.t) && s.bit < 2
    decreases |ops|
  {
    ops == [] ||
    ((ops[0].InsertOp? ==> ops[0].key !in m) &&
     Fresh(h, Step(h, s, ops[0]).0, Survivors(h, s, m, ops[0]), ops[1..]))
  }

  /** What an operation adds to the number of entries, judged by its reply. */
  ghost function Gain(op: Op, reply: Reply): int {
    if op.InsertOp? then (if reply == Updated(true) then 1 else 0)
    else if op.DeleteOp? then (if reply == Updated(true) then -1 else 0)
    else 0
  }

  ghost function Gains(ops: seq<Op>, replies: seq<Reply>): int
    requires |ops| == |replies|
  {
    if ops == [] then 0 else Gain(ops[0], replies[0]) + Gains(ops[1..], replies[1..])
  }

  lemma RemoveSize(m: Contents, k: Key)
    ensures |m - {k}| == if k in m then |m| - 1 else |m|
  {
    if k in m {
      assert m == (m - {k})[k := m[k]];
    } else {
      assert m == m - {k};
    }
  }

  lemma StepRefines(h: Hashing, s: State, m: Contents, op: Op)
    requires Represents(h, s.t, m) && s.bit < 2
    requires op.InsertOp? ==> op.key !in m
    ensures var r := Step(h, s, op); var m' := Survivors(h, s, m, op);
      && Represents(h, r.0.t, m')
      && (op.InsertOp? || r.1 == MapStep(m, op).1)
      && |m'| == |m| + Gain(op, r.1)
  {
    match op
    case LookupOp(k) =>
    case InsertOp(k, v) =>
      InsertRepresents(h, s.t, m, s.bit, k, v);
      RemoveSize(m[k := v], Insert(h, s.t, s.bit, k, v).cur.key);
    case DeleteOp(k) =>
      RemoveRepresents(h, s.t, m, k);
      RemoveSize(m, k);
  }

  /** Over any run that inserts absent keys only, the table represents the surviving map, whose
      size is the old size plus successful inserts minus successful deletes: every failed
      insert costs one entry. */
  lemma {:induction false} RunRepresents(h: Hashing, s: State, m: Contents, ops: seq<Op>)
    requires Represents(h, s.t, m) && s.bit < 2 && Fresh(h, s, m, ops)
    ensures Represents(h, Run(h, s, ops).0.t, SurvivorsRun(h, s, m, ops))
    ensures |SurvivorsRun(h, s, m, ops)| == |m| + Gains(ops, Run(h, s, ops).1)
    decreases |ops|
  {
    if ops != [] {
      StepRefines(h, s, m, ops[0]);
      var first := Step(h, s, ops[0]);
      RunRepresents(h, first.0, Survivors(h, s, m, ops[0]), ops[1..]);
      assert Run(h, s, ops).1[1..] == Run(h, first.0, ops[1..]).1;
    }
  }

  /** A run in which every insert succeeds is a run of the map: same replies, same contents. */
  lemma {:induction false} RunRefinesMap(h: Hashing, s: State, m: Contents, ops: seq<Op>)
    requires Represents(h, s.t, m) && s.bit < 2 && Fresh(h, s, m, ops)
    requires forall i :: 0 <= i < |ops| && ops[i].InsertOp? ==> Run(h, s, ops).1[i] == Updated(true)
    ensures Run(h, s, ops).1 == MapRun(m, ops).1
    ensures Represents(h, Run(h, s, ops).0.t, MapRun(m, ops).0)
    decreases |ops|
  {
    if ops != [] {
      StepRefines(h, s, m, ops[0]);
      var first := Step(h, s, ops[0]);
      var rest := Run(h, first.0, ops[1..]);
      forall i | 0 <= i < |ops[1..]| && ops[1..][i].InsertOp?
        ensures rest.1[i] == Updated(true)
      {
        assert Run(h, s, ops).1[i + 1] == rest.1[i] && ops[i + 1] == ops[1..][i];
      }
      assert Run(h, s, ops).1[0] == first.1;
      RunRefinesMap(h, first.0, MapStep(m, ops[0]).0, ops[1..]);
    }
  }
}
