/** A full table: an insert that fails stores the new entry all the same and drops an old one. */
module CuckooFull {
  import opened Arith
  import opened Options
  import opened CuckooTable
  import opened CuckooMap
  import opened Tabulation

  /** A tabulation table for tables of eight slots in which every key has address 0, 2, 4, 6, 0, 2, 4, 6, 0. */
  function Address(i: nat): nat {
    2 * (i % 4)
  }

  function FullRandoms(): Randoms {
    Randoms(3, (i, bit, k) => if k == 0 then Address(i) else 0)
  }

  function FullHash(): Hashing {
    FullRandoms().Hash()
  }

  lemma {:induction false} XoredIs(i: nat, key: Key, k: nat)
    requires k > 0
    ensures FullRandoms().Xored(i, key, k) == Address(i)
    decreases k
  {
    assert Pow2(3) == 8;
    var r := FullRandoms();
    WrapSmall(Address(i), 8);
    WrapSmall(0, 8);
    if k > 1 {
      XoredIs(i, key, k - 1);
      XorZero(Address(i));
    } else {
      ZeroXor(Address(i));
    }
  }

  lemma {:induction false} XorZero(a: nat)
    ensures Xor(a, 0) == a
  {
    if a != 0 {
      XorZero(a / 2);
    }
  }

  lemma {:induction false} ZeroXor(a: nat)
    ensures Xor(0, a) == a
  {
    if a != 0 {
      ZeroXor(a / 2);
    }
  }

  lemma HashAt(i: nat, key: Key)
    ensures FullHash().size == 8 && FullHash().At(i, key) == Address(i)
  {
    assert Pow2(3) == 8;
    HashIs(FullRandoms(), i, key);
    XoredIs(i, key, KEY_SIZE);
  }

  ghost predicate Constant(h: Hashing) {
    h.size == 8 && forall i, key :: 0 <= i < NUM_TABLES ==> h.At(i, key) == Address(i)
  }

  /** Every slot that a key can have is taken. */
  ghost predicate Full(h: Hashing, t: Tables) {
    Constant(h) && Shape(h, t) && forall i :: 0 <= i < NUM_TABLES ==> t[i][Address(i)].valid
  }

  // ----- The twelve rounds -----

  /** After r rounds the victim counters are known, and the entry of table 5 has not been touched. */
  ghost predicate After(h: Hashing, c: Trial, r: nat, e: Entry) {
    && TrialOk(h, c) && Full(h, c.t) && c.cur.valid && !c.done
    && c.idx == r % NUM_TABLES && c.bit == r % 2 && c.t[5][Address(5)] == e
  }

  lemma RoundOfFull(h: Hashing, c: Trial)
    requires TrialOk(h, c) && Full(h, c.t) && c.cur.valid && !c.done
    ensures var v, r := Address(c.idx) + c.bit, Round(h, c);
      && v < NUM_TABLES && !r.done && Full(h, r.t) && r.cur == c.t[v][Address(v)] && r.cur.valid
      && r.idx == (c.idx + 1) % NUM_TABLES && r.bit == 1 - c.bit
      && (v != 5 ==> r.t[5] == c.t[5])
  {
    assert Address(c.idx) == 0 || Address(c.idx) == 2 || Address(c.idx) == 4 || Address(c.idx) == 6;
    forall i | 0 <= i < NUM_TABLES ensures Slot(h, c.t, i, c.cur.key).valid {
      assert Slot(h, c.t, i, c.cur.key) == c.t[i][Address(i)];
    }
    assert Victim(h, c) == Address(c.idx) + c.bit;
  }

  /** The victims are those of tables 0, 3, 4, 7, 0, 3, 4, 7, 0, 1, 2 and then 5. */
  lemma VictimOf(r: nat)
    requires r < MAX_TRIALS
    ensures Address(r % NUM_TABLES) + r % 2 == 5 <==> r == MAX_TRIALS - 1
    ensures (r + 1) % NUM_TABLES == (r % NUM_TABLES + 1) % NUM_TABLES && (r + 1) % 2 == 1 - r % 2
  {
  }

  lemma {:induction false} RoundsOfFull(h: Hashing, c: Trial, r: nat, e: Entry)
    requires r < MAX_TRIALS && After(h, c, r, e)
    ensures var last := Rounds(h, c, MAX_TRIALS - r);
      !last.done && last.cur == e
    decreases MAX_TRIALS - r
  {
    hide Round, Full, Address;
    var next := Round(h, c);
    RoundOfFull(h, c);
    VictimOf(r);
    if r + 1 < MAX_TRIALS {
      RoundsOfFull(h, next, r + 1, e);
    } else {
      assert Rounds(h, next, 0) == next;
    }
  }

  // ----- The table -----

  /** Table i holds key i, in the one slot it can have. */
  function FullTables(): Tables {
    seq(NUM_TABLES, i requires 0 <= i < NUM_TABLES =>
      seq(8, a requires 0 <= a < 8 => Entry(i as Key, i as Value, a == Address(i))))
  }

  function FullContents(): Contents {
    map[0 := 0, 1 := 1, 2 := 2, 3 := 3, 4 := 4, 5 := 5, 6 := 6, 7 := 7, 8 := 8]
  }

  lemma FullRepresents()
    ensures Constant(FullHash()) && Full(FullHash(), FullTables())
    ensures Represents(FullHash(), FullTables(), FullContents())
  {
    FullShape();
    hide FullHash, FullTables, FullContents, Lookup;
    forall k ensures Lookup(FullHash(), FullTables(), k) == Get(FullContents(), k) {
      FullLookup(FullHash(), FullTables(), k);
    }
  }

  lemma FullShape()
    ensures Constant(FullHash()) && Full(FullHash(), FullTables())
    ensures var h, t := FullHash(), FullTables();
      && Placed(h, t) && Unique(h, t)
      && forall i, k :: 0 <= i < NUM_TABLES ==> (Holds(h, t, i, k) <==> k as int == i)
  {
    hide FullHash;
    var h, t := FullHash(), FullTables();
    forall i, key: Key | 0 <= i < NUM_TABLES ensures h.At(i, key) == Address(i) {
      HashAt(i, key);
    }
    HashAt(0, 0);
    forall i, k | 0 <= i < NUM_TABLES ensures Holds(h, t, i, k) <==> k as int == i {
      assert Slot(h, t, i, k) == t[i][Address(i)];
    }
  }

  lemma FullLookup(h: Hashing, t: Tables, k: Key)
    requires Shape(h, t) && Unique(h, t) && t == FullTables()
    requires forall i, key: Key :: 0 <= i < NUM_TABLES ==> (Holds(h, t, i, key) <==> key as int == i)
    requires forall i, key: Key :: 0 <= i < NUM_TABLES ==> h.At(i, key) == Address(i)
    ensures Lookup(h, t, k) == Get(FullContents(), k)
  {
    if k < 9 {
      LookupOf(h, t, k as int, k);
      assert Slot(h, t, k as int, k) == t[k as int][Address(k as int)];
    } else {
      LookupNone(h, t, k);
    }
  }

  /** Key 9 is inserted into the full table: the insert fails, key 9 is found afterwards, and key 5 is not. */
  lemma FailedInsertDropsOld(value: Value)
    ensures var h, t := FullHash(), FullTables();
      && Represents(h, t, FullContents()) && 9 !in FullContents() && 5 in FullContents()
      && var r := Insert(h, t, 0, 9, value);
         && !r.done && r.cur.key == 5
         && Lookup(h, r.t, 9) == Some(value) && Lookup(h, r.t, 5) == None
  {
    hide FullHash, FullTables, Represents, Rounds, Lookup, Full, Constant;
    var h, t, m := FullHash(), FullTables(), FullContents();
    FullRepresents();
    FullStart(h, t, value);
    var c := Trial(t, Entry(9, value, true), 0, 0, false);
    RoundsOfFull(h, c, 0, Entry(5, 5, true));
    InsertRepresents(h, t, m, 0, 9, value);
    var r := Insert(h, t, 0, 9, value);
    Answers(h, r.t, m[9 := value] - {5}, 9);
    Answers(h, r.t, m[9 := value] - {5}, 5);
  }

  lemma Answers(h: Hashing, t: Tables, m: Contents, k: Key)
    requires Represents(h, t, m)
    ensures Lookup(h, t, k) == Get(m, k)
  {
  }

  lemma FullStart(h: Hashing, t: Tables, value: Value)
    requires Constant(h) && Full(h, t) && t == FullTables()
    ensures After(h, Trial(t, Entry(9, value, true), 0, 0, false), 0, Entry(5, 5, true))
  {
  }
}
