/** The cuckoo table of hash_table.cpp: nine tables, one candidate slot per table and key,
    and an insert that evicts for at most twelve rounds.

    `Lookup`, `Insert` and `Remove` are the table as functions of its contents; the class
    HashTable of HashTable.dfy is the table updated in place, proved equal to them. */
module CuckooTable {
  import opened Options

  const NUM_TABLES: nat := 9
  const MAX_TRIALS: nat := 12

  newtype Key = k: int | 0 <= k < 0x1_0000_0000_0000_0000
  newtype Value = v: int | 0 <= v < 0x1_0000

  datatype Entry = Entry(key: Key, value: Value, valid: bool)

  type Tables = seq<seq<Entry>>

  type pos = n: nat | 0 < n witness 1

  /** TABLE_SIZE and the hashes: any functions of table and key, cut to the size of a table;
      Tabulation.dfy has those of the code. */
  datatype Hashing = Hashing(size: pos, random: (nat, Key) -> nat) {
    function At(i: nat, k: Key): (a: nat)
      ensures a < size
    {
      random(i, k) % size
    }
  }

  ghost predicate Shape(h: Hashing, t: Tables) {
    |t| == NUM_TABLES && forall i :: 0 <= i < NUM_TABLES ==> |t[i]| == h.size
  }

  /** The one slot of table `i` in which `k` may be stored. */
  function Slot(h: Hashing, t: Tables, i: nat, k: Key): Entry
    requires Shape(h, t) && i < NUM_TABLES
  {
    t[i][h.At(i, k)]
  }

  predicate Holds(h: Hashing, t: Tables, i: nat, k: Key)
    requires Shape(h, t) && i < NUM_TABLES
  {
    Slot(h, t, i, k).valid && Slot(h, t, i, k).key == k
  }

  /** Every stored entry sits at its own hash. */
  ghost predicate Placed(h: Hashing, t: Tables)
    requires Shape(h, t)
  {
    forall i, a :: 0 <= i < NUM_TABLES && 0 <= a < h.size && t[i][a].valid ==> h.At(i, t[i][a].key) == a
  }

  /** No key is stored twice. */
  ghost predicate Unique(h: Hashing, t: Tables)
    requires Shape(h, t)
  {
    forall i, j, k :: 0 <= i < NUM_TABLES && 0 <= j < NUM_TABLES && Holds(h, t, i, k) && Holds(h, t, j, k) ==> i == j
  }

  ghost predicate Absent(h: Hashing, t: Tables, k: Key)
    requires Shape(h, t)
  {
    forall i :: 0 <= i < NUM_TABLES ==> !Holds(h, t, i, k)
  }

  // ----- Lookup -----

  /** The last of the first `n` tables that holds `k`, or -1. */
  function LastHit(h: Hashing, t: Tables, k: Key, n: nat): (slot: int)
    requires Shape(h, t) && n <= NUM_TABLES
    ensures -1 <= slot < n
    ensures slot != -1 ==> Holds(h, t, slot, k)
    ensures forall i :: slot < i < n ==> !Holds(h, t, i, k)
  {
    if n == 0 then -1 else if Holds(h, t, n - 1, k) then n - 1 else LastHit(h, t, k, n - 1)
  }

  function Lookup(h: Hashing, t: Tables, k: Key): Option<Value>
    requires Shape(h, t)
  {
    var slot := LastHit(h, t, k, NUM_TABLES);
    if slot == -1 then None else Some(Slot(h, t, slot, k).value)
  }

  // ----- Insert -----

  /** The last of the first `n` tables whose slot for `k` is free, or -1. */
  function LastFree(h: Hashing, t: Tables, k: Key, n: nat): (slot: int)
    requires Shape(h, t) && n <= NUM_TABLES
    ensures -1 <= slot < n
    ensures slot != -1 ==> !Slot(h, t, slot, k).valid
    ensures forall i :: slot < i < n ==> Slot(h, t, i, k).valid
  {
    if n == 0 then -1 else if !Slot(h, t, n - 1, k).valid then n - 1 else LastFree(h, t, k, n - 1)
  }

  function Put(h: Hashing, t: Tables, i: nat, e: Entry): (r: Tables)
    requires Shape(h, t) && i < NUM_TABLES
    ensures Shape(h, r)
  {
    t[i := t[i][h.At(i, e.key) := e]]
  }

  /** An insert between two rounds: the tables, the entry still carried (when not `done`),
      and the two victim counters. */
  datatype Trial = Trial(t: Tables, cur: Entry, idx: nat, bit: nat, done: bool)

  ghost predicate TrialOk(h: Hashing, c: Trial) {
    Shape(h, c.t) && c.idx < NUM_TABLES && c.bit < 2
  }

  function Victim(h: Hashing, c: Trial): (v: nat)
    requires TrialOk(h, c)
    ensures v < NUM_TABLES
  {
    h.At(c.idx, c.cur.key) % (NUM_TABLES - 1) + c.bit
  }

  function Round(h: Hashing, c: Trial): (r: Trial)
    requires TrialOk(h, c)
    ensures TrialOk(h, r)
  {
    var slot := LastFree(h, c.t, c.cur.key, NUM_TABLES);
    if slot != -1 then
      Trial(Put(h, c.t, slot, c.cur), c.cur, c.idx, 1 - c.bit, true)
    else
      var v := Victim(h, c);
      Trial(Put(h, c.t, v, c.cur), Slot(h, c.t, v, c.cur.key),
            if c.idx + 1 == NUM_TABLES then 0 else c.idx + 1, 1 - c.bit, false)
  }

  function Rounds(h: Hashing, c: Trial, n: nat): (r: Trial)
    requires TrialOk(h, c)
    ensures TrialOk(h, r)
    decreases n, c.idx
  {
    if c.done || n == 0 then c else Rounds(h, Round(h, c), n - 1)
  }

  function Insert(h: Hashing, t: Tables, bit: nat, key: Key, value: Value): (r: Trial)
    requires Shape(h, t) && bit < 2
    ensures TrialOk(h, r)
  {
    Rounds(h, Trial(t, Entry(key, value, true), 0, bit, false), MAX_TRIALS)
  }

  // ----- Remove -----

  function Cleared(h: Hashing, t: Tables, i: nat, k: Key): (r: Tables)
    requires Shape(h, t) && i < NUM_TABLES
    ensures Shape(h, r)
  {
    if Holds(h, t, i, k) then Put(h, t, i, Slot(h, t, i, k).(valid := false)) else t
  }

  /** Tables 0..n-1 with every copy of `k` invalidated. */
  function Remove(h: Hashing, t: Tables, k: Key, n: nat): (r: Tables)
    requires Shape(h, t) && n <= NUM_TABLES
    ensures Shape(h, r)
    ensures forall i :: n <= i < NUM_TABLES ==> r[i] == t[i]
  {
    if n == 0 then t else Cleared(h, Remove(h, t, k, n - 1), n - 1, k)
  }

  // ----- Conservation of entries -----

  ghost function One(e: Entry): multiset<(Key, Value)> {
    if e.valid then multiset{(e.key, e.value)} else multiset{}
  }

  ghost function RowStored(row: seq<Entry>): multiset<(Key, Value)> {
    if row == [] then multiset{} else One(row[0]) + RowStored(row[1..])
  }

  /** The entries stored in the tables, with multiplicity. */
  ghost function Stored(t: Tables): multiset<(Key, Value)> {
    if t == [] then multiset{} else RowStored(t[0]) + Stored(t[1..])
  }

  ghost function Balance(c: Trial): multiset<(Key, Value)> {
    Stored(c.t) + if c.done then multiset{} else One(c.cur)
  }

  lemma SumSwap<T>(m: multiset<T>, x: multiset<T>, a: multiset<T>, y: multiset<T>, b: multiset<T>)
    requires x + a == y + b
    ensures (m + x) + a == (m + y) + b
  {
    assert (m + x) + a == m + (x + a);
  }

  lemma {:induction false} RowStoredUpdate(row: seq<Entry>, a: nat, e: Entry)
    requires a < |row|
    ensures RowStored(row[a := e]) + One(row[a]) == RowStored(row) + One(e)
  {
    if a == 0 {
      assert row[0 := e][1..] == row[1..];
    } else {
      assert row[a := e][1..] == row[1..][a - 1 := e];
      RowStoredUpdate(row[1..], a - 1, e);
      SumSwap(One(row[0]), RowStored(row[1..][a - 1 := e]), One(row[a]), RowStored(row[1..]), One(e));
    }
  }

  lemma {:induction false} StoredUpdate(t: Tables, i: nat, a: nat, e: Entry)
    requires i < |t| && a < |t[i]|
    ensures Stored(t[i := t[i][a := e]]) + One(t[i][a]) == Stored(t) + One(e)
  {
    if i == 0 {
      RowStoredUpdate(t[0], a, e);
      assert t[0 := t[0][a := e]][1..] == t[1..];
      var rest := Stored(t[1..]);
      SumSwap(rest, RowStored(t[0][a := e]), One(t[0][a]), RowStored(t[0]), One(e));
      assert forall m :: m + rest == rest + m;
    } else {
      assert t[i := t[i][a := e]][1..] == t[1..][i - 1 := t[1..][i - 1][a := e]];
      StoredUpdate(t[1..], i - 1, a, e);
      SumSwap(RowStored(t[0]), Stored(t[1..][i - 1 := t[i][a := e]]), One(t[i][a]), Stored(t[1..]), One(e));
    }
  }

  /** One round neither loses nor invents an entry, and keeps every entry at its own hash. */
  lemma RoundConserves(h: Hashing, c: Trial)
    requires TrialOk(h, c) && Placed(h, c.t) && !c.done && c.cur.valid
    ensures Placed(h, Round(h, c).t)
    ensures !Round(h, c).done ==> Round(h, c).cur.valid
    ensures Balance(Round(h, c)) == Balance(c)
  {
    hide RowStored, Stored;
    var slot := LastFree(h, c.t, c.cur.key, NUM_TABLES);
    var s := if slot != -1 then slot else Victim(h, c);
    StoredUpdate(c.t, s, h.At(s, c.cur.key), c.cur);
  }

  lemma {:induction false} RoundsConserve(h: Hashing, c: Trial, n: nat)
    requires TrialOk(h, c) && Placed(h, c.t) && (!c.done ==> c.cur.valid)
    ensures Placed(h, Rounds(h, c, n).t)
    ensures !Rounds(h, c, n).done ==> Rounds(h, c, n).cur.valid
    ensures Balance(Rounds(h, c, n)) == Balance(c)
    decreases n
  {
    if !c.done && n != 0 {
      RoundConserves(h, c);
      RoundsConserve(h, Round(h, c), n - 1);
    }
  }

  /** An insert conserves entries, whether or not it succeeds and whether or not the key is
      new: the stored entries, plus the carried one exactly when it fails, are the old entries
      plus the new one. */
  lemma InsertConserves(h: Hashing, t: Tables, bit: nat, key: Key, value: Value)
    requires Shape(h, t) && Placed(h, t) && bit < 2
    ensures var r := Insert(h, t, bit, key, value);
      && Placed(h, r.t)
      && Stored(r.t) + (if r.done then multiset{} else multiset{(r.cur.key, r.cur.value)})
         == Stored(t) + multiset{(key, value)}
  {
    RoundsConserve(h, Trial(t, Entry(key, value, true), 0, bit, false), MAX_TRIALS);
  }
}
