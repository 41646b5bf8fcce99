/** The rounds of insert, told by the slots they find: which entries are carried, when one is placed, and
    when the insert gives up. */
module CuckooRounds {
  import opened CuckooTable

  ghost predicate AllTaken(h: Hashing, t: Tables, k: Key)
    requires Shape(h, t)
  {
    forall i :: 0 <= i < 9 ==> t[i][h.At(i, k)].valid
  }

  /** `t'` is `t` with `e` in place of the entry in its slot of table `s`. */
  ghost predicate Placing(h: Hashing, t: Tables, t': Tables, s: nat, e: Entry)
    requires Shape(h, t) && Shape(h, t')
  {
    && s < 9
    && forall i, a :: 0 <= i < 9 && 0 <= a < h.size ==>
         t'[i][a] == if i == s && a == h.At(s, e.key) then e else t[i][a]
  }

  /** The carried entry goes to the last table in which its slot is free. */
  ghost predicate Settles(h: Hashing, c: Trial, r: Trial)
    requires TrialOk(h, c) && TrialOk(h, r)
  {
    exists s :: 0 <= s < 9
      && !c.t[s][h.At(s, c.cur.key)].valid && (forall i :: s < i < 9 ==> c.t[i][h.At(i, c.cur.key)].valid)
      && Placing(h, c.t, r.t, s, c.cur)
  }

  /** The carried entry changes places with that of the table which its own hash in table number `idx`, modulo
      eight, and the victim bit name; the counters move on. */
  ghost predicate Evicts(h: Hashing, c: Trial, r: Trial)
    requires TrialOk(h, c) && TrialOk(h, r)
  {
    var v := h.At(c.idx, c.cur.key) % 8 + c.bit;
    && v < 9 && r.cur == c.t[v][h.At(v, c.cur.key)] && Placing(h, c.t, r.t, v, c.cur)
    && r.idx == (c.idx + 1) % 9 && r.bit == 1 - c.bit
  }

  lemma PutPlaces(h: Hashing, t: Tables, s: nat, e: Entry)
    requires Shape(h, t) && s < NUM_TABLES
    ensures Placing(h, t, Put(h, t, s, e), s, e)
  {
  }

  /** A round is the last one if and only if some table has the slot of the carried entry free. */
  lemma RoundDoneIff(h: Hashing, c: Trial)
    requires TrialOk(h, c)
    ensures Round(h, c).done <==> !AllTaken(h, c.t, c.cur.key)
    ensures if AllTaken(h, c.t, c.cur.key) then Evicts(h, c, Round(h, c))
            else Settles(h, c, Round(h, c)) && Round(h, c).cur == c.cur && Round(h, c).bit == 1 - c.bit
  {
    hide Round, AllTaken, Evicts, Settles, LastFree;
    FreeIff(h, c);
    if LastFree(h, c.t, c.cur.key, NUM_TABLES) != -1 {
      RoundSettles(h, c);
    } else {
      RoundEvicts(h, c);
    }
  }

  lemma FreeIff(h: Hashing, c: Trial)
    requires TrialOk(h, c)
    ensures LastFree(h, c.t, c.cur.key, NUM_TABLES) != -1 <==> !AllTaken(h, c.t, c.cur.key)
  {
    forall i | 0 <= i < NUM_TABLES ensures Slot(h, c.t, i, c.cur.key) == c.t[i][h.At(i, c.cur.key)] {
    }
  }

  lemma RoundSettles(h: Hashing, c: Trial)
    requires TrialOk(h, c) && LastFree(h, c.t, c.cur.key, NUM_TABLES) != -1
    ensures Round(h, c).done && Settles(h, c, Round(h, c)) && Round(h, c).cur == c.cur && Round(h, c).bit == 1 - c.bit
  {
    hide Put, Placing, Shape, LastFree;
    var slot := LastFree(h, c.t, c.cur.key, NUM_TABLES);
    PutPlaces(h, c.t, slot, c.cur);
    FreeAt(h, c, slot);
  }

  lemma FreeAt(h: Hashing, c: Trial, s: nat)
    requires TrialOk(h, c) && LastFree(h, c.t, c.cur.key, NUM_TABLES) == s
    ensures s < 9 && TablesSized(h, c.t)
    ensures !c.t[s][h.At(s, c.cur.key)].valid && forall i :: s < i < 9 ==> c.t[i][h.At(i, c.cur.key)].valid
  {
    forall i | 0 <= i < NUM_TABLES ensures Slot(h, c.t, i, c.cur.key) == c.t[i][h.At(i, c.cur.key)] {
    }
  }

  ghost predicate TablesSized(h: Hashing, t: Tables) {
    |t| == 9 && forall i :: 0 <= i < 9 ==> |t[i]| == h.size
  }

  lemma RoundEvicts(h: Hashing, c: Trial)
    requires TrialOk(h, c) && LastFree(h, c.t, c.cur.key, NUM_TABLES) == -1
    ensures !Round(h, c).done && Evicts(h, c, Round(h, c))
  {
    hide Put, Placing, LastFree;
    PutPlaces(h, c.t, Victim(h, c), c.cur);
  }

  /** The rounds of an insert one after the other: each finds all nine slots of the entry it carries taken and
      evicts, but for the last one of `path`. */
  ghost predicate Path(h: Hashing, path: seq<Trial>) {
    && path != [] && (forall j :: 0 <= j < |path| ==> TrialOk(h, path[j]) && !path[j].done)
    && forall j :: 0 <= j < |path| - 1 ==>
         AllTaken(h, path[j].t, path[j].cur.key) && Evicts(h, path[j], path[j + 1])
  }

  lemma PathLonger(h: Hashing, c: Trial, path: seq<Trial>)
    requires Path(h, path) && TrialOk(h, c) && !c.done && AllTaken(h, c.t, c.cur.key) && Evicts(h, c, path[0])
    ensures Path(h, [c] + path)
  {
  }

  lemma PathStart(h: Hashing, c: Trial)
    requires TrialOk(h, c) && !c.done
    ensures Path(h, [c])
  {
  }

  lemma RoundsNext(h: Hashing, c: Trial, n: nat)
    requires TrialOk(h, c) && !c.done && n > 0
    ensures Rounds(h, c, n) == Rounds(h, Round(h, c), n - 1)
  {
  }

  lemma RoundsNone(h: Hashing, c: Trial, n: nat)
    requires TrialOk(h, c) && (c.done || n == 0)
    ensures Rounds(h, c, n) == c
  {
  }

  lemma {:induction false} RoundsFollow(h: Hashing, c: Trial, n: nat) returns (path: seq<Trial>)
    requires TrialOk(h, c) && !c.done
    ensures path != [] && Path(h, path) && path[0] == c && |path| <= n + 1
    ensures var last, r := path[|path| - 1], Rounds(h, c, n);
      if r.done then |path| <= n && !AllTaken(h, last.t, last.cur.key) && Settles(h, last, r) && r.cur == last.cur
                     && r.bit == 1 - last.bit
      else |path| == n + 1 && r == last
    decreases n
  {
    hide *;
    if n == 0 {
      RoundsNone(h, c, n);
      PathStart(h, c);
      return [c];
    }
    RoundDoneIff(h, c);
    RoundsNext(h, c, n);
    var next := Round(h, c);
    if next.done {
      RoundsNone(h, next, n - 1);
      PathStart(h, c);
      return [c];
    }
    var rest := RoundsFollow(h, next, n - 1);
    PathLonger(h, c, rest);
    path := [c] + rest;
    assert path[|path| - 1] == rest[|rest| - 1];
  }

  /** An insert succeeds at the first entry it carries that has a free slot, and fails only when twelve entries in
      turn found all nine slots taken. */
  lemma InsertExact(h: Hashing, t: Tables, bit: nat, key: Key, value: Value) returns (path: seq<Trial>)
    requires Shape(h, t) && bit < 2
    ensures Path(h, path) && path[0] == Trial(t, Entry(key, value, true), 0, bit, false)
    ensures var last, r := path[|path| - 1], Insert(h, t, bit, key, value);
      if r.done then |path| <= 12 && !AllTaken(h, last.t, last.cur.key) && Settles(h, last, r) && r.cur == last.cur
                     && r.bit == 1 - last.bit
      else |path| == 13 && r == last
  {
    path := RoundsFollow(h, Trial(t, Entry(key, value, true), 0, bit, false), MAX_TRIALS);
  }

  lemma SameTables(h: Hashing, t: Tables, a: Tables, b: Tables, s: nat, e: Entry)
    requires Shape(h, t) && Shape(h, a) && Shape(h, b) && Placing(h, t, a, s, e) && Placing(h, t, b, s, e)
    ensures a == b
  {
    forall i | 0 <= i < NUM_TABLES ensures a[i] == b[i] {
      assert forall x :: 0 <= x < h.size ==> a[i][x] == b[i][x];
    }
  }

  /** There is only one way to go: the slots alone decide every round. */
  lemma {:induction false} PathUnique(h: Hashing, p: seq<Trial>, q: seq<Trial>)
    requires Path(h, p) && Path(h, q) && p[0] == q[0] && |p| <= |q|
    ensures p == q[..|p|]
    decreases |p|
  {
    if |p| > 1 {
      var front, j := p[..|p| - 1], |p| - 2;
      PathShorter(h, p);
      PathUnique(h, front, q);
      hide *;
      assert p[j] == front[j] == q[j];
      PathAt(h, p, j);
      PathAt(h, q, j);
      SameEviction(h, p[j], p[j + 1], q[j + 1]);
      assert p == front + [p[j + 1]] && q[..|p|] == q[..|p| - 1] + [q[j + 1]];
    }
  }

  lemma PathShorter(h: Hashing, p: seq<Trial>)
    requires Path(h, p) && |p| > 1
    ensures Path(h, p[..|p| - 1])
  {
    hide AllTaken, Evicts, TrialOk;
  }

  lemma PathAt(h: Hashing, p: seq<Trial>, j: nat)
    requires Path(h, p) && j + 1 < |p|
    ensures TrialOk(h, p[j]) && TrialOk(h, p[j + 1]) && !p[j + 1].done && Evicts(h, p[j], p[j + 1])
  {
  }

  lemma SameEviction(h: Hashing, c: Trial, a: Trial, b: Trial)
    requires TrialOk(h, c) && TrialOk(h, a) && TrialOk(h, b) && !a.done && !b.done
    requires Evicts(h, c, a) && Evicts(h, c, b)
    ensures a == b
  {
    hide Placing;
    SameTables(h, c.t, a.t, b.t, h.At(c.idx, c.cur.key) % 8 + c.bit, c.cur);
  }
}
