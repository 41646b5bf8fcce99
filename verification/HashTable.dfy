/** The hash table of hash_table.cpp as it runs: nine memories updated in place, victim
    counters kept between calls, and request and response streams. */
module HashTables {
  import opened Options
  import opened CuckooTable
  import opened CuckooRounds
  import CuckooMap
  import opened Tabulation

  datatype UpdateOp = KvInsert | KvDelete
  datatype LookupReq = LookupReq(key: Key, source: bool)
  /** `value` is None when the hit flag is clear. */
  datatype LookupResp = LookupResp(key: Key, value: Option<Value>, source: bool)
  datatype UpdateReq = UpdateReq(op: UpdateOp, key: Key, value: Value, source: bool)
  datatype UpdateResp = UpdateResp(op: UpdateOp, key: Key, value: Value, success: bool, source: bool)

  const FAILURE_COUNTER_RANGE: nat := 0x1_0000

  class HashTable {
    const randoms: Randoms
    ghost const h: Hashing
    const tables: array2<Entry>
    var victimIdx: nat
    var victimBit: nat
    var insertFailureCounter: nat
    var regInsertFailureCount: nat

    ghost predicate Dims() {
      tables.Length0 == NUM_TABLES && tables.Length1 == h.size
    }

    ghost predicate Valid()
      reads this
    {
      Dims() && h == randoms.Hash() && victimBit < 2 && insertFailureCounter < FAILURE_COUNTER_RANGE
    }

    /** The contents of the nine memories. */
    ghost function View(): (t: Tables)
      requires Dims()
      reads tables
      ensures Shape(h, t)
      ensures forall i, a :: 0 <= i < NUM_TABLES && 0 <= a < h.size ==> t[i][a] == tables[i, a]
    {
      seq(NUM_TABLES, i requires 0 <= i < NUM_TABLES reads tables requires Dims() =>
        seq(h.size, a requires 0 <= a < h.size reads tables requires Dims() => tables[i, a]))
    }

    /** All memories start with every entry invalid. */
    constructor (randoms: Randoms, free: Entry)
      requires !free.valid
      ensures Valid() && fresh(tables) && this.randoms == randoms && victimBit == 0 && insertFailureCounter == 0
      ensures View() == seq(NUM_TABLES, i => seq(h.size, a => free))
    {
      this.randoms, h := randoms, randoms.Hash();
      tables := new Entry[NUM_TABLES, randoms.Size()]((i, a) => free);
      victimIdx, victimBit, insertFailureCounter, regInsertFailureCount := 0, 0, 0, 0;
      new;
      ghost var empty := seq(NUM_TABLES, i => seq(h.size, a => free));
      forall i | 0 <= i < NUM_TABLES ensures View()[i] == empty[i] {
        assert |View()[i]| == |empty[i]|;
      }
    }

    method CalculateHashes(key: Key) returns (hashes: seq<nat>)
      requires Valid()
      ensures |hashes| == NUM_TABLES && forall i :: 0 <= i < NUM_TABLES ==> hashes[i] == h.At(i, key)
    {
      hashes := [];
      for i := 0 to NUM_TABLES
        invariant |hashes| == i && forall j :: 0 <= j < i ==> hashes[j] == h.At(j, key)
      {
        var hash := 0;
        for k := 0 to KEY_SIZE
          invariant hash == randoms.Xored(i, key, k)
        {
          hash := Xor(hash, randoms.Random(i, key, k));
        }
        HashIs(randoms, i, key);
        hashes := hashes + [hash];
      }
    }

    method Lookup(request: LookupReq) returns (response: LookupResp)
      requires Valid()
      ensures response == LookupResp(request.key, CuckooTable.Lookup(h, View(), request.key), request.source)
    {
      var hashes := CalculateHashes(request.key);
      var currentEntries: seq<Entry> := [];
      var slot := -1;
      for i := 0 to NUM_TABLES
        invariant |currentEntries| == i
        invariant forall j :: 0 <= j < i ==> currentEntries[j] == Slot(h, View(), j, request.key)
        invariant slot == LastHit(h, View(), request.key, i)
      {
        currentEntries := currentEntries + [tables[i, hashes[i]]];
        if currentEntries[i].valid && currentEntries[i].key == request.key {
          slot := i;
        }
      }
      response := LookupResp(request.key, None, request.source);
      if slot != -1 {
        response := response.(value := Some(currentEntries[slot].value));
      }
    }

    /** Read the candidate slots of `key`, remembering the last free one. */
    method ReadSlots(key: Key, hashes: seq<nat>) returns (currentEntries: seq<Entry>, slot: int)
      requires Valid()
      requires |hashes| == NUM_TABLES && forall i :: 0 <= i < NUM_TABLES ==> hashes[i] == h.At(i, key)
      ensures |currentEntries| == NUM_TABLES
      ensures forall j :: 0 <= j < NUM_TABLES ==> currentEntries[j] == Slot(h, View(), j, key)
      ensures slot == LastFree(h, View(), key, NUM_TABLES)
    {
      hide View;
      currentEntries, slot := [], -1;
      for i := 0 to NUM_TABLES
        invariant |currentEntries| == i
        invariant forall j :: 0 <= j < i ==> currentEntries[j] == Slot(h, View(), j, key)
        invariant slot == LastFree(h, View(), key, i)
      {
        currentEntries := currentEntries + [tables[i, hashes[i]]];
        if !currentEntries[i].valid {
          slot := i;
        }
      }
    }

    /** Write the candidate slots of `e.key` back after entry `s` of them became `e`. */
    method WriteBack(hashes: seq<nat>, currentEntries: seq<Entry>, ghost s: nat, ghost e: Entry)
      requires Valid() && s < NUM_TABLES && |currentEntries| == NUM_TABLES
      requires |hashes| == NUM_TABLES && forall i :: 0 <= i < NUM_TABLES ==> hashes[i] == h.At(i, e.key)
      requires forall j :: 0 <= j < NUM_TABLES ==> currentEntries[j] == if j == s then e else Slot(h, View(), j, e.key)
      modifies tables
      ensures View() == Put(h, old(View()), s, e)
    {
      ghost var before := View();
      for i := 0 to NUM_TABLES
        invariant forall j, a :: 0 <= j < NUM_TABLES && 0 <= a < h.size ==>
          tables[j, a] == if j < i && a == hashes[j] then currentEntries[j] else before[j][a]
      {
        tables[i, hashes[i]] := currentEntries[i];
      }
      var after := Put(h, before, s, e);
      forall j | 0 <= j < NUM_TABLES ensures View()[j] == after[j] {
        assert |View()[j]| == |after[j]|;
      }
    }

    /** One round of the insert loop: place the entry in a free slot, or swap it with a victim. */
    method TryOnce(currentEntry: Entry) returns (carried: Entry, success: bool)
      requires Valid() && victimIdx < NUM_TABLES
      modifies this`victimIdx, this`victimBit, tables
      ensures Valid() && victimIdx < NUM_TABLES
      ensures Trial(View(), carried, victimIdx, victimBit, success)
              == Round(h, Trial(old(View()), currentEntry, old(victimIdx), old(victimBit), false))
      ensures success <==> !AllTaken(h, old(View()), currentEntry.key)
    {
      hide LastFree, Put, Slot, View, AllTaken, Settles, Evicts;
      RoundDoneIff(h, Trial(View(), currentEntry, victimIdx, victimBit, false));
      carried, success := currentEntry, false;
      ghost var before := View();
      var hashes := CalculateHashes(currentEntry.key);
      var currentEntries, slot := ReadSlots(currentEntry.key, hashes);
      if slot != -1 {
        currentEntries := currentEntries[slot := currentEntry];
        success := true;
        WriteBack(hashes, currentEntries, slot, currentEntry);
      } else {
        var victimPos := hashes[victimIdx] % (NUM_TABLES - 1) + victimBit;
        assert victimPos == Victim(h, Trial(before, currentEntry, victimIdx, victimBit, false));
        carried := currentEntries[victimPos];
        currentEntries := currentEntries[victimPos := currentEntry];
        WriteBack(hashes, currentEntries, victimPos, currentEntry);
        victimIdx := victimIdx + 1;
        if victimIdx == NUM_TABLES {
          victimIdx := 0;
        }
      }
      victimBit := (victimBit + 1) % 2;
    }

    method Insert(request: UpdateReq) returns (response: UpdateResp)
      requires Valid()
      modifies this, tables
      ensures Valid()
      ensures var r := CuckooTable.Insert(h, old(View()), old(victimBit), request.key, request.value);
        && View() == r.t && victimBit == r.bit
        && response == UpdateResp(request.op, request.key, request.value, r.done, request.source)
        && insertFailureCounter
           == (if r.done then old(insertFailureCounter) else (old(insertFailureCounter) + 1) % 65536)
      ensures regInsertFailureCount == old(insertFailureCounter)
    {
      hide Round, LastFree;
      var success := false;
      regInsertFailureCount := insertFailureCounter;
      var currentEntry := Entry(request.key, request.value, true);
      victimIdx := 0;
      ghost var start := Trial(View(), currentEntry, 0, victimBit, false);
      var j := 0;
      while j < MAX_TRIALS && !success
        invariant j <= MAX_TRIALS && Valid() && victimIdx < NUM_TABLES
        invariant insertFailureCounter == old(insertFailureCounter) == regInsertFailureCount
        invariant Rounds(h, Trial(View(), currentEntry, victimIdx, victimBit, success), MAX_TRIALS - j)
          == Rounds(h, start, MAX_TRIALS)
      {
        currentEntry, success := TryOnce(currentEntry);
        j := j + 1;
      }
      if !success {
        insertFailureCounter := (insertFailureCounter + 1) % FAILURE_COUNTER_RANGE;
      }
      response := UpdateResp(request.op, request.key, request.value, success, request.source);
    }

    method Remove(request: UpdateReq) returns (response: UpdateResp)
      requires Valid()
      modifies tables
      ensures View() == CuckooTable.Remove(h, old(View()), request.key, NUM_TABLES)
      ensures response == UpdateResp(request.op, request.key, request.value,
                                     LastHit(h, old(View()), request.key, NUM_TABLES) != -1, request.source)
    {
      ghost var before := View();
      response := UpdateResp(request.op, request.key, request.value, false, request.source);
      var hashes := CalculateHashes(request.key);
      for i := 0 to NUM_TABLES
        invariant View() == CuckooTable.Remove(h, before, request.key, i)
        invariant response == UpdateResp(request.op, request.key, request.value,
                                         LastHit(h, before, request.key, i) != -1, request.source)
      {
        var hit := RemoveAt(i, hashes[i], request.key);
        if hit {
          response := response.(success := true);
        }
      }
    }

    /** Invalidate the entry of one memory if it holds the key. */
    method RemoveAt(i: nat, hash: nat, key: Key) returns (hit: bool)
      requires Valid() && i < NUM_TABLES && hash == h.At(i, key)
      modifies tables
      ensures hit <==> Holds(h, old(View()), i, key)
      ensures View() == Cleared(h, old(View()), i, key)
    {
      ghost var after := Cleared(h, View(), i, key);
      var currentEntry := tables[i, hash];
      hit := currentEntry.valid && currentEntry.key == key;
      if hit {
        currentEntry := currentEntry.(valid := false);
      }
      tables[i, hash] := currentEntry;
      forall j | 0 <= j < NUM_TABLES ensures View()[j] == after[j] {
        assert |View()[j]| == |after[j]|;
      }
    }
  }

  /** `hash_table`: one call serves a pending lookup, else a pending update, else nothing. */
  class Service {
    const table: HashTable
    var lupReq: seq<LookupReq>
    var updReq: seq<UpdateReq>
    var lupRsp: seq<LookupResp>
    var updRsp: seq<UpdateResp>

    ghost function State(): CuckooMap.State
      requires table.Valid()
      reads table, table.tables
    {
      CuckooMap.State(table.View(), table.victimBit)
    }

    constructor (table: HashTable)
      ensures this.table == table && lupReq == [] && updReq == [] && lupRsp == [] && updRsp == []
    {
      this.table := table;
      lupReq, updReq, lupRsp, updRsp := [], [], [], [];
    }

    method ServeLookup()
      requires table.Valid() && lupReq != []
      modifies this`lupReq, this`lupRsp
      ensures lupReq == old(lupReq)[1..]
      ensures var req := old(lupReq)[0];
        lupRsp == old(lupRsp)
                  + [LookupResp(req.key, CuckooTable.Lookup(table.h, table.View(), req.key), req.source)]
    {
      var request := lupReq[0];
      lupReq := lupReq[1..];
      var response := table.Lookup(request);
      lupRsp := lupRsp + [response];
    }

    method ServeUpdate()
      requires table.Valid() && lupReq == [] && updReq != []
      modifies this`updReq, this`updRsp, table, table.tables
      ensures table.Valid() && updReq == old(updReq)[1..]
      ensures var req := old(updReq)[0];
        var op := if req.op == KvInsert then CuckooMap.InsertOp(req.key, req.value) else CuckooMap.DeleteOp(req.key);
        var r := CuckooMap.Step(table.h, old(State()), op);
        && State() == r.0
        && updRsp == old(updRsp) + [UpdateResp(req.op, req.key, req.value, r.1.success, req.source)]
    {
      var request := updReq[0];
      updReq := updReq[1..];
      var response: UpdateResp;
      if request.op == KvInsert {
        response := table.Insert(request);
      } else {
        response := table.Remove(request);
      }
      updRsp := updRsp + [response];
    }

    /** One call takes one step of CuckooMap.Step, a lookup before an update, and appends exactly its answer. */
    method Call()
      requires table.Valid()
      modifies this, table, table.tables
      ensures table.Valid()
      ensures old(lupReq) != [] ==>
        var req := old(lupReq)[0];
        && State() == old(State()) && lupReq == old(lupReq)[1..] && updReq == old(updReq) && updRsp == old(updRsp)
        && lupRsp == old(lupRsp) + [LookupResp(req.key, CuckooTable.Lookup(table.h, table.View(), req.key), req.source)]
      ensures old(lupReq) == [] && old(updReq) != [] ==>
        var req := old(updReq)[0];
        var op := if req.op == KvInsert then CuckooMap.InsertOp(req.key, req.value) else CuckooMap.DeleteOp(req.key);
        var r := CuckooMap.Step(table.h, old(State()), op);
        && State() == r.0 && lupReq == [] && lupRsp == old(lupRsp) && updReq == old(updReq)[1..]
        && updRsp == old(updRsp) + [UpdateResp(req.op, req.key, req.value, r.1.success, req.source)]
      ensures old(lupReq) == [] && old(updReq) == [] ==>
        && State() == old(State()) && lupRsp == old(lupRsp) && updRsp == old(updRsp)
        && lupReq == [] && updReq == []
    {
      if lupReq != [] {
        ServeLookup();
      } else if updReq != [] {
        ServeUpdate();
      }
    }
  }
}
