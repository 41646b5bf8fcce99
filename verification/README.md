# Coyote, verified

A Dafny model of the stateful kernels of Coyote, the shell for FPGAs with its network stack, scheduler and driver,
and proofs of what these kernels are for. `dafny verify dfyconfig.toml` checks everything.

Code that changes state step by step is modelled as classes, arrays and loops, one module per component; every
method is tied to a function or an invariant, and the main results are lemmas about those.

- **Cuckoo hash table** (`CuckooTable`, `CuckooRounds`, `CuckooMap`, `CuckooFull`, `Tabulation`, `HashTable`): nine
  tables, the eviction loop and a service loop. The results hold for any hash functions; the class uses tabulation
  hashing with any table. When an insert succeeds is told by the slots alone. An insert conserves entries; over
  whole runs the table is a map, from which each failed insert drops exactly one entry.
- **Streams and FIFOs** (`Fifos`, `Words`): `hls::stream` is a queue with ghost histories of everything written and
  read. A stage is specified by what it has written as a function of what it has read, so the results hold for every
  order in which the stages of a design are called, and for FIFOs of every depth.
- **Stream machines** (`Shifts`, `Widths`, `SplitMerge`, `PacketHeaders`): octet shifts, width conversion, packet
  splitter and merger, header parser. A word is well formed when it is full inside a packet and keeps a non-empty
  low prefix at its end; words are compared on kept bytes. Each machine is proved on the packets it carries, and
  each pair is proved to be a round trip.
- **ICRC pipeline** (`Crc32`, `CrcDivision`, `Icrc`, `Masking`, `IcrcLink`, `IcrcStandard`, `OpenPackets`,
  `CrcPath`, `CrcLoop`, `CrcDelivery`): masking, two alternating CRC engines, insertion, extraction and comparison.
  The CRC sent is the remainder of a polynomial long division, as section 3.2.9 of IEEE 802.3 defines it. A sender
  fed straight into a receiver never counts a damaged packet and delivers packets in order. Here every FIFO has a
  depth, and a stage waits for room in the FIFOs it writes: every step works off a part of a bounded amount of work,
  and when no stage can move, exactly the packets before the first one that is too long have been delivered.
- **HyperLogLog** (`Flits`, `Collector`, `HllSketch`, `DivideData`, `HllHistory`, `HllPipeline`, `HllReport`,
  `HllProgress`, `HllLeftover`, `HllFirstBatch`): the pipelined collector equals a per-key fold whatever its memory
  port shows; the lanes merge into maximum ranks; the fixed-point accumulator is exact. The divider, the rank
  stages, the collectors and the fold run joined by FIFOs, each lane at its own speed, and in every reachable state
  report the metrics of the first batches, in order; with FIFOs of any positive depths they never get stuck before
  all are reported.
- **Scheduler** (`TaskOrder`, `Scheduler`, `SchedulerProgress`, `SchedulerFaults`, `SchedulerOperator`,
  `SchedulerDrain`): `pLock`, `pUnlock` and the scheduler thread as interleaved atomic steps; mutual exclusion over
  all runs and exactly which steps break it, no request lost or granted twice, which operator a client finds, and
  the number of reconfigurations of a run.
- **Driver** (`FreeLists`, `CardMemory`, `TlbEntries`, `TlbMap`, `TlbTranslation`, `TlbCard`): free lists threaded
  through arrays, for card pages and Coyote PIDs; TLB map lists, from hugepage collapse over bit packing to the host
  and card memory the TLB reaches through them.
- `Options`, `Collections`, `Errno`, `Arith` and `Bits` are shared helpers.

Where a property holds only under a condition, the condition is proved exact, or a lemma shows what happens without
it:

- `insert` never looks for its key; keys stay unique exactly under `CuckooMap.InsertKeepsUniqueIff`.
- `lshiftWordByOctet` sets its keep bits from a 32-bit constant: offsets up to 32 bytes only.
- `mask_header_fields` counts words in eight bits: packets of at most 256 words only (`Masking.HeaderOnlyIff`). Its
  mask is declared `const` and then assigned; the assignments are taken as its value.
- `insert_icrc` drops the CRC of a packet exactly when its length is no multiple of four bytes (`Icrc.TaggedIff`).
- A failed insert into the hash table drops one entry, which can be an old one (`CuckooFull.FailedInsertDropsOld`).
- A packet waits for its CRC in the FIFO behind the mask stage, and the CRC needs its last word through the same
  stage: a packet of more words than that FIFO holds (384 in the sender, 512 in the receiver) stops its side for
  good, with everything behind it. Exactly then something is not delivered (`CrcDelivery.EverythingDeliveredIff`,
  `CrcDelivery.TooLongSticks`).
- `divide_data` emits the leftover of each lane's previous batch, 0 at first, at the start of a batch. It is
  harmless exactly under `HllLeftover.LeftoverHarmlessIff`; `HllFirstBatch.RunOneLine` runs the pipeline to a first
  result that is wrong.
- The comparator of the task queue is no strict weak order with priority off and reorder on.
- A completion timeout leaves `curr_run` set, one notification wakes every request under its cpid, and `pUnlock`
  asks only for the cpid. Whatever operators are asked for, a run is safe from two clients inside at once if and
  only if it has no timeout, no request under a cpid that has one outstanding, and no call of `pUnlock` by others
  under the cpid of the client inside (`SchedulerFaults.RunSafeIff`). All three failures are exhibited as runs from
  the start. A call of `pUnlock` between the grant and the return of `pLock` leaves that client waiting
  (`SchedulerProgress.UnlockForgetsIff`).
- `reconfigure(oid)` skips an oid without a bitstream, which the scheduler then believes to be loaded, and at the
  start it believes operator -1 to be loaded. A client inside finds its operator if and only if
  `checkBitstream(oid)` holds; for oid -1, only once another operator has been asked for
  (`SchedulerOperator.FindsOperatorIff`, with runs that end with the wrong operator and with none).
- The setup loops of the free lists stop at N-2: the tail chunk has id 0, and taking it, which the counts of free
  chunks do not prevent, hands out id 0 twice (`FreeLists.TakeSafeIff`).
- `card_free` never clears `used`, so its test on it does not keep a page from being freed twice; the links then run
  in a circle (`FreeLists.GiveIff`, `FreeLists.FreeTwiceLoops`, `CardMemory.FreedTwice`).
- The number of pages to pin is a 32-bit number with a cap of 8192: a buffer is translated as a whole exactly when
  that many pages reach into its last huge page (`TlbTranslation.MapBuffer`). The cap cuts short every aligned
  buffer of more than 16 huge pages of 2 MB, and the wrap one of 2^32 + 1 small pages.
- Card chunks have 2 MB, while huge pages may have up to 1 GB: card memory of different huge pages stays apart if
  and only if huge pages are no larger than 2 MB (`TlbCard.SeparateIff`, `TlbCard.CardShared`).

## Model

| member | source | states |
|---|---|---|
| CuckooTable.InsertConserves | hw/services/network/hls/hash_table/hash_table.cpp:93-165 | stored entries plus the carried one (none exactly on success) are, as a multiset, the old entries plus the new one, and every entry stays at its own hash; for any key, present or not |
| CuckooTable.RoundConserves | hw/services/network/hls/hash_table/hash_table.cpp:116-158 | one eviction round neither loses nor invents an entry and keeps placement |
| CuckooTable.RoundsConserve | hw/services/network/hls/hash_table/hash_table.cpp:116-158 | the same for up to any number of rounds |
| CuckooTable.Victim | hw/services/network/hls/hash_table/hash_table.cpp:140 | the victim index is a table number |
| CuckooTable.LastFree | hw/services/network/hls/hash_table/hash_table.cpp:120-129 | the slot found is free and no later table has a free slot; -1 only when none has |
| CuckooTable.LastHit | hw/services/network/hls/hash_table/hash_table.cpp:71-80 | the slot found holds the key and no later table does; -1 only when none does |
| CuckooRounds.RoundDoneIff | hw/services/network/hls/hash_table/hash_table.cpp:116-158 | a round is the last one if and only if some of the nine slots of the carried entry is free: then the entry goes to the last such table, else it changes places with the victim named by hash, victim index and victim bit, and nothing else changes |
| CuckooRounds.InsertExact | hw/services/network/hls/hash_table/hash_table.cpp:93-165 | an insert succeeds at the first entry it carries that has a free slot, and fails only when twelve entries in turn found all nine slots taken |
| CuckooRounds.PathUnique | hw/services/network/hls/hash_table/hash_table.cpp:116-158 | and the slots alone decide which entries these are |
| CuckooMap.PutRepresents | hw/services/network/hls/hash_table/hash_table.cpp:132-142 | writing an absent key over a slot adds it to the map and removes exactly the old occupant |
| CuckooMap.RoundRepresents | hw/services/network/hls/hash_table/hash_table.cpp:116-158 | through every eviction round, tables and carried entry together stand for the same map, keys unique and placed |
| CuckooMap.InsertRepresents | hw/services/network/hls/hash_table/hash_table.cpp:93-165 | inserting an absent key adds it on success; on failure exactly one entry, not necessarily the new one, is lost from the map |
| CuckooFull.RoundsOfFull | hw/services/network/hls/hash_table/hash_table.cpp:116-158 | in a full table twelve rounds pass the carried entry through known victims and end with the old entry of table 5 |
| CuckooFull.FailedInsertDropsOld | hw/services/network/hls/hash_table/hash_table.cpp:93-165 | a concrete full table, and tabulation table, in which a failed insert stores the new key and drops an old one |
| CuckooMap.RoundCopies | hw/services/network/hls/hash_table/hash_table.cpp:116-158 | a round moves copies of a key between tables and carried entry without changing their number |
| CuckooMap.InsertKeepsUniqueIff | hw/services/network/hls/hash_table/hash_table.cpp:93-165 | insert, which never looks for its key, keeps keys unique if and only if the key was absent or the one entry dropped by failure is a copy of it; after a successful insert, if and only if a lookup before it finds nothing |
| CuckooMap.InsertTwiceBreaksUnique | hw/services/network/hls/hash_table/hash_table.cpp:93-165 | a concrete table in which a second insert of a key leaves two entries and lookups report the older value |
| CuckooMap.RemoveRepresents | hw/services/network/hls/hash_table/hash_table.cpp:168-197 | remove deletes the key from the map and succeeds exactly when it was there |
| CuckooMap.RemoveHolds | hw/services/network/hls/hash_table/hash_table.cpp:168-197 | in any table, unique keys or not, remove clears every copy of the key and nothing else |
| CuckooMap.StepRefines | hw/services/network/hls/hash_table/hash_table.cpp:218-237 | one lookup, delete or insert of an absent key does to the represented map what it should, and each failed insert costs exactly one entry |
| CuckooMap.RunRepresents | hw/services/network/hls/hash_table/hash_table.cpp:200-238 | over every run the table represents the surviving map, whose size is old size plus successful inserts minus successful deletes |
| CuckooMap.RunRefinesMap | hw/services/network/hls/hash_table/hash_table.cpp:200-238 | a run whose inserts all succeed gives the replies and contents of an abstract map |
| HashTables.HashTable.constructor | hw/services/network/hls/hash_table/hash_table.cpp:35 | the nine memories start with every entry invalid |
| HashTables.HashTable.CalculateHashes | hw/services/network/hls/hash_table/hash_table.cpp:37-54 | for every table the XOR of the random values of the key's 64 bits, each cut to the address width: the address every result about the table uses |
| Tabulation.XorBelow | hw/services/network/hls/hash_table/hash_table.cpp:45-52 | the XOR of values of the address width is an address |
| Tabulation.HashIs | hw/services/network/hls/hash_table/hash_table.cpp:45-52 | so the hash is used as it is, not cut again |
| Tabulation.XorBit | hw/services/network/hls/hash_table/hash_table.cpp:45-52 | XOR bit by bit |
| Tabulation.HashBit | hw/services/network/hls/hash_table/hash_table.cpp:37-54 | bit j of a hash is the parity of the number of the 64 key bits whose random value, chosen by the value of the bit, has bit j set |
| HashTables.HashTable.Lookup | hw/services/network/hls/hash_table/hash_table.cpp:57-89 | the loop over the memories answers as the function whose map meaning is proved |
| HashTables.HashTable.ReadSlots | hw/services/network/hls/hash_table/hash_table.cpp:118-129 | the entries read are the candidate slots and the slot is the last free one |
| HashTables.HashTable.WriteBack | hw/services/network/hls/hash_table/hash_table.cpp:148-153 | writing all candidates back changes one slot only |
| HashTables.HashTable.TryOnce | hw/services/network/hls/hash_table/hash_table.cpp:116-158 | one pass of insertLoop, in place, is one round, counters included, and succeeds if and only if some slot of the entry is free |
| HashTables.HashTable.Insert | hw/services/network/hls/hash_table/hash_table.cpp:93-165 | the in-place insert: memories, victim bit, response and the wrapping failure counter |
| HashTables.HashTable.Remove | hw/services/network/hls/hash_table/hash_table.cpp:168-197 | the in-place remove and its response |
| HashTables.Service.ServeLookup | hw/services/network/hls/hash_table/hash_table.cpp:218-223 | a lookup answers from the unchanged table |
| HashTables.Service.ServeUpdate | hw/services/network/hls/hash_table/hash_table.cpp:224-237 | an insert or delete request takes one step of the run model and is answered |
| HashTables.Service.Call | hw/services/network/hls/hash_table/hash_table.cpp:218-237 | lookups before updates; each call is one step of the run model with exactly its answer, or nothing |
| Words.PacketsDetermineWords | hw/services/network/hls/axi_utils.hpp:271-299 | well-formed streams (full words inside a packet, a non-empty low prefix at its end) with the same packets are the same words on kept bytes |
| Words.SameWordsSamePackets | hw/services/network/hls/axi_utils.hpp:271-299 | and conversely, words that are the same on kept bytes carry the same packets |
| Words.WholeWords | hw/services/network/hls/axi_utils.hpp:271-299 | inside a packet a well-formed stream carries whole words |
| Words.ParsePrefix | hw/services/network/hls/axi_utils.hpp:271-299 | reading on never changes a finished packet |
| Shifts.LeftReadKeeps | hw/services/network/hls/axi_utils.hpp:532-571 | a word sent while reading keeps: every packet so far is its original with offset zero bytes in front, and the stream stays well formed |
| Shifts.LeftTailKeeps | hw/services/network/hls/axi_utils.hpp:521-531 | the remainder word completes its packet |
| Shifts.LeftFirstWellFormedIff | hw/services/network/hls/axi_utils.hpp:543-550 | the 32-bit keep constant makes the first word well formed if and only if offset is at most 32 |
| Shifts.RightFirstKeeps | hw/services/network/hls/axi_utils.hpp:451-488 | the first word of a packet is held back |
| Shifts.RightReadKeeps | hw/services/network/hls/axi_utils.hpp:451-488 | every packet loses exactly its first offset bytes; output is well formed exactly when all packets are longer than offset |
| Shifts.RightTailKeeps | hw/services/network/hls/axi_utils.hpp:490-502 | the same for the remainder word |
| Shifts.RightReads | hw/services/network/hls/axi_utils.hpp:451-488 | either kind of word keeps the invariant of the machine as long as its input is well formed |
| Shifts.RoundTripPackets | hw/services/network/hls/axi_utils.hpp:430-574 | packet by packet, dropping undoes prefixing at any point of the two runs |
| Shifts.ShiftRoundTrip | hw/services/network/hls/axi_utils.hpp:430-574 | while both machines run over a FIFO, packets out are the first packets in; at rest the words are identical |
| Shifts.LeftShift.constructor | hw/services/network/hls/axi_utils.hpp:513-515 | the registers start in the invariant |
| Shifts.LeftShift.Step | hw/services/network/hls/axi_utils.hpp:507-574 | one call, in place: invariant kept for every well-formed input and offset up to 32, offset 0 copies, and what is read and sent when |
| Shifts.RightShift.constructor | hw/services/network/hls/axi_utils.hpp:439-442 | the registers start in the invariant |
| Shifts.RightShift.Step | hw/services/network/hls/axi_utils.hpp:432-503 | one call, in place: invariant kept for every well-formed input, and what is read and sent when |
| Widths.WideKeeps | hw/services/network/hls/axi_utils.hpp:280-297 | after every narrow word, kept bytes and packet ends read are those sent plus those in the register |
| Widths.NarrowPiece | hw/services/network/hls/axi_utils.hpp:316-351 | cutting a narrow word off splits the kept bytes, and marks the last one exactly at the packet end |
| Widths.NarrowKeeps | hw/services/network/hls/axi_utils.hpp:313-361 | after every narrow word, kept bytes and packet ends read are those sent plus those in the register |
| Widths.WidthRunning | hw/services/network/hls/axi_utils.hpp:271-362 | each direction alone while it runs: the packets finished behind it are those, or the first of those, finished before it |
| Widths.WidthRoundTrip | hw/services/network/hls/axi_utils.hpp:271-362 | for every width and factor: increase then reduce over a FIFO, at any point of the two runs, gives the first packets that went in; at rest the same words |
| Widths.IncreaseWidth.Step | hw/services/network/hls/axi_utils.hpp:272-299 | one call, in place: reads at most one word, sends at packet end or when full |
| Widths.ReduceWidth.Begin | hw/services/network/hls/axi_utils.hpp:315-335 | state FIRST, in place |
| Widths.ReduceWidth.Continue | hw/services/network/hls/axi_utils.hpp:336-360 | state SECOND, in place |
| Widths.ReduceWidth.Step | hw/services/network/hls/axi_utils.hpp:302-362 | one call sends one narrow word, reading a wide one only when none is in progress |
| SplitMerge.LanesDetermine | hw/services/network/hls/axi_utils.hpp:771-913 | dealing packets to two lanes by control bits is injective on prefixes |
| SplitMerge.NextWord | hw/services/network/hls/axi_utils.hpp:785-847 | what the merger takes next from its lane is the next word of the input |
| SplitMerge.DealBit | hw/services/network/hls/axi_utils.hpp:867-870 | taking a control bit keeps the relation of streams and lanes |
| SplitMerge.DealWord | hw/services/network/hls/axi_utils.hpp:890-911 | passing a word keeps the relation of streams and lanes |
| SplitMerge.Splitter.Forward | hw/services/network/hls/axi_utils.hpp:890-911 | passes one word to the open lane, in place |
| SplitMerge.Splitter.Step | hw/services/network/hls/axi_utils.hpp:851-913 | one call, in place: bit and word taken as the state allows |
| SplitMerge.Merger.Forward | hw/services/network/hls/axi_utils.hpp:825-846 | passes one word of the open lane on, in place |
| SplitMerge.Merger.Step | hw/services/network/hls/axi_utils.hpp:772-848 | one call, in place: bit and word taken as the state allows |
| SplitMerge.SplitMergeInOrder | hw/services/network/hls/axi_utils.hpp:771-913 | under any schedule the merged words are a prefix of the split ones: no interleaving, no reordering |
| SplitMerge.SplitMergeComplete | hw/services/network/hls/axi_utils.hpp:771-913 | when the merger can do nothing more, everything split has come out |
| Crc32.CrcConcat | hw/services/network/hls/crc/crc.cpp:331-346 | the register after two byte strings is that after their concatenation |
| CrcDivision.CrcIsRemainder | hw/services/network/hls/crc/crc.cpp:333-365 | after any bytes the register is the remainder of a division by the polynomial of IEEE 802.3 over GF(2), done by hand: of the message times x^32, its first 32 coefficients changed by the register at the start |
| CrcDivision.PolynomialBits | hw/services/network/hls/crc/crc.cpp:310 | the constant 0xEDB88320 holds the coefficients of that polynomial, that of x^31 in its lowest bit |
| CrcDivision.StepBit | hw/services/network/hls/crc/crc.cpp:339-343 | every bit of the register after one step |
| CrcDivision.BitsDetermine | hw/services/network/hls/crc/crc.cpp:309-311 | the bits tell registers apart, so the remainder determines the CRC |
| Crc32.InitialIsMaskedHeader | hw/services/network/hls/crc/crc.cpp:311 | the preset 0xdebb20e3 is the CRC-32 register (section 3.2.9 of IEEE 802.3) after eight bytes 0xFF from all ones |
| Crc32.EngineFirst | hw/services/network/hls/crc/crc.cpp:319-349 | the lower half of a word continues the byte-by-byte CRC of the packet |
| Crc32.EngineSecond | hw/services/network/hls/crc/crc.cpp:350-378 | the upper half completes it, and the CRC goes out exactly at the packet end |
| Crc32.Engine.OneByte | hw/services/network/hls/crc/crc.cpp:334-345 | the masked shift loop is eight steps of the CRC |
| Crc32.Engine.Bytes | hw/services/network/hls/crc/crc.cpp:331-346 | the loop over kept bytes runs exactly those through the register |
| Crc32.Engine.First | hw/services/network/hls/crc/crc.cpp:319-349 | state FIRST, in place |
| Crc32.Engine.Second | hw/services/network/hls/crc/crc.cpp:350-378 | state SECOND, in place |
| Crc32.Engine.Step | hw/services/network/hls/crc/crc.cpp:302-381 | one call, in place, in either state |
| Crc32.InTurnsStep | hw/services/network/hls/crc/crc.cpp:538-555 | packets alternate between the two outputs, whole |
| Crc32.ArbiterKeeps | hw/services/network/hls/crc/crc.cpp:538-555 | the outputs stay well formed and carry packets 0, 2, 4, ... and 1, 3, 5, ... |
| Crc32.RoundRobinArbiter.Step | hw/services/network/hls/crc/crc.cpp:527-556 | one call, in place |
| Crc32.RoundRobinMerger.Step | hw/services/network/hls/crc/crc.cpp:559-588 | one call, in place: takes only from the input whose turn it is |
| Crc32.InTurn | hw/services/network/hls/crc/crc.cpp:559-588 | taking in turn from the even and the odd CRCs yields them in packet order |
| Crc32.TwoEnginesInOrder | hw/services/network/hls/crc/crc.cpp:301-588 | for any interleaving of arbiter, engines and merger, the merged values are in packet order the byte-by-byte CRCs of the packets; and all of them as soon as the engine whose turn it is has done its work |
| Icrc.FromLeLe | hw/services/network/hls/crc/crc.cpp:442-443 | four bytes laid out lowest first read back as the CRC |
| Icrc.InsertKeeps | hw/services/network/hls/crc/crc.cpp:420-508 | each word sent, for packets of any lengths: packets out are packets in, those of 4k bytes with their complemented CRC appended |
| Icrc.InsertPostKeeps | hw/services/network/hls/crc/crc.cpp:510-522 | the extra CRC word after a full last word completes its packet |
| Icrc.TaggedIff | hw/services/network/hls/crc/crc.cpp:385-524 | every packet of a well-formed stream, whatever the others are, leaves with its complemented CRC if and only if its length is a multiple of four bytes; any other one leaves as it came |
| Icrc.InsertIcrc.Forward | hw/services/network/hls/crc/crc.cpp:420-508 | state FWD, in place |
| Icrc.InsertIcrc.Step | hw/services/network/hls/crc/crc.cpp:385-524 | one call, in place: which FIFO it reads in which state |
| Icrc.ExtractFirstKeeps | hw/services/network/hls/crc/crc.cpp:55-67 | the first word of a packet is held |
| Icrc.ExtractPkgKeeps | hw/services/network/hls/crc/crc.cpp:68-91 | a held word goes out unchanged while the packet continues |
| Icrc.ExtractTailKeeps | hw/services/network/hls/crc/crc.cpp:68-91 | a last word of four bytes is the CRC and the held word ends the packet |
| Icrc.ExtractLastKeeps | hw/services/network/hls/crc/crc.cpp:93-168 | a longer last word goes out without its last four bytes, which are the CRC |
| Icrc.ExtractIcrc.First | hw/services/network/hls/crc/crc.cpp:55-67 | state FIRST, in place |
| Icrc.ExtractIcrc.Pkg | hw/services/network/hls/crc/crc.cpp:68-91 | state PKG, in place |
| Icrc.ExtractIcrc.Step | hw/services/network/hls/crc/crc.cpp:36-171 | one call, in place: what it reads in which state |
| Icrc.TaggedApart | hw/services/network/hls/crc/crc.cpp:36-171 | bodies and tags of tagged packets are the packets and the complemented CRCs |
| Icrc.InsertCarries | hw/services/network/hls/crc/crc.cpp:385-524 | everything inserted carries a CRC, as extract demands |
| Icrc.InsertExtractUndo | hw/services/network/hls/crc/crc.cpp:36-171 | extract after insert gives back the same packets and exactly the inserted CRCs in order, and at rest the same words |
| Masking.MaskByteBits | hw/services/network/hls/crc/crc.cpp:188-200 | the mask bytes have exactly the bits of the masked header fields |
| Masking.MaskedWordBytes | hw/services/network/hls/crc/crc.cpp:213-224 | for every bus width, a masked word is its bytes ORed with the mask at their place |
| Masking.MaskPositionsIff | hw/services/network/hls/crc/crc.cpp:202-227 | byte j of a packet meets mask byte j for all bytes if and only if the packet has at most 256 words: the 8-bit word counter wraps |
| Masking.HeaderOnlyIff | hw/services/network/hls/crc/crc.cpp:202-227 | every packet of a length leaves the mask unchanged behind its header, whatever its bytes, if and only if the length is at most 256 words |
| Masking.MaskStep | hw/services/network/hls/crc/crc.cpp:208-233 | the word counter tells where in the packet a word lies |
| Masking.MaskKeeps | hw/services/network/hls/crc/crc.cpp:208-233 | data pass unchanged, and the second copy carries the masked packets |
| Masking.MaskHeaderFields.MaskWord | hw/services/network/hls/crc/crc.cpp:213-224 | the branches on the word counter give the masked word whose bytes are characterised above |
| Masking.MaskHeaderFields.Step | hw/services/network/hls/crc/crc.cpp:180-235 | one call, in place |
| IcrcLink.MismatchesCount | hw/services/network/hls/crc/crc.cpp:257-275 | the count of mismatches is the number of places where the received CRC is not the complement of the recomputed one |
| IcrcLink.NoMismatchIff | hw/services/network/hls/crc/crc.cpp:257-275 | so it is 0 if and only if every received CRC is the complement of the recomputed one |
| IcrcLink.DropInvalidCrc.Compare | hw/services/network/hls/crc/crc.cpp:257-275 | state META, in place: the counter goes up by one, modulo 2^32, if and only if the received CRC is not the complement of the recomputed one, and the packet is forwarded either way |
| IcrcLink.DropInvalidCrc.Step | hw/services/network/hls/crc/crc.cpp:238-299 | one call, in place: one pair of CRCs per packet, every word passed on, which FIFO it reads in which state, and when the counter moves |
| IcrcLink.PathAgrees | hw/services/network/hls/crc/crc.cpp:632-636 | mask, arbiter, engines and merger together deliver the CRCs of the masked packets, in order |
| IcrcLink.LinkAgrees | hw/services/network/hls/crc/crc.cpp:631-668 | for any state sender and receiver can reach together, no received CRC differs from the recomputed one |
| IcrcStandard.SentPacket | hw/services/network/hls/crc/crc.cpp:609-668 | packet k leaves the sender with four bytes behind it, if it has 4k bytes, whose bits are the CRC-32 of section 3.2.9 of IEEE 802.3 (long division of polynomials) of eight bytes 0xFF and the masked packet; otherwise as it came |
| IcrcStandard.TagIsFrameCheck | hw/services/network/hls/crc/crc.cpp:311-373 | the complemented register, as it goes out, is that CRC-32 |
| IcrcStandard.LeBits | hw/services/network/hls/crc/crc.cpp:409-515 | the four CRC bytes carry the register from the bit shifted out first |
| IcrcStandard.Residue | hw/services/network/hls/crc/crc.cpp:333-365 | the register runs from any value over its own complemented bytes to 0xdebb20e3 |
| CrcPaths.CrcPath.constructor | hw/services/network/hls/crc/crc.cpp:663-667 | five stages wired by their FIFOs, in the invariant |
| CrcPaths.CrcPath.StepMask | hw/services/network/hls/crc/crc.cpp:663 | a step of the mask stage takes the next word, writes both copies and keeps all stages' invariants |
| CrcPaths.CrcPath.StepArbiter | hw/services/network/hls/crc/crc.cpp:664 | the same for the arbiter |
| CrcPaths.CrcPath.StepEngine1 | hw/services/network/hls/crc/crc.cpp:665 | the same for the first engine |
| CrcPaths.CrcPath.StepEngine2 | hw/services/network/hls/crc/crc.cpp:666 | the same for the second engine |
| CrcPaths.CrcPath.StepMerger | hw/services/network/hls/crc/crc.cpp:667 | the same for the merger |
| CrcPaths.CrcPath.Step | hw/services/network/hls/crc/crc.cpp:663-667 | any stage may take the next step, and takes it if and only if it finds what it reads and room in every FIFO it writes; no FIFO ever holds more than its depth, and every step behind the mask works off the work left there |
| CrcPaths.CrcPath.Result | hw/services/network/hls/crc/crc.cpp:663-667 | in every reachable state words are passed on and CRCs are those of the masked packets, in order |
| CrcLoops.CrcLoop.constructor | hw/services/network/hls/crc/crc.cpp:631-668 | sender and receiver back to back with FIFOs of any depths, in the invariant; all its stages and FIFOs are new |
| CrcLoops.NewLoop | hw/services/network/hls/crc/crc.cpp:609-668 | both paths and the loop built from nothing, and everything the stages change known to nobody else |
| CrcLoops.CrcLoop.Send | hw/services/network/hls/crc/crc.cpp:631-668 | words of packets of 4k bytes enter the sender |
| CrcLoops.CrcLoop.StepTx | hw/services/network/hls/crc/crc.cpp:663-667 | a sender stage steps if and only if it can; invariant, depths and the length of packets behind a mask are kept, and every step takes at least one unit off the work left |
| CrcLoops.CrcLoop.StepInsert | hw/services/network/hls/crc/crc.cpp:668 | so does insert_icrc |
| CrcLoops.CrcLoop.StepExtract | hw/services/network/hls/crc/crc.cpp:631 | so does extract_icrc |
| CrcLoops.CrcLoop.StepRx | hw/services/network/hls/crc/crc.cpp:632-636 | so does a receiver stage |
| CrcLoops.CrcLoop.StepDrop | hw/services/network/hls/crc/crc.cpp:637 | so does drop_invalid_crc |
| CrcLoops.CrcLoop.TxOpen | hw/services/network/hls/crc/crc.cpp:226-233 | all words of the packet open behind the mask are still in the FIFO behind it, for the packet waits there for its CRC |
| CrcLoops.CrcLoop.RxOpen | hw/services/network/hls/crc/crc.cpp:254-287 | so they are at the receiver |
| CrcLoops.CrcLoop.NothingDropped | hw/services/network/hls/crc/crc.cpp:631-668 | in every reachable state, under any schedule, the drop counter is 0 |
| CrcLoops.CrcLoop.DeliveredInOrder | hw/services/network/hls/crc/crc.cpp:631-668 | and the packets delivered are the first packets sent, byte for byte |
| OpenPackets.OpenBetween | hw/services/network/hls/crc/crc.cpp:226-233 | a packet opened after a point of the stream lies behind that point as a whole, so its length is bounded by the words there |
| OpenPackets.FitsMore | hw/services/network/hls/crc/crc.cpp:226-233 | a packet that ends while its words still fit into the FIFO fits as a whole |
| OpenPackets.LinkLength | hw/services/network/hls/crc/crc.cpp:36-171 | the packet that extract_icrc is sending is no longer than the one insert_icrc read |
| CrcDelivery.PathDrained | hw/services/network/hls/crc/crc.cpp:663-667 | with room for a CRC at its end, a path none of whose stages can move has sent the CRC of every packet behind the mask, and reads no further only for want of input or of room behind the mask |
| CrcDelivery.DropRests | hw/services/network/hls/crc/crc.cpp:254-299 | drop_invalid_crc can only be waiting between packets, with all CRCs computed so far compared |
| CrcDelivery.ReceiverRests | hw/services/network/hls/crc/crc.cpp:631-637 | when nothing can move, the receiver has delivered every packet behind its mask; if it cannot read on, the FIFO there is full of one open packet |
| CrcDelivery.SenderRests | hw/services/network/hls/crc/crc.cpp:663-668 | behind a receiver that has read everything, so has the sender |
| CrcDelivery.ArrivingLength | hw/services/network/hls/crc/crc.cpp:36-524 | the packet that is arriving is at no time longer than the one sent |
| CrcDelivery.DeliveredUpToTooLong | hw/services/network/hls/crc/crc.cpp:609-668 | when nothing can move, exactly the packets before the first one that has more words than a FIFO behind a mask stage have been delivered, byte for byte |
| CrcDelivery.EverythingDeliveredIff | hw/services/network/hls/crc/crc.cpp:609-668 | so every finished packet has been delivered if and only if none has more words |
| CrcDelivery.TooLongSticks | hw/services/network/hls/crc/crc.cpp:609-668 | such a packet, and every one behind it, is never delivered, however long the stages run |
| CrcDelivery.LimitOfCrc | hw/services/network/hls/crc/crc.cpp:620-657 | with the depths of crc.cpp the limit is 384 words, set by the sender |
| PacketHeaders.PacketHeader.Clear | hw/services/network/hls/packet.hpp:156-162 | parsing starts again, the header keeps its bits |
| PacketHeaders.PacketHeader.ParseWord | hw/services/network/hls/packet.hpp:53-73 | the header holds the first bits of the words taken and keeps its others, and is ready exactly once it has all of them; later words are ignored |
| PacketHeaders.PacketHeader.ConsumeWord | hw/services/network/hls/packet.hpp:74-89 | the next header bits go to the low end of the word, the rest of it stays, and the bytes left are reported modulo 256 |
| PacketHeaders.Transfer | hw/services/network/hls/packet.hpp:53-89 | a header sent word by word arrives in exactly as many words as it needs, whatever fills the last one |
| Collectors.ForwardingIsCurrent | hw/hdl/operators/examples/hyperloglog/Collector.hpp:98-101 | whichever of the last two writes a read misses, the first match among z, zz, zzz, or else the read, is the up-to-date bucket |
| Collectors.WaitSettles | hw/hdl/operators/examples/hyperloglog/Collector.hpp:110-112 | the settle states make every later dump read current |
| Collectors.DumpSettles | hw/hdl/operators/examples/hyperloglog/Collector.hpp:115-130 | and dumping keeps the rest of the memory current |
| Collectors.TakeItem | hw/hdl/operators/examples/hyperloglog/Collector.hpp:94-107 | an item folds into its bucket, a last one ends the batch |
| Collectors.DumpItem | hw/hdl/operators/examples/hyperloglog/Collector.hpp:115-130 | dumping a key emits its fold and clears its bucket; the last key starts from all-zero buckets |
| Collectors.DumpsSplit | hw/hdl/operators/examples/hyperloglog/Collector.hpp:115-130 | the dumps are the batches again: 2^K values in key order, value k the fold of key k from 0, only the final one flagged last |
| Collectors.Collector.constructor | hw/hdl/operators/examples/hyperloglog/Collector.hpp:25-43 | all buckets and registers start cleared |
| Collectors.Collector.Commit | hw/hdl/operators/examples/hyperloglog/Collector.hpp:81 | the pending write reaches the memory |
| Collectors.Collector.Port | hw/hdl/operators/examples/hyperloglog/Collector.hpp:75 | a read that may miss the writes of the current and the previous call |
| Collectors.Collector.Feed | hw/hdl/operators/examples/hyperloglog/Collector.hpp:94-108 | state FEED, in place |
| Collectors.Collector.DumpNext | hw/hdl/operators/examples/hyperloglog/Collector.hpp:115-131 | state DUMP, in place |
| Collectors.Collector.Act | hw/hdl/operators/examples/hyperloglog/Collector.hpp:91-132 | the controlling machine, in place: state, dump pointer and pending output after any call |
| Collectors.Collector.Collect | hw/hdl/operators/examples/hyperloglog/Collector.hpp:56-140 | one call for any empty input, blocked output and stale read keeps: buckets and outputs are those of the fold, and the controlling registers are known |
| Collectors.CollectedIsFold | hw/hdl/operators/examples/hyperloglog/Collector.hpp:77-138 | between batches exactly the dumps of all finished batches have been sent, as an ideal memory would, and the buckets are zero again |
| Flits.SplitJoin | hw/hdl/operators/examples/hyperloglog/stream.hpp:14-34 | appending a batch flagged on its final value adds exactly that batch |
| HllSketch.ClzExact | hw/hdl/operators/examples/hyperloglog/HllSketch.hpp:128 | counting leading zeros: at least c of w bits exactly when x is below 2^(w-c) |
| HllSketch.RankedExact | hw/hdl/operators/examples/hyperloglog/HllSketch.hpp:125-129 | bucket and rank are in range, and the rank exceeds r exactly when the r bits below the bucket are zero |
| HllSketch.RankedIff | hw/hdl/operators/examples/hyperloglog/HllSketch.hpp:125-129 | bucket k is the k-th interval of 2^(H-P) hashes, and there the rank exceeds r exactly for the first 2^(H-P-r) |
| HllSketch.FoldIsMaxRank | hw/hdl/operators/examples/hyperloglog/HllSketch.hpp:136-144 | a lane's fold is the maximum rank of its items in the bucket, 0 for none |
| HllSketch.MergeIsMaxRank | hw/hdl/operators/examples/hyperloglog/HllSketch.hpp:156-165 | the merged rank is the maximum over the items of all lanes |
| HllSketch.MergeIgnoresLanes | hw/hdl/operators/examples/hyperloglog/HllSketch.hpp:122-165 | it depends only on which items there are, not on split or order |
| HllSketch.RawSumIsReal | hw/hdl/operators/examples/hyperloglog/HllSketch.hpp:37-44 | the fixed-point sum is the real sum of 2^-rank: no bit is lost |
| HllSketch.RawSumBound | hw/hdl/operators/examples/hyperloglog/HllSketch.hpp:27-31 | the sum stays within range and reaches 2^P exactly when all ranks are 0 |
| HllSketch.AccumulatorExact | hw/hdl/operators/examples/hyperloglog/HllSketch.hpp:31-44 | zeros fits, and accu is exact except that it wraps to exactly 0 when all ranks are 0 |
| HllSketch.HllEstimator.Collect | hw/hdl/operators/examples/hyperloglog/HllSketch.hpp:37-44 | one rank, in place, with the register widths |
| HllSketch.HllEstimator.Reset | hw/hdl/operators/examples/hyperloglog/HllSketch.hpp:58-60 | the state reset, in place |
| HllSketch.FoldStep | hw/hdl/operators/examples/hyperloglog/HllSketch.hpp:154-177 | a row of lane values becomes one merged value, and a batch end reports and resets |
| HllSketch.Folder.ReadRow | hw/hdl/operators/examples/hyperloglog/HllSketch.hpp:156-165 | the loop over the lanes: batch end and maximum |
| HllSketch.Folder.Fold | hw/hdl/operators/examples/hyperloglog/HllSketch.hpp:147-179 | one call, in place: nothing unless every lane has a value |
| HllSketch.Folder.Feed | hw/hdl/operators/examples/hyperloglog/HllSketch.hpp:154-156 | a value reaches its lane; what fold has read and what waits is what was fed |
| HllSketch.MergedBatch | hw/hdl/operators/examples/hyperloglog/HllSketch.hpp:136-165 | lanes dumping a batch each merge into one value per bucket, the last one flagged |
| HllSketch.BatchMetrics | hw/hdl/operators/examples/hyperloglog/HllSketch.hpp:39-44 | at a batch end zeros is the number of empty buckets and accu the sum of 2^-rank of the maximum ranks over all lanes |
| HllSketch.RankKeepsBatches | hw/hdl/operators/examples/hyperloglog/HllSketch.hpp:122-134 | ranking keeps batches and their order |
| DivideData.LaneLine | hw/hdl/operators/examples/hyperloglog/hllsketch_16x32.hpp:47-57 | a line keeps: each lane has sent its batches with one value held back |
| DivideData.LaneFlush | hw/hdl/operators/examples/hyperloglog/hllsketch_16x32.hpp:39-45 | the flush sends the held last values |
| DivideData.Divider.Flush | hw/hdl/operators/examples/hyperloglog/hllsketch_16x32.hpp:39-45 | the flush, in place: exactly the lanes that keep their last value get it, flagged last |
| DivideData.Divider.Deal | hw/hdl/operators/examples/hyperloglog/hllsketch_16x32.hpp:47-57 | a line, in place: every lane gets the value held, flagged last where the last line is not kept |
| DivideData.Divider.Step | hw/hdl/operators/examples/hyperloglog/hllsketch_16x32.hpp:33-59 | one call, in place |
| DivideData.LanesCarryBatches | hw/hdl/operators/examples/hyperloglog/hllsketch_16x32.hpp:33-59 | between batches every lane has sent every batch with exactly one last, on its final item |
| HllHistory.SplitPrefix | hw/hdl/operators/examples/hyperloglog/stream.hpp:14-34 | the batches finished in a beginning of a stream are the first batches of the stream |
| HllHistory.LaneFeeds | hw/hdl/operators/examples/hyperloglog/HllSketch.hpp:94-144 | what a lane has delivered at any moment is the beginning of the dumps of the finished batches, and all of it when nothing is on the way |
| HllHistory.FoldedPrefix | hw/hdl/operators/examples/hyperloglog/HllSketch.hpp:147-179 | whatever part of the lanes' dumps fold has read, its finished batches are the first ones of the bucket ranks |
| HllPipeline.ResultsOfRows | hw/hdl/operators/examples/hyperloglog/HllSketch.hpp:147-179 | from beginnings of the dumps, read row by row: the metrics reported are those of the first batches, in order, and of all once every row is read |
| HllPipeline.CollectLane | hw/hdl/operators/examples/hyperloglog/Collector.hpp:56-140 | one call of a collector on the FIFOs of its lane, for any blocked output and stale read, keeps what the lane has read, ranked and collected together |
| HllPipeline.Sketch.constructor | hw/hdl/operators/examples/hyperloglog/HllSketch.hpp:94-179 | divider, rank stages, collectors and fold wired by their FIFOs, nothing shared, all of them new |
| HllPipeline.Sketch.Send | hw/hdl/operators/examples/hyperloglog/hllsketch_16x32.hpp:33-36 | a line enters the divider |
| HllPipeline.Sketch.StepDivider | hw/hdl/operators/examples/hyperloglog/hllsketch_16x32.hpp:33-59 | the divider takes the next step, in place, and all lanes stay as they should be |
| HllPipeline.Sketch.StepRank | hw/hdl/operators/examples/hyperloglog/HllSketch.hpp:122-134 | so does the rank stage of any lane |
| HllPipeline.Sketch.StepCollect | hw/hdl/operators/examples/hyperloglog/HllSketch.hpp:136-144 | so does the collector of any lane, whatever its memory port shows and whether or not its output is taken |
| HllPipeline.Sketch.StepFold | hw/hdl/operators/examples/hyperloglog/HllSketch.hpp:147-179 | so does fold |
| HllPipeline.Sketch.Results | hw/hdl/operators/examples/hyperloglog/HllSketch.hpp:94-179 | in every state the stages can reach, in whatever order and relative speed of the lanes, result b is the metrics of the bucket ranks of batch b over the items of all lanes |
| HllPipeline.Sketch.AllReported | hw/hdl/operators/examples/hyperloglog/HllSketch.hpp:94-179 | and when no stage has anything to do there are as many results as finished batches |
| HllPipeline.ReportRanks | hw/hdl/operators/examples/hyperloglog/HllSketch.hpp:31-44 | what a result amounts to in terms of the ranked items of all lanes |
| HllReport.ReportExact | hw/hdl/operators/examples/hyperloglog/HllSketch.hpp:31-179 | and in terms of the lines received: the rank of bucket k exceeds r if and only if some value of the batch has its hash in the first 2^(H-P-r) of the k-th interval, zeros is the number of intervals without a hash, and accu the real sum of 2^-rank |
| HllReport.LaneValues | hw/hdl/operators/examples/hyperloglog/hllsketch_16x32.hpp:44-67 | the values a lane contributes to a batch: those of its lines, the last one if kept, and the one left over from the batch before |
| HllProgress.ControlWorks | hw/hdl/operators/examples/hyperloglog/Collector.hpp:91-132 | a call of a collector with something to do works off at least one unit of a bounded amount of work, and an idle call changes nothing |
| HllProgress.BoundedSketch.StepDivider | hw/hdl/operators/examples/hyperloglog/hllsketch_16x32.hpp:33-59 | with bounded FIFOs the divider steps if and only if every lane it writes has room; no FIFO ever holds more than its depth, and the work left shrinks |
| HllProgress.BoundedSketch.StepRank | hw/hdl/operators/examples/hyperloglog/HllSketch.hpp:122-134 | so does the rank stage of any lane |
| HllProgress.BoundedSketch.StepCollect | hw/hdl/operators/examples/hyperloglog/HllSketch.hpp:136-144 | so does a collector, whose output is taken when there is room; an idle call leaves the work as it is |
| HllProgress.BoundedSketch.StepFold | hw/hdl/operators/examples/hyperloglog/HllSketch.hpp:147-179 | so does fold |
| HllProgress.LaneCount | hw/hdl/operators/examples/hyperloglog/HllSketch.hpp:94-179 | a lane has delivered at most the dumps of the batches dealt to it, and all of them when it has nothing left to do |
| HllProgress.BlockedIsAhead | hw/hdl/operators/examples/hyperloglog/HllSketch.hpp:94-179 | a lane that waits for room has received more batches than one whose values fold waits for |
| HllProgress.NeverStuck | hw/hdl/operators/examples/hyperloglog/HllSketch.hpp:94-179 | with FIFOs of any positive depths, when nothing can move every line has been dealt and every finished batch has been reported |
| HllLeftover.ExtraRanksIff | hw/hdl/operators/examples/hyperloglog/hllsketch_16x32.hpp:53 | extra items leave every bucket's rank as it is if and only if for each some own item has its bucket and at least its rank |
| HllLeftover.RawSumShrinks | hw/hdl/operators/examples/hyperloglog/HllSketch.hpp:37-44 | higher ranks give a smaller sum, and the same sum only from the same ranks |
| HllLeftover.MetricsTell | hw/hdl/operators/examples/hyperloglog/HllSketch.hpp:31-44 | so with ranks that can only grow, the metrics are the same only when the ranks are |
| HllLeftover.BatchIsOwnAndLeftover | hw/hdl/operators/examples/hyperloglog/hllsketch_16x32.hpp:47-57 | a lane emits in a batch the leftover of the batch before, or 0 in the first, and then the values it keeps |
| HllLeftover.LeftoverHarmlessIff | hw/hdl/operators/examples/hyperloglog/hllsketch_16x32.hpp:53 | the metrics reported for a batch are those of its own items if and only if, for every lane, an item that some lane keeps of the batch has the bucket of that lane's leftover and at least its rank |
| HllFirstBatch.OneLineIff | hw/hdl/operators/examples/hyperloglog/hllsketch_16x32.hpp:53 | for every hash and size: a first batch of one line with one value on all lanes comes out right if and only if that value has the bucket of value 0 and at least its rank |
| HllFirstBatch.RunOneLine | hw/hdl/operators/examples/hyperloglog/HllSketch.hpp:94-179 | the pipeline built from nothing, with FIFOs of any positive depths, gets that line and runs until nothing can move: one result, right under that condition only |
| TaskOrder.StrictWeakOrderIff | sw/include/cSched.hpp:66-80 | the comparator is a strict weak order in every setting except priority off with reorder on |
| TaskOrder.ServedPermutes | sw/src/cSched.cpp:113-118 | serving a queue serves every request once |
| TaskOrder.ServedIff | sw/include/cSched.hpp:66-80 | in every setting of priority and reorder, the orders in which a queue can be served are exactly its permutations in which none comes before one of higher priority (with priority) or of the same priority and smaller oid (with reorder) |
| TaskOrder.ServedSorted | sw/include/cSched.hpp:66-80 | with priority and reorder on, service is by priority descending, then oid ascending |
| TaskOrder.SortedReconfigs | sw/src/cSched.cpp:124-139 | in that order each (priority, oid) pair is loaded at most once |
| TaskOrder.BatchReconfigs | sw/src/cSched.cpp:113-139 | a queued batch costs at most one reconfiguration per distinct (priority, oid) pair |
| TaskOrder.ReconfigsAtLeast | sw/src/cSched.cpp:124-139 | no order needs fewer reconfigurations than operators to load |
| TaskOrder.ReconfigsOptimal | sw/src/cSched.cpp:113-139 | for one priority the scheduler's order needs exactly one per operator, and no other order fewer |
| Scheduler.KeepsDistinct | sw/src/cSched.cpp:173-192 | no two outstanding requests share a cpid |
| Scheduler.KeepsWaiting | sw/src/cSched.cpp:113-118 | every request not yet granted has its client waiting |
| Scheduler.KeepsExclusive | sw/src/cSched.cpp:141-165 | only the client of the granted request can be inside |
| Scheduler.KeepsAccounts | sw/src/cSched.cpp:113-146 | every accepted request is queued, in hand or granted once |
| Scheduler.RunKeeps | sw/src/cSched.cpp:101-192 | every run of allowed steps, in any interleaving and whatever operators it asks for, keeps all four |
| Scheduler.RunIsSafe | sw/src/cSched.cpp:101-192 | with one outstanding request per cpid, no timeout and pUnlock under the cpid of the client inside called by nobody else, whatever operators are asked for: never two clients inside, the one inside is the granted one, and every accepted request is queued, in hand or granted once |
| Scheduler.CSched.PLock | sw/src/cSched.cpp:173-177 | the first critical section, in place |
| Scheduler.CSched.PLockReturns | sw/src/cSched.cpp:179-182 | the end of the wait, in place |
| Scheduler.CSched.PUnlock | sw/src/cSched.cpp:184-192 | in place, for any thread and any cpid: the client inside leaves, or somebody else ends the run under that cpid |
| Scheduler.CSched.PopRequest | sw/src/cSched.cpp:113-118 | takes a request nothing is to be served before, wherever the comparator is a strict weak order, and any request where it is not |
| Scheduler.CSched.ReconfigureFor | sw/src/cSched.cpp:124-139 | in place: the operator is remembered even when its bitstream is missing |
| Scheduler.CSched.Notify | sw/src/cSched.cpp:141-146 | in place: the grant |
| Scheduler.CSched.WaitEnds | sw/src/cSched.cpp:148-162 | in place: completion or timeout |
| Scheduler.TopOf | sw/src/cSched.cpp:116 | the element delivered is a top one |
| SchedulerProgress.KeepsAttended | sw/src/cSched.cpp:101-192 | no waiting client is forgotten by any step, pUnlock of a client inside included |
| SchedulerProgress.UnlockForgetsIff | sw/src/cSched.cpp:184-192 | a call of pUnlock by somebody else forgets a client if and only if it comes under its cpid between the grant and the return of its pLock |
| SchedulerProgress.NeverStuck | sw/src/cSched.cpp:101-192 | some thread can move if and only if a request is queued or in hand or a client is in the protocol |
| SchedulerProgress.StepWorks | sw/src/cSched.cpp:101-192 | every step but a new request works off one unit |
| SchedulerProgress.EveryRequestGranted | sw/src/cSched.cpp:101-192 | when only the client inside calls pUnlock: once no new requests come, boundedly many steps remain, and when they are done every accepted request has been granted exactly once and no client is left |
| SchedulerFaults.InvIsSafe | sw/src/cSched.cpp:101-192 | while the conditions hold, no continuation that keeps them lets two clients in |
| SchedulerFaults.TimeoutCollides | sw/src/cSched.cpp:150-162 | after a timeout in any state reached under the conditions, some continuation that keeps them lets a second client in, whether or not the first has entered and whether or not anything is queued |
| SchedulerFaults.DoubleCollides | sw/src/cSched.cpp:173-182 | so after a request under a cpid that has one outstanding, wherever that one is on its way |
| SchedulerFaults.UnlockCollides | sw/src/cSched.cpp:184-192 | so after pUnlock by somebody else under the cpid of the client inside |
| SchedulerFaults.CollisionIff | sw/src/cSched.cpp:101-192 | from every state reached under the conditions, a step makes it possible that two clients are inside at once if and only if it is a timeout, a request under an outstanding cpid, or a call of pUnlock by somebody else under the cpid of the client inside |
| SchedulerFaults.RunSafeIff | sw/src/cSched.cpp:101-192 | a whole run, whatever operators it asks for, is never in a state that can lead to two clients inside if and only if nothing in it times out, no request comes under an outstanding cpid, and nobody else calls pUnlock under the cpid of the client inside |
| SchedulerFaults.TimeoutRun | sw/src/cSched.cpp:150-162 | a run from the initial state with one timeout that ends with two clients inside |
| SchedulerFaults.SameCpidRun | sw/src/cSched.cpp:179-181 | one with two requests under one cpid |
| SchedulerFaults.UnlockRun | sw/src/cSched.cpp:184-192 | and one with pUnlock by another thread |
| SchedulerOperator.KeepsTracks | sw/src/cSched.cpp:124-146 | what the scheduler believes to be loaded, what is loaded, and what has been granted keep fitting together in every step, whatever the clients do |
| SchedulerOperator.FindsOperatorIff | sw/src/cSched.cpp:101-192 | after any run that keeps the conditions of exclusion, whatever operators it asks for, the client inside finds its operator loaded if and only if reconfiguration is enabled and there is a bitstream for it; for operator -1, only once another operator has been asked for |
| SchedulerOperator.WrongOperatorRun | sw/src/cSched.cpp:307-314 | a run from the start that keeps the conditions and ends with a client inside, its operator unknown, and another one loaded |
| SchedulerOperator.NoOidRun | sw/src/cSched.cpp:107-139 | a first client that asks for operator -1 is let in with nothing loaded, bitstream or not |
| SchedulerDrain.ChangesAreReconfigs | sw/src/cSched.cpp:124-139 | any run changes the operator exactly as often as the order of its requests demands |
| SchedulerDrain.DrainServes | sw/src/cSched.cpp:113-118 | a run that drains the queue without new requests serves it in the order of the comparator, however the clients behave in between |
| SchedulerDrain.DrainReconfigs | sw/src/cSched.cpp:113-139 | so it reconfigures at most once per distinct (priority, oid) pair, and for one priority exactly once per operator, which no other order beats |
| FreeLists.TakeHead | driver/fpga_mmu.c:328-333 | taking the head keeps free list and live chunks a partition |
| FreeLists.GiveHead | driver/fpga_mmu.c:391-394 | giving a live chunk back keeps it |
| FreeLists.GiveIff | driver/fpga_mmu.c:391-394 | linking a chunk below the tail in front keeps the list in order if and only if the chunk is live |
| FreeLists.FollowList | driver/fpga_mmu.c:391-394 | the links of a list in order lead through its chunks to the tail and end there |
| FreeLists.FreeTwiceLoops | driver/fpga_mmu.c:391-394 | freeing a chunk that is free at place j makes the links run in a circle through it and the chunks in front of it, for ever, and never to the tail |
| FreeLists.TakeSafeIff | driver/fpga_dev.c:210-219 | the chunks taken have distinct ids that no live chunk has if and only if the tail chunk, whose id is 0, stays |
| FreeLists.ChunkPool.constructor | driver/fpga_dev.c:210-221 | the setup loops: all chunks free, in order, linked, none live |
| FreeLists.ChunkPool.Pop | driver/fpga_mmu.c:329-332 | in place, for links of any kind: the head is unlinked and marked; above the tail of a list in order the rest is a list in order again, and the tail yields id 0 and leaves no list |
| FreeLists.ChunkPool.Push | driver/fpga_mmu.c:391-394 | in place: any chunk is linked in front; a live one goes to the front of the list |
| FreeLists.ChunkPool.Release | driver/fpga_fops.c:825-829 | in place: the same, marking it unused |
| CardMemory.AddressExact | driver/fpga_mmu.c:330-350 | the 32-bit shift loses nothing, and the chunk is recovered from its address |
| CardMemory.PagesApart | driver/fpga_mmu.c:330-350 | pages of different chunks never overlap; small ones lie below MEM_SEP, large ones from it on |
| CardMemory.CardPool.constructor | driver/fpga_dev.c:190-221 | a pool with its never-updated count |
| CardMemory.CardPool.Alloc | driver/fpga_mmu.c:310-364 | for links of any kind: the pages are the chunks that lie on them, and a null pointer is followed if and only if they end too early; for a list in order these are its first chunks; -ENOMEM exactly when more pages are asked for than the pool has in all, and then nothing changes |
| CardMemory.AllTaken | driver/fpga_mmu.c:328-352 | a list in order hands out its chunks in order, leaves a list in order above the tail, and then its links end |
| CardMemory.CardPool.Free | driver/fpga_mmu.c:374-420 | for any pages the pool ever had: the links after it, and for live ones, each once, the list with them in front in their order |
| CardMemory.FreedTwice | driver/fpga_mmu.c:389-400 | a page freed twice in a row: its chunk is linked to itself, and the pool hands out nothing else any more |
| CardMemory.FreedUnused | driver/fpga_mmu.c:389-400 | pages whose chunks were never used are not linked in |
| CardMemory.AllocThenFree | driver/fpga_mmu.c:310-420 | freeing what one card_alloc returned restores the same list in the same order |
| CardMemory.PidTable.constructor | driver/fpga_dev.c:394-413 | no cpid registered |
| CardMemory.PidTable.RegisterPid | driver/fpga_fops.c:785-810 | for links of any kind; with a list in order a cpid no live registration has, recorded with its PID; the last chunk yields cpid 0 a second time, and the call after it follows a null pointer |
| CardMemory.PidTable.UnregisterPid | driver/fpga_fops.c:818-837 | removes the registration, and changes nothing for a cpid that has none |
| Bits.OrApart | driver/fpga_mmu.c:443-447 | ORing fields that share no bits adds them |
| Bits.AndLow | driver/fpga_mmu.c:438 | a mask of ones keeps the remainder |
| Bits.AndHigh | driver/fpga_mmu.c:902-903 | an alignment mask clears the bits below |
| TlbEntries.KeyAndTag | driver/fpga_mmu.c:438-444 | for any key size, key and tag together are the virtual page number |
| TlbEntries.EntryPacked | driver/fpga_mmu.c:443-446 | the first word is page number, cpid and valid bit side by side: page + (cpid + 64 valid) 2^(48 - shift) |
| TlbEntries.EntryDecodesIff | driver/fpga_mmu.c:432-446 | page number, cpid and valid bit read back as put in if and only if the address is below 2^48 and the cpid below 64 |
| TlbEntries.FramesPacked | driver/fpga_mmu.c:440-447 | the second word is the host frame and above it the card frame, each cut to 40 - shift bits, for any addresses |
| TlbEntries.FramesDecodeIff | driver/fpga_mmu.c:440-447 | host and card frame read back in full if and only if both addresses are below 2^40 |
| TlbEntries.HitsIff | hw/hdl/mmu/tlb_controller.sv:363-378 | whatever the key size, a lookup by key, tag, pid and valid bit hits exactly the live entry of its page and pid |
| TlbEntries.UnmapClearsValid | driver/fpga_mmu.c:460-476 | an unmap entry is the map entry with the valid bit clear, and no lookup hits it |
| TlbMap.CreateMap | driver/fpga_mmu.c:431-450 | ORs one entry into the list, in place |
| TlbMap.CreateUnmap | driver/fpga_mmu.c:460-476 | the same for an unmap entry |
| TlbMap.FillMap | driver/fpga_mmu.c:927-938 | the fill loop: entry i maps page i to frame i |
| TlbMap.FillUnmap | driver/fpga_mmu.c:742-754 | the unmap loop: entry i unmaps page i, frames zero |
| TlbMap.CollapseNext | driver/fpga_mmu.c:901-909 | a round keeps: one frame per huge page touched so far, that of its first pinned page; none for a buffer that starts in the topmost huge page, which the loop takes for one already seen |
| TlbMap.Collapse | driver/fpga_mmu.c:898-909 | the collapse loop fills exactly one frame per huge page touched by the pinned pages, and no more |
| TlbMap.BufferPages | driver/fpga_mmu.c:886-889 | huge pages touched by the pinned pages never exceed those of the buffer |
| TlbMap.KeptIs | driver/fpga_mmu.c:899-909 | every other buffer gets one frame for each huge page its pinned pages touch |
| TlbMap.MapHuge | driver/fpga_mmu.c:791-944 | the huge page branch for any 64-bit buffer whose frames fit the array allocated: each of -EINVAL, -1 and -ENOMEM if and only if its cause is there, and otherwise the number of pages pinned and the list made |
| TlbMap.CountsAre | driver/fpga_mmu.c:818-832 | the pages to pin are the 4 KB pages the buffer touches, as a 32-bit number and at most 8192; huge pages are counted in 32 bits |
| TlbMap.FramesFitUnwrapped | driver/fpga_mmu.c:886-909 | the frames fit whenever the number of huge pages is below 2^31 |
| TlbTranslation.OwnPageOnly | hw/hdl/mmu/tlb_controller.sv:363-378 | a lookup hits entry i exactly for the i-th huge page of the buffer and its owner |
| TlbTranslation.FrameAt | driver/fpga_mmu.c:901-909 | entry i has the host frame of its huge page while the pinned pages reach it, else frame 0 |
| TlbTranslation.TranslatesIff | hw/hdl/mmu/tlb_fsm_rd.sv:479 | an address translates to the memory behind it if and only if the pinned pages reach its huge page |
| TlbTranslation.WholeBufferIff | driver/fpga_mmu.c:791-944 | the list translates every address of the buffer if and only if the last pinned page lies in its last huge page |
| TlbTranslation.UnderCap | driver/fpga_mmu.c:826-828 | so always for buffers of at most 8192 small pages |
| TlbTranslation.MapBuffer | driver/fpga_mmu.c:791-944 | a 48-bit buffer with a cpid below 64 is mapped if and only if its pages can be pinned and there are card pages for it; and the list then translates every address to the memory pinned behind it if and only if the number of pages to pin, known before the call, reaches into the last huge page |
| TlbTranslation.CapCutsShort | driver/fpga_mmu.c:826-828 | huge pages of 2 MB at any aligned address: no buffer longer than 16 of them, up to 2^31 - 1 small pages, is translated as a whole |
| TlbTranslation.WrapCutsShort | driver/fpga_mmu.c:822-828 | of a buffer of 2^32 + 1 small pages one is pinned, for the page count wraps in 32 bits, and the buffer is not translated as a whole |
| TlbCard.CardAddressAt | hw/hdl/mmu/tlb_fsm_rd.sv:479-482 | pinned or not, every address of the buffer reaches the card page of its huge page, at its offset |
| TlbCard.SeparateIff | driver/fpga_mmu.c:350 | the card pages of different chunks stay apart if and only if huge pages are no larger than the 2 MB chunks |
| TlbCard.CardInjective | driver/fpga_mmu.c:886-938 | so two addresses of a buffer never share a card byte |
| TlbCard.CardApart | driver/fpga_mmu.c:886-938 | nor do addresses of two buffers on different chunks |
| TlbCard.CardShared | driver/fpga_mmu.c:886-938 | with larger huge pages the first buffer on a fresh card has its second huge page on the card memory of its first |
| TlbCard.MapOnCard | driver/fpga_mmu.c:911-938 | with card_alloc: whenever the pages can be pinned the buffer is mapped, and each huge page gets a chunk of its own that no other buffer holds; otherwise nothing is taken |

## Left out

- FIFO depths outside the CRC unit and the sketch: a stage there never blocks on a write. With depths a step is
  atomic: a stage steps when there is room in all FIFOs it writes, where the hardware may stop between two writes
  with its word already read. The external link and the consumer of the receiver are a FIFO of any depth and an open
  end.
- Each call site of a stage has its own static registers, as hardware instances have; a software simulation in which
  both CRC engines share one set of statics is not modelled.
- `DISABLE_CRC_CHECK`, which crc.hpp defines, switches the CRC code off; the model is the enabled code.
- The DROP state of `drop_invalid_crc`: the code never enters it.
- Words that are not well formed: the machines accept them, but nothing is claimed about their output.
- Debug output, the simulation-only clearing of the wide register, and uninitialised registers, which are arbitrary
  parameters here.
- `fair_pkg_merger`: it moves to the wrong state after its first word, so packets are not atomic.
- The copied shift, merge and width variants of other namespaces: identical bodies.
- `HllEstimator::estimate` beyond its reset, and the hash functions: floating point and library code; the sketch
  holds for every hash function.
- The contents of the tabulation table: any values, so nothing is said about how well keys are spread.
- HashTables.Service: simultaneous pipelined calls; a call is one atomic step.
- The memory model of the scheduler's `curr_run`, which is written and read under different mutexes: every critical
  section is one atomic step. Bitstreams are added before the run, and loading one does not fail.
- The order in which std::priority_queue serves requests under a comparator that is no strict weak order: there any
  request may come out.
- CardMemory.CardPool.Alloc: what a kernel does once a null pointer has been followed. The spinlock that stays held
  on -ENOMEM is not modelled.
- CardMemory.PidTable.UnregisterPid: the state after the last cpid was taken, when the list is gone.
- TlbMap.MapHuge: requires that the frames fit into the array allocated for them; the number of huge pages is held
  in 32 bits, and where it wraps to less the code writes past the array. Takes the pinned pages as input, and leaves
  out failures of kernel allocation other than that of a negative count. The branch for small pages uses the same
  fill loop without collapse. Undoing a partial failure is kernel page bookkeeping.
- TlbTranslation.MapBuffer: promises a translation only below 2^48, for cpids below 64 and for a number of huge
  pages that does not wrap.
- The record of a mapping: `tlb_get_user_pages` never stores the cpid in it, so unmap lists are stated for the cpid
  their caller passes.
- The fast-TLB DMA transfer, register polling, IRQ, sysfs, ioctl and mmap code: device I/O.
- Replacement of TLB entries: the associative ways of the TLB are not modelled, only what one entry matches.
- ARP, DHCP, echo server, frame padding and the unfinished flow control: field-by-field machines that would add easy
  members.
- Process, service and library classes of the software stack, the reconfiguration server, examples and scripts:
  sockets, memory-mapped registers and foreign libraries.
