# LazyLog (Erwin-bb), modelled and proved in Dafny

LazyLog is a shared log whose order is settled lazily. Clients append to every sequencing replica; each replica keeps
entries in an in-memory byte ring. A consensus process fetches entries in the order of the primary replica, stripes them
over replicated shards, garbage-collects all rings, and publishes a stable index that gates reads.

The project models that core bottom up:

| file | what it holds |
|---|---|
| `Arith.dfy` | division and remainder with a variable divisor, so that every other proof stays linear |
| `Codec.dfy`, `Batches.dfy` | the entry format and the loops that write and read lists of entries |
| `Ring.dfy`, `RingProofs.dfy` | the byte ring with several appenders at once, as transitions with one invariant |
| `RingReads.dfy` | the remote two-piece fetch and the speculative read, while appenders are at work |
| `FetchExact.dfy`, `Fetching.dfy` | exactly what a fetch decodes; the primary driven by fetches, with the watermarks they write |
| `RingLimits.dfy`, `FetchLimits.dfy`, `SpecLimits.dfy` | exactly when a watermark step is safe, and runs in which watermark, fetch and speculative read go wrong |
| `DurLog.dfy`, `Collect.dfy` | the replica as a class: an append in place; a backup's garbage collection beside the appenders |
| `Gc.dfy` | what the consensus side tells each replica after a batch |
| `Striping.dfy`, `Shards.dfy`, `OffsetShards.dfy` | spreading a batch over shards, and the two kinds of shard server |
| `Backend.dfy`, `ConsLog.dfy` | a batch from the ring through serialization into the servers; the consensus process as a class |
| `Protocol.dfy`, `ProtocolProofs.dfy` | the whole system as steps of its parties, with an invariant for all interleavings |
| `Guarantees.dfy`, `Collections.dfy` | what follows in every run: for reads, for durability and order, and for a backup's collections |
| `Progress.dfy`, `Limits.dfy` | that nothing is ever stuck, and runs that show where a promise does not hold |
| `Refinement.dfy`, `BackupRefinement.dfy` | rings, whole backups, batches and servers as the protocol sees them |
| `Client.dfy` | when a client's append returns |

## Assumptions

- Clients have distinct nonzero ids and one outstanding append each, which returns when every replica has answered.
- Entries are at most the safe region (two pages); K appenders with entries of at most S bytes satisfy K * S <= 64 pages,
  and the ring is larger than that and smaller than 2^32 bytes. The wait for space is switched on, as it is by default.
- Memory is sequentially consistent; the space check is one step. Waiting is a step that is not enabled yet.
- A fetch reads the range first and the bytes later. Its one or two remote reads of the bytes see one state of the ring.
- Counters are unbounded, except where the source's width decides something: the 32-bit size in `GetSize`, the 32-bit
  counts of messages, and the 64-bit comparison of the speculative read are modelled with their wrap-around.
- Shards start with an empty data folder. A data file is an append-only byte sequence that is open or closed.
- In `Protocol.dfy` an append is its request id. A fetch takes only entries whose flag is set, and takes them whole. The
  code does so exactly under the condition of `FetchExact.FetchExactly`; otherwise the shards can serve an id with another
  entry's payload (`FetchExact.TornFetch`). Under that condition the entry-level result, payload included, is
  `ConsLog.ConsensusLog.ReadEntry`.
- A backup's look-up of the request ids and its pass over the pending list are one step of `Protocol.dfy`, because only
  the collecting thread touches that list.
- A fetched header whose 32-bit size sum wraps makes the source read past its buffer. Such a fetch decodes nothing whole
  here, so it counts as wrong wherever it can occur, and no run goes on after it.
- For every ring size means for every multiple of four that exceeds the slack by 128 bytes (`FetchLimits`: 256). The exact
  conditions on fetches also take the ring's size as a multiple of four, which a number of pages is.

## Where the code does not do what it promises

Each of these is proved, with its exact condition where there is one.

- `GetSize` equals the bytes written exactly if the size is at most 2^32 - 4; above that the 32-bit sum wraps
  (`Codec.GetSizeAgreesExactly`).
- The watermark may pass an entry between its flag and the copy of its overflow to the front of the ring. If that
  appender then stalls for a lap, its late copy destroys a newer entry that is finished and unordered. For every ring size
  there is such a run (`RingLimits.DestroyedRun`). A watermark step is safe if and only if it passes no entry whose
  overflow is still to be copied (`RingLimits.WatermarkSafeExactly`). What memory holds is proved for runs without a late
  copy, which include all runs with that guard (`RingProofs.RunKeeps`, `RingProofs.CarefulIsTimely`).
- A reservation clears the flag in the contiguous view only, and the flag is set before the overflow is copied back. So a
  fetch can take stale bytes at the front of the ring for a header, or deliver an entry with another entry's payload. For
  every ring size there is a run into a torn fetch (`FetchExact.TornFetch`). Whatever earlier laps left in memory, a fetch
  returns exactly the settled entries if and only if, at the first entry past them, the header is past the limit, or the
  cleared flag is inside the ring, or the size is inside the ring and too large (`FetchExact.FetchExactly`).
- Nothing guards the primary's watermarks but what the fetches decoded. For every ring size there is a run in which a
  fetch takes the size of an old entry for the flag of one that is still in flight, and the watermarks are then set to a
  byte that is no boundary and to an index smaller than before (`FetchLimits.MisreadRun`). Whatever earlier laps left in
  memory, a fetch ends at a boundary above shown entries, with their indices in what it decoded, if and only if it meets
  the condition above or the first entry past the settled ones is flagged and its size is inside the ring
  (`FetchExact.LandsExactly`). In runs whose fetches do so and whose copies are not late, the two watermarks agree, only
  grow, and the space bound holds (`Fetching.WatermarkPair`, `Fetching.SpaceBound`). If every fetch meets the condition
  above, no copy is late either (`Fetching.MaskedIsSteady`).
- The speculative read's first comparison wraps while fewer entries exist than the index map has slots minus 64, and then
  every read fails with -1, although the header comment and `tst/flat_log_test.cc` expect early reads to succeed
  (`RingReads.SpecReadEntry` says exactly when it succeeds). Its byte margin is checked only after the ring has wrapped
  once. Before that, a read is admitted only while all payloads together are about 64 headers (`SpecLimits.EarlyReadBound`),
  and for every ring size there is a run in which it then delivers an entry with two bytes of its payload cleared
  (`SpecLimits.StaleSpecRead`). The result is right whenever what the index map named is less than a lap old when its
  bytes are read (`RingReads.SpecReadInterleaved`).
- Both shard watermarks start at 0, so index 0 can be read before the shard's backups have it. Reads of an index are
  always backed by complete copies exactly if the index is not 0 (`Limits.ReadIsBackedExactly`).
- A backup gives a client that is absent from a batch the maximum 0, and client sequences start at 0. So it can drop a
  client's first append before it is stored anywhere, and the append still returns. A backup never loses an unstored
  append with a given client sequence exactly if that sequence is not 0 (`Limits.NeverLostExactly`).
- While a backup walks its ring, the ordered index watermark moves with every entry and the ordered byte watermark only at
  the end; the two agree between walks (`Collect.Collector.Walk`).

## Model

A guarded run is one of the ring whose watermarks move only to boundaries above entries whose flag is set. A backup's walk
sees to that; on the primary it follows from the condition on fetches (`Fetching.SteadyIsGuarded`).

| member | source | states |
|---|---|---|
| `Codec.GetSizeAgreesExactly` | src/rpc/log_entry.cc:39 | the size function equals the bytes written if and only if the payload is at most 2^32 - 4 bytes |
| `Codec.IntegerRoundTrip` | src/rpc/log_entry.cc:57-69 | a field that fits its width survives being written and read little-endian |
| `Codec.BytesRoundTrip` | src/rpc/log_entry.cc:71-84 | any field bytes survive being read and written again |
| `Codec.ImageIsHeld` | src/rpc/log_entry.cc:57-69 | a buffer with an entry's bytes at a place stores that entry there, whatever surrounds them |
| `Codec.HeldEntryIsUnique` | src/rpc/log_entry.cc:71-84 | a place stores at most one entry, so decoding is determined |
| `Codec.HeldBytes` | src/rpc/log_entry.cc:57-84 | equal entries are stored as equal bytes up to padding |
| `Codec.HeldSize` | src/rpc/log_entry.cc:41-44 | size and flag read from a buffer are those of the stored entry |
| `Codec.FieldOf` | src/rpc/log_entry.h:29-34 | every header byte belongs to one field; the header is 32 bytes |
| `Codec.Deserializer` | src/rpc/log_entry.cc:71-84 | zero bytes exactly for a zero flag, else the stored entry and its padded length |
| `Batches.Serializer` | src/rpc/log_entry.cc:57-69 | the buffer is the old one with the entry's bytes spliced in; padding keeps its old bytes |
| `Batches.MultiSerializer` | src/rpc/log_entry.cc:86-97 | the count, then every entry end to end; nothing else changes |
| `Batches.MultiSerializerStrided` | src/rpc/log_entry.cc:113-125 | the count of, and exactly, the entries at the stride; the index of the last one is returned |
| `Batches.StridedAt` | src/rpc/log_entry.cc:113-125 | which entries a stride selects, in both directions |
| `Batches.MultiDeserializer` | src/rpc/log_entry.cc:127-143 | appends exactly the published run at the front of the message, and stops at its end |
| `Batches.DecodePublished` | src/rpc/log_entry.cc:127-143 | decoding a serialized list stops exactly at its first entry with flag zero |
| `Batches.MultiDeserializerSize` | src/rpc/log_entry.cc:182-195 | the form without a count decodes exactly the published run that fills the given size |
| `Batches.MultiDeserializerMaxSize` | src/rpc/log_entry.cc:197-212 | decodes exactly the longest run of whole published entries within the limit |
| `Batches.LongestRunIsUnique` | src/rpc/log_entry.cc:197-212 | a buffer has only one such longest run |
| `Batches.WireRoundTrip` | src/rpc/log_entry.cc:113-143 | strided serialization followed by deserialization gives back exactly the selected entries |
| `Batches.FileAppend` | src/cons_log/storage/shard_server.cc:501-509 | appending a message's body to a data file appends its entries to those the file holds |
| `Ring.FlagSetHolds` | src/rpc/log_entry.h:40-42 | setting the flag changes the stored entry's flag and nothing else |
| `Ring.OtherRecordsKept` | src/dur_log/dur_log_flat.cc:123-159 | writing one entry, its overflow and its copy leaves every other entry less than a lap away intact |
| `RingProofs.OthersFitTheSlack` | src/dur_log/dur_log_flat.cc:94-111 | the other admitted appenders fit the slack that the wait keeps free |
| `RingProofs.AdmitKeeps` | src/dur_log/dur_log_flat.cc:94-111 | an appender that passes the wait leaves room for all that were admitted with it |
| `RingProofs.AdmittedExactly` | src/dur_log/dur_log_flat.cc:94-111 | an appender is let through if and only if its entry, the unordered entries and the slack are less than the ring |
| `RingProofs.ReserveRecords` | src/dur_log/dur_log_flat.cc:123-148 | a reservation adds one record, with the client's id, sequence, size and payload, the next index and the replica's view |
| `RingProofs.ReserveKeeps` | src/dur_log/dur_log_flat.cc:123-143 | taking index and sequence together keeps the layout, the index map and every unordered entry |
| `RingProofs.WriteKeeps` | src/dur_log/dur_log_flat.cc:145-148 | writing the entry keeps the invariant of all entries |
| `RingProofs.PublishKeeps` | src/dur_log/dur_log_flat.cc:150-156 | setting the flag keeps the invariant of all entries |
| `RingProofs.FinishKeeps` | src/dur_log/dur_log_flat.cc:157-159 | copying the overflow back makes the entry readable at both ends and harms no other while its own is less than a lap old |
| `RingProofs.AdvanceKeeps` | src/dur_log/dur_log_flat_cli.cc:153-168 | moving both watermarks past entries whose flag is set keeps the layout, the space bound and the bytes |
| `RingProofs.RunKeeps` | src/dur_log/dur_log_flat.cc:94-170 | in every guarded run without a late copy, however the appenders interleave, memory holds every entry less than a lap old |
| `RingProofs.RunSound` | src/dur_log/dur_log_flat.cc:94-170 | every guarded run keeps layout, counters, watermarks, space bound and index map |
| `RingProofs.EntriesAreAppended` | src/dur_log/dur_log_flat.cc:113-170 | in every guarded run each record carries the id, sequence, size and payload of an entry that an appender brought |
| `RingProofs.CarefulIsTimely` | src/dur_log/dur_log_flat.cc:150-159 | if no watermark step passes an entry that is still to be copied back, no copy is late |
| `RingLimits.CarefulIsSafe` | src/dur_log/dur_log_flat.cc:94-170 | after such steps only, no finished unordered entry is destroyed |
| `RingLimits.CarelessIsUnsafe` | src/dur_log/dur_log_flat.cc:150-159 | after a watermark step that passes an uncopied entry, further steps destroy a finished unordered entry |
| `RingLimits.WatermarkSafeExactly` | src/dur_log/dur_log_flat.cc:150-159 | a watermark step is safe for all continuations if and only if it passes no entry whose overflow is still to be copied |
| `RingLimits.DestroyedRun` | src/dur_log/dur_log_flat.cc:150-159 | for every ring size, a run that destroys a finished unordered entry |
| `RingReads.TwoPiecesAt` | src/dur_log/dur_log_flat_cli.cc:88-115 | each byte of the fetched range comes from where its sequence lies in the ring, wrapped or not |
| `RingReads.DualView` | src/dur_log/dur_log_flat.cc:123-159 | in every guarded run without a late copy, a finished unordered entry decodes contiguously through the safe region and from the two-piece read |
| `RingReads.ReadPieces` | src/dur_log/dur_log_flat_cli.cc:93-117 | the one or two remote reads deliver exactly the bytes of the range |
| `RingReads.FetchIsLongestRun` | src/dur_log/dur_log_flat_cli.cc:88-119 | where the fetch stops, the buffer's longest published run is exactly the settled entries that end within the limit |
| `FetchExact.FetchExactly` | src/dur_log/dur_log_flat_cli.cc:88-119 | whatever earlier laps left in memory, the fetch returns exactly the settled entries if and only if the first entry past them is masked or its header is past the limit |
| `FetchExact.FlaggedIsRead` | src/dur_log/dur_log_flat.cc:150-159 | an entry that is flagged and not copied is read if its header is in the ring and it ends within the limit |
| `FetchExact.TornFetch` | src/dur_log/dur_log_flat.cc:150-159 | for every ring size, a run after which a fetch delivers an entry with another entry's payload |
| `FetchExact.LandsExactly` | src/dur_log/dur_log_flat_cli.cc:117-130 | whatever earlier laps left in memory, what is decoded ends at a boundary above shown entries and carries their indices if and only if the first entry past the settled ones is masked, or is flagged with its size in the ring, or has its header past the limit |
| `Fetching.TellPrimary` | src/dur_log/dur_log_flat_cli.cc:170-176 | the two words for the primary are where the decoded entries end and the last decoded index plus one |
| `Fetching.FetchWithinBound` | src/dur_log/dur_log_flat_cli.cc:80-90 | a fetch takes no more bytes than its bound, and nothing past the end of the range |
| `Fetching.SteadyFetchDecodes` | src/dur_log/dur_log_flat_cli.cc:75-130 | a fetch that meets that condition always decodes something whole |
| `Fetching.CollectIsAdvance` | src/dur_log/dur_log_flat_cli.cc:153-168 | writing the words of a batch fetched under that condition is the ring's guarded watermark step |
| `Fetching.SteadyIsGuarded` | src/cons_log/cons_log.cc:106-165 | a run of appenders, range reads, fetches and watermark writes whose fetches meet that condition and whose copies are not late is a guarded run of the ring |
| `Fetching.WatermarkPair` | src/dur_log/dur_log_flat_cli.cc:153-176 | in every such run, bytes lie below the primary's byte watermark if and only if the index is below its index watermark; both only grow and stay within what is appended |
| `Fetching.SpaceBound` | src/dur_log/dur_log_flat.cc:94-143 | in every such run, unordered and admitted bytes together are less than the ring, so no reservation reaches an unordered byte |
| `Fetching.MaskedIsSteady` | src/cons_log/cons_log.cc:106-165 | if every fetch meets the condition of `FetchExact.FetchExactly`, the run is such a run: no copy is late |
| `FetchLimits.MisreadRun` | src/dur_log/dur_log_flat_cli.cc:117-176 | for every ring size, a run in which a fetch decodes an entry that was never appended, and the watermarks are set off every boundary with a smaller index |
| `RingReads.ReadAndDecode` | src/dur_log/dur_log_flat_cli.cc:88-130 | the reads and the decoding return that run, its size and the sentinel; equal offsets mean an empty range |
| `RingReads.FetchUnorderedEntries` | src/dur_log/dur_log_flat_cli.cc:75-130 | the settled entries from the start on, then the sentinel with the end sequence; never more bytes than the bound, and the first entry left out is in flight, or ends past the range or past the bound |
| `RingReads.EmptyFetch` | src/dur_log/dur_log_flat_cli.cc:84-121 | nothing is fetched if and only if no entry is, in particular when the offsets are equal |
| `RingReads.SpecReadEntry` | src/dur_log/dur_log_flat.cc:196-210 | succeeds if and only if the stated window holds, and then returns the entry appended with that index |
| `RingReads.SpecReadInterleaved` | src/dur_log/dur_log_flat.cc:196-210 | with any appends between its four looks: exactly when there is a result and what it is; it is the entry with that index if what the map named is less than a lap old at the last look, as the byte margin ensures once the ring has wrapped |
| `RingReads.SpecReadsAgree` | src/dur_log/dur_log_flat.cc:196-210 | read in one step, an index is readable if and only if the four looks deliver something |
| `RingReads.SlotOwner` | src/dur_log/dur_log_flat.cc:138-139 | the index map always names where an entry starts, even for an index whose slot has been reused |
| `SpecLimits.EarlyReadBound` | src/dur_log/dur_log_flat.cc:197-206 | if a read is admitted before the ring has wrapped, all padded payloads together are at most 64 headers and a remainder |
| `SpecLimits.StaleSpecRead` | src/dur_log/dur_log_flat.cc:196-210 | for every ring size, a run in which the admitted read delivers another payload than the one appended, because reservations of the next lap clear bytes under an intact header |
| `RingReads.WrappingComparison` | src/dur_log/dur_log_flat.cc:197-200 | what the unsigned comparison excludes, wrapped or not |
| `DurLog.AppendKeeps` | src/dur_log/dur_log_flat.cc:113-170 | a whole append is five steps of the ring, so it keeps the ring's invariant |
| `DurLog.WriteShowCopy` | src/dur_log/dur_log_flat.cc:148-159 | write, publish and copy back in place give the specified memory |
| `DurLog.DurabilityLogFlat.constructor` | src/dur_log/dur_log_flat.cc:25-55 | a fresh replica is an empty, valid ring |
| `DurLog.DurabilityLogFlat.AppendEntry` | src/dur_log/dur_log_flat.cc:94-170 | admitted exactly if the entry, the unordered entries and the slack are less than the ring; then the ring is the old one and a finished record with the client's id, sequence, size and payload, the next index and the replica's view, and a backup knows its sequence |
| `DurLog.DurabilityLogFlat.ReserveInPlace` | src/dur_log/dur_log_flat.cc:123-143 | flag cleared, index mapped to sequence on the primary only, both counters moved together |
| `DurLog.CoveredExactly` | src/dur_log/dur_log_flat.cc:233-264 | the test for "ordered" agrees with the message except for client sequence 0 of an absent client |
| `DurLog.SurvivorsAreExactlyUncovered` | src/dur_log/dur_log_flat.cc:233-266 | what collection keeps is exactly the entries not covered, none invented |
| `DurLog.SurvivorPlace` | src/dur_log/dur_log_flat.cc:233-266 | what collection keeps stays in order, each entry once |
| `DurLog.MaxOfIsLast` | src/dur_log/dur_log_flat.cc:225-231 | exactly the clients named have a maximum, and of several ids of a client the last counts |
| `DurLog.LookedUpExactly` | src/dur_log/dur_log_flat.cc:225-231 | looking ids up adds exactly the unknown ones, with sequence 0 |
| `DurLog.WalkEnd` | src/dur_log/dur_log_flat.cc:246-274 | the walk stops at the first boundary past the maximum |
| `DurLog.MaxSeqIsLargest` | src/dur_log/dur_log_flat.cc:225-231 | the largest sequence is that of one of the ids, or 0, and none is larger |
| `Collect.StretchIsPeriod` | src/dur_log/dur_log_flat.cc:221-280 | the states of the ring during a collection are a stretch of a guarded run without a late copy |
| `Collect.FlagMeansShown` | src/dur_log/dur_log_flat.cc:249-258 | the wait for the flag ends exactly when the entry is shown |
| `Collect.WaitForFlag` | src/dur_log/dur_log_flat.cc:249-258 | time passes until the flag is set, and then the entry is shown |
| `Collect.Collector.CollectMax` | src/dur_log/dur_log_flat.cc:222-231 | per-client maxima and the largest known sequence, with unknown ids inserted as 0 |
| `Collect.Collector.PrunePending` | src/dur_log/dur_log_flat.cc:233-242 | the pending list keeps exactly its survivors, and the count is what left it |
| `Collect.Collector.VisitEntry` | src/dur_log/dur_log_flat.cc:259-273 | an entry read from the ring is dropped or kept for later, and its request id forgotten |
| `Collect.Collector.Walk` | src/dur_log/dur_log_flat.cc:244-277 | beside the appenders it visits whole entries, each once it is shown, up to a boundary; setting both watermarks there is a step of the ring |
| `Collect.Collector.DelEntriesBackup` | src/dur_log/dur_log_flat.cc:221-280 | beside the appenders: survivors of both places are pending, the result counts exactly what left the two, the watermarks are the first boundary past the maximum, and the collector again fits the ring |
| `Gc.MaxPerClient` | src/dur_log/dur_log_flat_cli.cc:177-184 | for each client of the batch and no other, its largest client sequence |
| `Gc.ListAscending` | src/dur_log/dur_log_flat_cli.cc:186-188 | the map is listed with ascending keys, each once |
| `Gc.ListingRebuilds` | src/dur_log/dur_log_flat.cc:225-231 | the map a backup rebuilds from the list is the one it was made from |
| `Gc.ProcessFetchedEntries` | src/dur_log/dur_log_flat_cli.cc:170-191 | the primary gets the end in bytes and entries, a backup the maxima without client 0; the last index is returned |
| `Gc.CoveredByBatch` | src/dur_log/dur_log_flat_cli.cc:177-188 | an entry counts as ordered exactly if the batch has its client with an equal or later sequence, or it is sequence 0 of an absent client |
| `Gc.PrimaryGcIsAdvance` | src/dur_log/dur_log_flat_cli.cc:153-176 | the two words written for entries that were shown when fetched are one boundary of the ring at any later time |
| `Striping.StridePicks` | src/cons_log/storage/naive_backend.cc:51-62 | stepping by the number of shards finds exactly one shard's entries |
| `Striping.RoundSends` | src/cons_log/storage/naive_backend.cc:51-62 | one round sends every shard exactly its entries of the big stripe |
| `Striping.RoundWellPlaced` | src/cons_log/storage/naive_backend.cc:45-62 | each request stays in one big stripe and carries one shard's entries |
| `Striping.SendStripes` | src/cons_log/storage/naive_backend.cc:45-65 | the rounds partition the batch |
| `Striping.AppendBatch` | src/cons_log/storage/naive_backend.cc:26-68 | each index goes once, in order, to the shard of its remainder; one request per shard and round; the sentinel is never sent |
| `Shards.Placement` | src/cons_log/storage/shard_server.cc:307-310 | position k of a shard lies in stripe k / unit at place k % unit under that stripe's base index |
| `Shards.SameStripeFits` | src/cons_log/storage/shard_server.cc:480-481 | a request inside one big stripe never overfills the stripe it goes to |
| `Shards.StripesKept` | src/cons_log/storage/shard_server.cc:480-510 | a request for the next entries changes the stripe they belong to and no other |
| `Shards.ShardServer.constructor` | src/cons_log/storage/shard_server.cc:8-20 | a fresh server is empty with both watermarks 0 |
| `Shards.ShardServer.AddToEntryCache` | src/cons_log/storage/shard_server.cc:480-510 | cache, size and file of one stripe grow by the message; the file written to is open |
| `Shards.ShardServer.StoreBatch` | src/cons_log/storage/shard_server.cc:227-246 | every stripe holds its part of the history, cache and file alike, with the file open exactly until it is full |
| `Shards.ShardServer.AppendBatchHandler` | src/cons_log/storage/shard_server.cc:168-206 | primary and backups all hold the longer history when the replication watermark becomes its last index |
| `Shards.ShardServer.ReadEntryHandler` | src/cons_log/storage/shard_server.cc:303-357 | returns exactly if the entry is present, replicated and stable, and then the entry with that index |
| `OffsetShards.ProcessAndBuildMap` | src/rpc/log_entry.cc:145-161 | records the file offset of every published entry of the message |
| `OffsetShards.OffsetAt` | src/rpc/log_entry.cc:145-161 | the offset map knows exactly the indices of its file's entries, each with its entry's start |
| `OffsetShards.ImageInFile` | src/cons_log/storage/shard_server_wo_opt.cc:308-317 | the bytes between two offsets are one entry |
| `OffsetShards.LastIndex` | src/cons_log/storage/shard_server_wo_opt.cc:156-159 | the largest key of the map is the index of the last entry |
| `OffsetShards.ShardServerUnoptimized.constructor` | src/cons_log/storage/shard_server_wo_opt.cc:11-27 | a fresh server is empty |
| `OffsetShards.ShardServerUnoptimized.ProcessEntriesAndBuildMap` | src/cons_log/storage/shard_server_wo_opt.cc:260-292 | offsets, counts and file of one stripe grow by the message |
| `OffsetShards.ShardServerUnoptimized.AppendBatchHandler` | src/cons_log/storage/shard_server_wo_opt.cc:129-165 | the history grows by the request and the watermark is its last index |
| `OffsetShards.ShardServerUnoptimized.ReadEntryHandler` | src/cons_log/storage/shard_server_wo_opt.cc:188-258 | returns exactly if the entry is present and replicated, and then its bytes, with the length from the next offset or the file's end |
| `OffsetShards.ServersAgree` | src/cons_log/storage/shard_server_wo_opt.cc:237-241 | after the same batches both servers answer with the same entry, but for the stable-index gate that only one has |
| `Backend.PickContinues` | src/cons_log/storage/naive_backend.cc:26-68 | a batch's entries for a shard continue its history without gap or repetition |
| `Backend.RequestIsNext` | src/cons_log/storage/shard_server.cc:480-481 | every request the backend sends is one that the server's stripe expects next |
| `Backend.Deliver` | src/cons_log/storage/naive_backend.cc:45-65 | after all rounds every server holds what it held plus exactly what was sent to it |
| `Backend.AppendToShards` | src/cons_log/storage/naive_backend.cc:26-68 | if the servers held exactly the indices before a batch, they hold exactly those to its end, each shard its own |
| `Backend.UpdateGlobalIdx` | src/cons_log/storage/naive_backend.cc:77-85 | every server learns the stable index; histories stay |
| `Backend.ReadBack` | src/cons_log/storage/naive_backend.cc:70-75 | a routed read returns exactly for held and stable indices, and gives the entry that its shard's history has there |
| `ConsLog.BatchIsStorable` | src/cons_log/storage/naive_backend.cc:26-31 | a fetched batch is consecutive and published, and its sentinel is told apart |
| `ConsLog.StoreOnShards` | src/cons_log/cons_log.cc:141-143 | storing a fetched batch makes every shard hold its share of the longer prefix of the primary's order |
| `ConsLog.WriteWatermarks` | src/dur_log/dur_log_flat_cli.cc:153-176 | the remote write is the ring's watermark step to the end of the batch |
| `ConsLog.SlotFree` | src/cons_log/cons_log.cc:111-113 | the next fetch finds its buffer free if and only if fewer than two batches wait |
| `ConsLog.ConsensusLog.constructor` | src/cons_log/cons_log.cc:106-108 | nothing fetched or stored yet |
| `ConsLog.ConsensusLog.Fetch` | src/cons_log/cons_log.cc:106-128 | fills a buffer with what follows the last batch, or changes nothing; says exactly when |
| `ConsLog.ConsensusLog.FetchNext` | src/cons_log/cons_log.cc:116-123 | the fetch continues at the last batch's end, an entry boundary at or above the watermark |
| `ConsLog.ConsensusLog.Store` | src/cons_log/cons_log.cc:130-165 | stores the oldest batch that waits, if any; then shards, watermarks, stable index and free buffer all say so |
| `ConsLog.ConsensusLog.ReadEntry` | src/cons_log/storage/naive_backend.cc:70-75 | a read through the shards returns exactly the stored and stable indices, and the very entry that the primary has there, payload included |
| `ConsLog.AppendedIsLogged` | src/dur_log/dur_log_flat.cc:123-148 | what an appender brought is in the primary's order under the index it took, ever after |
| `ConsLog.ConsensusLog.ReadAppended` | src/cons_log/storage/naive_backend.cc:70-75 | end to end: a read of the index that an append got returns the id, sequence, size and payload that the client passed to it |
| `ConsLog.OldestTakes` | src/dur_log/dur_log_flat_cli.cc:71-90 | the sequential fetch takes the settled entries from the watermark on, as far as there are any and the bound allows |
| `ConsLog.ConsensusLog.FetchAndStore` | src/cons_log/cons_log.cc:68-104 | what lies below the primary's watermark is on the shards before and after, and the watermark moves to the end of what was fetched |
| `ConsLog.ConsensusLog.Elapse` | src/dur_log/dur_log_flat.cc:113-170 | appends that go on meanwhile disturb none of this |
| `ProtocolProofs.InitKeeps` | src/cons_log/storage/shard_server.cc:17-18 | the initial state satisfies the protocol's invariant |
| `ProtocolProofs.ReservePrimaryKeeps` | src/dur_log/dur_log_flat.cc:123-143 | an append taken by the primary keeps its log free of repetition, with each client's appends in order without a gap |
| `ProtocolProofs.FetchRoom` | src/cons_log/cons_log.cc:111-113 | a third batch finds its buffer full or its lock held |
| `ProtocolProofs.FetchKeeps` | src/cons_log/cons_log.cc:106-128 | a fetch extends the fetched prefix where it ended |
| `ProtocolProofs.SendChunkKeeps` | src/cons_log/storage/naive_backend.cc:45-65 | the requests of a round take every shard from its share of one prefix to its share of the longer one |
| `ProtocolProofs.ChunkInOneStripe` | src/cons_log/storage/naive_backend.cc:45-49 | a round stays in one big stripe and stops only at its end or the batch's |
| `ProtocolProofs.RoundInOneStripe` | src/cons_log/storage/naive_backend.cc:45-65 | a round sends each shard exactly its indices of one stretch of one big stripe, with the largest as its last, and nothing to a shard that has none |
| `ProtocolProofs.ShardStepKeeps` | src/cons_log/storage/shard_server.cc:168-206 | storing on a shard's primary and backups in any order, and acknowledging last, keeps every copy a share of a prefix |
| `ProtocolProofs.DropIsSafe` | src/dur_log/dur_log_flat.cc:233-264 | what a backup's test drops is stored, unless it is client sequence 0 |
| `ProtocolProofs.PruneKeeps` | src/dur_log/dur_log_flat.cc:233-242 | going through the pending list loses nothing that is not stored |
| `ProtocolProofs.WalkKeeps` | src/dur_log/dur_log_flat.cc:244-277 | walking past an entry loses nothing that is not stored |
| `ProtocolProofs.GcPrimaryKeeps` | src/dur_log/dur_log_flat_cli.cc:153-168 | the primary's watermark moves only over entries whose shard appends are complete |
| `ProtocolProofs.StoreEndKeeps` | src/cons_log/cons_log.cc:155-164 | ending a round hands the other buffer to the store thread |
| `ProtocolProofs.StepKeeps` | src/cons_log/cons_log.cc:106-165 | every step of every party keeps the invariant |
| `ProtocolProofs.RunKeeps` | src/cons_log/cons_log.cc:106-165 | the invariant holds in every state of every run |
| `Guarantees.PartAt` | src/cons_log/storage/shard_server.cc:307-310 | index x of the order is at place x / n of shard x % n |
| `Guarantees.ReadsAreStable` | src/cons_log/storage/shard_server.cc:304-357 | in every run a read that returns gives the idx-th entry of the primary's order, and for idx > 0 everything up to it is on all copies of its shards |
| `Guarantees.ReplicatedIsCopied` | src/cons_log/storage/shard_server.cc:196-199 | what lies at or below a shard's replication watermark, index 0 aside, is on its primary and all backups |
| `Guarantees.ReadableExactly` | src/cons_log/storage/shard_server.cc:345-351 | in every state of every run, an index above 0 can be read if and only if it has been published to its shard, and index 0 if and only if its shard's primary has it |
| `Guarantees.OrderedIsReadable` | src/cons_log/storage/shard_server.cc:345-357 | whenever the store thread rests, every index below the ordered watermark can be read and gives the entry with that index |
| `Guarantees.OrderedIsOnShard` | src/cons_log/cons_log.cc:141-162 | no loss on the primary: below the ordered watermark everything is on its shard's primary and backups |
| `Guarantees.BackupLosesNothing` | src/dur_log/dur_log_flat.cc:221-280 | in every run what has left a backup's ring and pending list is stored, client sequence 0 aside |
| `Guarantees.ReturnedIsDurable` | src/client/lazylog_cli.cc:141-157 | an append that has returned is on the primary or stored, and on every backup, pending there, or stored, client sequence 0 aside |
| `Guarantees.RealTimeOrder` | src/client/lazylog_cli.cc:102-157 | an append that returned before another was invoked has the smaller index ever after, and no append has two |
| `Guarantees.StepOnward` | src/client/lazylog_cli.h:47-53 | the log, the ordered tail and the rounds never go back |
| `Guarantees.PipelineInOrder` | src/cons_log/cons_log.cc:106-165 | fetching is zero to two batches ahead; stored batches are the fetched ones in order and a gap-free prefix of the order |
| `Guarantees.PipelineRefinesLoop` | src/cons_log/cons_log.cc:68-165 | every step of the double-buffered pipeline is a step of the sequential loop or invisible to it |
| `Guarantees.PipelineRefinesSystem` | src/cons_log/cons_log.cc:68-165 | the same with the shards' contents and the stable index each knows: shards only get more of their share, and the loop rests only when all know the batch's last index |
| `Guarantees.RunRefinesSystem` | src/cons_log/cons_log.cc:68-165 | so every run of the pipeline is a run of the sequential loop with its shards |
| `Collections.RunPlaces` | src/dur_log/dur_log_flat.cc:123-165 | in every run, what a replica reserved for a client, and what a backup registered, is an entry that holds that append |
| `Collections.RunFiles` | src/dur_log/dur_log_flat.cc:161-165 | in every run, what a backup has registered is in its map until a walk has passed it |
| `Collections.CollectionGetsThere` | src/dur_log/dur_log_flat.cc:221-280 | a collection ends past every maximum of the batch registered when it began, and no further than past the last of them, unless it was further already |
| `Collections.CollectionPassesMaxima` | src/dur_log/dur_log_flat.cc:221-280 | so every maximum whose append the backup had answered when the collection began is behind its watermark when it ends |
| `Progress.RunWays` | src/dur_log/dur_log_flat.cc:244-277 | in every run an entry is shown or a client waits for that, a backup walks exactly while it is asked and not done, within its log, and passes only shown entries |
| `Progress.CanAlwaysFinish` | src/cons_log/cons_log.cc:106-165 | from every state of every run the parties can go on until every append has returned, everything is ordered and every index can be read |
| `Limits.IndexZeroReadEarly` | src/cons_log/storage/shard_server.cc:17-18 | a run in which index 0 is read while the shard's backup lacks it |
| `Limits.ReadIsBackedExactly` | src/cons_log/storage/shard_server.cc:345-351 | reads of an index are always backed by complete copies if and only if it is not 0 |
| `Limits.FirstAppendDropped` | src/dur_log/dur_log_flat.cc:233-264 | a run in which a backup drops an append that is stored nowhere, and the append returns |
| `Limits.NeverLostExactly` | src/dur_log/dur_log_flat.cc:233-264 | backups never lose unstored appends of a client sequence if and only if it is not 0 |
| `Refinement.RingRefinesReplica` | src/dur_log/dur_log_flat.cc:113-170 | every step of a replica's byte ring is the protocol's own `Reserve`, `Publish` or end of a collection there, or invisible to it, and the two go on agreeing on the log, the flags, the watermark and the stage of every append |
| `Refinement.PruneMatches` | src/dur_log/dur_log_flat.cc:233-242 | the protocol keeps of a pending list what the replica keeps |
| `Refinement.WalkMatches` | src/dur_log/dur_log_flat.cc:244-277 | the protocol's walk, step by step, keeps what the replica's walk keeps |
| `Refinement.WalksStopAlike` | src/dur_log/dur_log_flat.cc:246-274 | stopping at the first boundary past a byte sequence is stopping after the entry that starts there |
| `Refinement.TopsAgree` | src/dur_log/dur_log_flat.cc:225-231 | the largest byte sequence named is where the entry with the protocol's largest known index starts, for maps that agree as `BackupRefinement.BackupRefinesProtocol` keeps them |
| `Refinement.MaximaMatch` | src/dur_log/dur_log_flat_cli.cc:177-184 | the maxima of a batch are the protocol's |
| `Refinement.SentinelDropsOut` | src/dur_log/dur_log_flat_cli.cc:185 | leaving out client 0 removes exactly the sentinel |
| `Refinement.BatchTells` | src/dur_log/dur_log_flat_cli.cc:177-188 | what a backup is told about a fetched batch are the protocol's maxima of its entries |
| `Refinement.CollectionMatches` | src/dur_log/dur_log_flat.cc:221-280 | a whole collection is the protocol's beginning, its walk steps up to the top, and its end |
| `BackupRefinement.BackupRefinesProtocol` | src/dur_log/dur_log_flat.cc:113-280 | every step of a byte-level backup, appends, registrations and collections, is the protocol's step of that backup or invisible to it, and the two go on agreeing on log, flags, watermarks, pending list, request-id map and where a walk stops |
| `BackupRefinement.StartsMatch` | src/dur_log/dur_log_flat.cc:25-55 | they agree at the start |
| `BackupRefinement.ElsewhereMatches` | src/dur_log/dur_log_flat.cc:113-280 | no step of another party disturbs the agreement |
| `Refinement.SharesMatch` | src/cons_log/storage/shard_server.cc:480-510 | what the servers hold is the protocol's share of the same prefix of the same order |
| `Client.AllCompleted` | src/client/lazylog_cli.cc:215-220 | true exactly if every request is complete |
| `Client.QuorumCompleted` | src/client/lazylog_cli.cc:204-213 | with the threshold the source sets, true exactly if the primary and every backup are complete |

## Left out

- Connections, message buffers, tokens and event loops: messages are steps.
- Everything under `CORFU`: a different protocol.
- Restart of a shard and loading a data file: the load path leaves its file descriptor unset; a fresh start is assumed.
- Crash, view change and leader election: the repository does not implement them.
- Fairness: that the parties can always go on is `Progress.CanAlwaysFinish`, that they do is not modelled; nor are hardware memory order, fsync and failed writes.
- The request-id codec, the ranged serializer and the size form of the offset builder: they would only add easy members.
- Kafka backend, benchmarks, metrics, rate limiter, property parsing and the key-value demo.
- The tail query and the entry counters are plain reads of the fields whose relation is proved.
- RingReads.FetchUnorderedEntries: asks for the exact condition of `FetchExact.FetchExactly`, outside which the code misreads; so do RingReads.FetchIsLongestRun and the consensus process built on it.
- RingReads.SpecReadEntry: reads the ring in one step; `RingReads.SpecReadInterleaved` has the steps apart.
- RingReads.SpecReadInterleaved: asks that bytes which have been reserved over do not read as an entry longer than memory, because the source would read past its memory then.
- Batches.MultiDeserializerMaxSize: a published header whose size sum wraps is excluded, because the source would read past the buffer.
- DurLog.DurabilityLogFlat.AppendEntry: one append at a time; interleaved appends are the ring's transitions.
- RingProofs.RunKeeps: asks for a guarded run without a late copy, and so do RingProofs.FinishKeeps, RingReads.DualView and Collect.Collector.Walk; outside, `RingLimits.DestroyedRun` and `FetchLimits.MisreadRun` are what happens.
- Fetching.SteadyIsGuarded: a run is followed up to the first fetch whose bytes do not decode within the buffer; what the source does after that has no defined meaning.
- Collect.Collector.DelEntriesBackup: asks that every wait ends, that no copy is late, and that a ring without entries does not read as if it had one; the source allocates its memory uncleared.
- Shards.ShardServer.AppendBatchHandler: the request reaches primary and backups in one call; their interleavings are steps of `Protocol`.
- Backend.AppendToShards: uses shard groups without backups; replication is in the shard server's own handler and in `Protocol`.
- ConsLog.ConsensusLog.Store: one call is atomic and publishes the stable index before it frees the buffer; `Protocol` has the source's order and all interleavings.
- OffsetShards.ShardServerUnoptimized.AppendBatchHandler: without its backups, which do the same as in the other server.
