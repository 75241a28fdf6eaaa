# BBDB in Dafny

BBDB is an append-only event store. Clients push events to per-shard writers; a writer logs them in a
write-ahead log (WAL), collects them in a columnar memtable, and seals the memtable into one immutable block
file per (shard, UTC hour). A sparse index, one bloom filter per block and block metadata live beside the
files; a reaper and a janitor remove blocks whose retention is over; a query engine filters, reads and merges
blocks. This project models that engine and proves what it keeps: over every input, every interleaving and
every point at which power can be lost.

`dafny verify dfyconfig.toml` verifies all of it. Nothing here executes BBDB.

## How the model is built

- **Integers.** `uint16`, `uint64`, `int64` and so on are ranges of `int`; every wrap-around of the source is
  written out as `% TWO64` or `ToInt64`.
- **Storage.** pebble is a log of versions of a byte-keyed map plus the index up to which it is synced; a crash
  keeps some version at or after that index. A file has contents and a flag that says whether they survive a
  crash. `Storage.Disk` offers the file and commit operations the engine uses; each may fail, a failed commit
  may or may not have entered the log, a ghost counter counts the failures, and a ghost history lists every state
  in which power could be lost.
- **Libraries.** zstd and CRC-32 (`Format.Codec`), the bloom filter library (`BloomCaches.BloomLib`), xxHash64
  and JSON encoding are function parameters. The only laws assumed, and only where a lemma names them, are that
  decompression inverts compression (`Codec.Inverts`) and that a bloom filter has no false negatives
  (`BloomLib.Sound`). UUIDs and clock readings are parameters.
- **Code and machines.** Code that updates state is a method or a class with loops, proved against functions
  and predicates. Behaviour over time is a state machine: the WAL over commits that enter, sync, fail and are cut
  off by crashes (`WalRuns`), the ring buffer's atomic steps (`RingBufs`), parallel block reads (`ParallelReads`),
  the writer (`WriterRuns`, refined by the class in `Ingestion`), the whole store (`Lifecycle`), the store with
  its writers' appends and memtables (`RowRuns`) and the store with a query engine beside it (`CacheRuns`).

## Main results

A block is called sealed once when only one seal of its (shard, hour) was ever begun; a second attempt counts even
if it failed, and `Reseals` shows that it has to.

1. **Queries are a filter.** `QueryTheorems.QueryRefinesFilter` and `ServedQueryIsExact`: as long as each
   (shard, hour) is sealed once, a successful query over any state the store can reach returns in timestamp order
   nothing but matching rows of live blocks, each at most as often as sealed. With the live blocks' bloom files
   in place it returns all of them exactly when no matching row lies outside its block's hour; `QueryGaps` gives
   the runs that miss such rows. `QuerySpans.SpanBounds` is the same for a query during which the store changes
   between any two of its reads: at least the rows of blocks present throughout, at most those of blocks present
   at some time. `RowsReturned` says it row by row, and `QueryFailures.FailsIffOrphaned` when a query fails although
   none of its operations does.
2. **Seals are atomic.** `SealCrash.SealCrashAtomic` and `SealDurable`, on top of `Sealer.Seal`; with all other
   actors committing in between, `LifecycleTheorems.SurvivingBlockIsWhole`, and `RowRuns.RowInLogOrCut`: in every
   version a crash can bring back, an acknowledged row is in the WAL with its value, or a deciding batch of its
   shard deleted it, never both. The deleted rows are rows of the seals that deleted them exactly when no committed
   seal of the shard carried fewer logged rows than its log had (`DroppedRowsCarriedIff`); then a deleted row is in
   the block until that expires or its hour is sealed again (`RowInLogOrBlock`).
3. **The store stays consistent.** `LifecycleTheorems.ExpiryKeysMatchBlocks`, `SurvivingBlockIsWhole`,
   `ReaperConverges`, `JanitorConverges`: all interleavings of seals, sweeps, WAL writes, flushes and crashes, and
   what completed cycles leave of every state these reach.
4. **Where every event goes, and exactly when one is lost.** `RingBufs.LosslessIffSingleProducer`,
   `WalRuns.WALRefinesLogs` and `AcknowledgedStays`, `WriterRuns.EveryRowAccounted`, `DurableIffCommitsExact` and
   `ConservedIffSealsFresh`, `Ingestion.ShardWriter.FlushAndMaybeSeal`, `Routing.GroupsPartition`.
5. **Formats are exact.** `BlockFile.BlockFileRoundTrip`, `Format.FramingBijection`, `Keys.EncodeInjective`, the
   range lemmas of `Keys`, `BlockIds.BlockIdentity`.

## Where a promise holds only sometimes

Each of these is proved as an exact condition, or with runs for every input outside the condition that show it is
needed.

- The WAL key range of shard 0xFFFF is empty because its upper bound wraps: truncation and scanning do nothing
  for that shard (`Keys.WALRangeExact`, `WalRuns.WALRefinesLogs`).
- The expiry scan at hour 2^64 - 1 is empty (`Keys.ExpiryRangeExact`).
- A ring buffer of any given capacity keeps every event exactly when at most one goroutine pushes
  (`RingBufs.LosslessIffSingleProducer`). Several gRPC streams may write to one shard's ring.
- `nextPow2` ends exactly for sizes up to 2^62 (`RingBufs.NextPow2Terminates`).
- Pushed events stay in ring, memtable or blocks exactly while every seal commits and goes into an hour without
  a block. A size-triggered second seal of an hour, the first seal after a restart within the hour of a block, and
  every failed seal lose rows (`WriterRuns.ConservedIffSealsFresh`, `TwoSealsInOneHourLose`, `RestartInHourLoses`).
- A committed seal empties the shard's WAL, and no code replays it. With every append in the WAL and every seal into
  an hour without a block, ring, WAL and blocks hold every row exactly while each committed seal finds the WAL equal
  to its memtable (`WriterRuns.DurableIffCommitsExact`). Rows a failed seal left in the WAL, and rows from before a
  restart, are dropped by the next committed seal (`FailedSealLosesRows`, `RestartLosesWal`); an acknowledged row is
  lost this way in a run of the whole store (`RowLoss.RestartLosesAckedRow`).
- A live block keeps its bloom file until it expires, and the cache its filter, if it was sealed once
  (`LifecycleTheorems.SurvivingBlockIsWhole`, `CacheRuns.CacheStaysRight`). For every hour sealed twice there are runs
  in which the second seal fails and takes the live block's bloom file with it, so that queries skip the block
  (`Reseals.FailedResealHidesBlock`), and in which it commits and the cache goes on with the old filter
  (`ResealLeavesOldFilter`).
- With bloom files in place and each (shard, hour) sealed once, a query misses matching rows exactly when some
  lie outside their block's hour (`QueryTheorems.QueryRefinesFilter`, `QueryGaps.StrayMissed`, `LateRowMissed`):
  blocks are named after the time they were opened, not after their rows.
- A query of which no operation fails fails exactly when a block it reads has lost its file but not yet its keys,
  as happens while the reaper works (`QueryFailures.FailsIffOrphaned`, `ReapingFailsQueries`).
- Reaper and janitor take any error of a metadata read for "already gone". Failed reads leave the outcome of a
  cycle, store and files, as it should be exactly when each hits an entry whose keys go anyway and, for the reaper,
  finds no file to unlink unless an earlier entry of the block was read (`Ttl.MisreadsHarmless`). Otherwise one read
  deletes the keys of a live block (`MisreadDropsLiveBlock`) or strands files (`MisreadKeepsFiles`).
- Payloads of 2^32 bytes or more do not survive framing (`Format.FramingBijection`).
- The expiry hour is the block's hour plus the retention exactly for open times from the epoch on or in the first
  second of an hour, and sums not before the epoch (`Sealer.ExpiryExact`). At the hour boundaries a writer passes,
  only the wrap of a negative sum remains (`BoundaryExpiry`, `ExpiryWrapsBeforeEpoch`).

The code is followed where its documentation differs: the footer has 56 bytes, not 48
(internal/block/format.go:17), timestamps are not delta encoded (internal/block/format.go:163-169), and reading
checks neither the body checksum nor the version.

## Model

| member | source | states |
|---|---|---|
| `Keys.EncodeInjective` | internal/meta/keys.go:21-140 | no two keys, of one kind or of different kinds, share their bytes |
| `Keys.ParseWALKeyExact` | internal/meta/keys.go:40-47 | the WAL key parser accepts exactly the built keys and returns their fields |
| `Keys.ParseIdxKeyExact` | internal/meta/keys.go:84-95 | the same for index keys |
| `Keys.ParseExpiryKeyExact` | internal/meta/keys.go:117-127 | the same for expiry keys |
| `Keys.WALKeyOrder` | internal/meta/keys.go:21-27 | byte order of WAL keys is the numeric order of (shard, sequence) |
| `Keys.ExpiryKeyOrder` | internal/meta/keys.go:99-106 | byte order of expiry keys is the order of (hour, block ID) |
| `Keys.IdxKeyOrder` | internal/meta/keys.go:63-71 | index keys of one pair are ordered by block ID |
| `Keys.WALRangeExact` | internal/meta/keys.go:30-37 | a shard's range holds exactly its own WAL entries, except that shard 0xFFFF's range is empty |
| `Keys.WALAllRangeExact` | internal/meta/recovery.go:12-18 | the recovery range holds exactly the WAL entries of all shards |
| `Keys.IdxRangeExact` | internal/meta/keys.go:156-180 | the index range holds exactly the byte strings that extend the scan prefix, whoever wrote them |
| `Keys.ExpiryRangeExact` | internal/meta/keys.go:99-114 | the expiry range holds exactly the entries with hour at most now, unless now is the last hour |
| `Keys.ExpiryRangeForeign` | internal/meta/expiry.go:18-40 | no key of another kind is in the expiry range |
| `Meta.BlockMetaRoundTrip` | internal/meta/block.go:40-63 | metadata decoding inverts encoding, also with trailing bytes, and a decoded record re-encodes to what was read |
| `Meta.IdxLookupBlocks` | internal/meta/keys.go:156-180 | the scan loop returns exactly the block IDs stored for the pair, each once, ascending |
| `Meta.IdxBatchEffect` | internal/meta/keys.go:183-192 | an index batch adds exactly the keys of its hashes |
| `Meta.ExpiredExact` | internal/meta/expiry.go:18-40 | the expired list holds exactly the due entries in ascending (hour, ID) order, for every store |
| `Meta.ScanExpiredEntries` | internal/meta/expiry.go:18-40 | the iterator loop computes that list |
| `Meta.SealBatchEffect` | internal/meta/seal.go:7-24 | the deciding batch drops the shard's WAL range and sets metadata and expiry key, nothing else |
| `Meta.DeleteBatchEffect` | internal/meta/ttl_batch.go:7-18 | the delete batch removes exactly the metadata and expiry key |
| `Wal.WALNextSeq` | internal/meta/wal.go:11-30 | hands out the successor of the stored counter and stores it, synced; on failure the store is as before or has the new counter; all other keys are kept |
| `Wal.WALAppend` | internal/meta/wal.go:33-39 | success adds exactly one entry under a new number, synced; failure leaves the store as it was, with the number taken, or with the entry; no key outside this shard's WAL changes |
| `Wal.WALScan` | internal/meta/wal.go:42-59 | the loop returns the values of the shard's range in key order |
| `Wal.WALTruncate` | internal/meta/wal.go:63-70 | the store loses exactly the shard's range, or on failure possibly nothing |
| `Wal.FindOrphanedWALShards` | internal/meta/recovery.go:11-51 | exactly the shards with entries, each once, except shard 0xFFFF and shards whose own scan failed; one shard is skipped per failed operation, so none if nothing failed |
| `WalRuns.ReplayIs` | internal/meta/wal.go:11-70 | every history of commits with fresh numbers leaves each shard's log and counter, and no other WAL entry, in the store |
| `WalRuns.LogExact` | internal/meta/wal.go:33-70 | a shard's log after a history is exactly its appends not followed by a truncation of the shard, in commit order |
| `WalRuns.WALRefinesLogs` | internal/meta/wal.go:11-70 | over every run of appends, truncations, seals and other writes that enter, sync, fail with or without entering, and crash: every version a crash can bring back holds a prefix of the entered commits with every acknowledged one, and a scan returns that prefix's log if and only if the shard is not 0xFFFF or the log is empty |
| `WalRuns.AcknowledgedStays` | internal/meta/wal.go:33-39 | an acknowledged commit keeps its place in the history through every later step and crash |
| `WalRuns.AcknowledgedAppendSurvives` | internal/meta/wal.go:33-59 | an acknowledged append that no commit truncated is in the log of every recoverable version |
| `WalRuns.NumbersNotReused` | internal/meta/wal.go:11-30 | no acknowledged number is handed out again, whatever failed or crashed in between |
| `WalRuns.EntryNumbersGrow` | internal/meta/wal.go:33-39 | the numbers of a shard's entries grow strictly with the history, crashes included |
| `WalRuns.FailedAppendGoesEitherWay` | internal/ingestion/writer.go:117-119 | after a failed append whose entry entered the log, one crash keeps the entry and another loses it |
| `BlockIds.DateRoundTrip` | internal/block/event.go:34-38 | the Gregorian date of a day number converts back to it, for every day from year 1 |
| `BlockIds.DatesFollow` | internal/block/event.go:34-38 | successive days have successive Gregorian dates, and the epoch day is 1970-01-01 |
| `BlockIds.EpochBlockID` | internal/block/event.go:34-38 | the ID of a shard's first hour, byte by byte |
| `BlockIds.ParseBuiltID` | internal/index/index.go:57-76 | parsing the hour out of a built ID returns the hour it was built from, for every shard and int64 instant |
| `BlockIds.BlockIdentity` | internal/block/event.go:34-38 | two block IDs are equal exactly when shard and UTC hour are |
| `BlockIds.HourBoundaryExact` | internal/block/event.go:41-45 | the boundary is the start of the instant's hour exactly when that start is an int64 instant |
| `BlockIds.ShardFor` | internal/block/event.go:22-25 | the upper byte of a shard is the event type, the lower the hash modulo 256 |
| `BlockIds.PathIdentity` | internal/tier/local.go:30-39 | file paths are equal exactly when block IDs are, and no block file shares a path with a bloom file |
| `Format.HeaderRoundTrip` | internal/block/format.go:43-78 | header decoding inverts encoding |
| `Format.EncodeFooter` | internal/block/format.go:81-96 | the moving-offset loops fill exactly the footer layout |
| `Format.FooterRoundTrip` | internal/block/format.go:81-118 | footer decoding inverts encoding |
| `Format.CompressUint64Column` | internal/block/format.go:138-144 | the loop compresses the concatenated big-endian values |
| `Format.DecompressUint64Column` | internal/block/format.go:147-160 | the loop parses them, with the length error |
| `Format.Uint64ColumnRoundTrip` | internal/block/format.go:138-160 | a uint64 column parses back to itself |
| `Format.CompressBytesColumn` | internal/block/format.go:188-197 | the loop compresses the framed payloads |
| `Format.DecompressBytesColumn` | internal/block/format.go:200-221 | the parsing loop computes the frame parse, with its truncation errors, and ends |
| `Format.FramingBijection` | internal/block/format.go:188-221 | decoding inverts encoding exactly for payloads shorter than 2^32, and bytes are accepted exactly when they are a concatenation of complete frames |
| `Format.FrameInvertsParse` | internal/block/format.go:200-221 | re-encoding an accepted parse returns the same bytes |
| `BlockFile.Int64ColumnRoundTrip` | internal/block/format.go:163-185 | a timestamp column parses back to itself, negative values included |
| `BlockFile.CompressInt64Column` | internal/block/format.go:163-169 | the loop compresses the values in two's complement |
| `BlockFile.DecompressInt64Column` | internal/block/format.go:172-185 | the loop parses them, with the length error |
| `BlockFile.BuildBlock` | internal/block/format.go:226-270 | header, body and footer for the rows, with running offsets |
| `BlockFile.ReadFilterColumns` | internal/block/format.go:274-293 | reads the two filter columns at the footer's offsets |
| `BlockFile.ColumnsInPlace` | internal/block/format.go:226-293 | every column lies inside the file at the offset and with the size the footer names |
| `BlockFile.ReadBlock` | internal/query/block_reader.go:16-102 | the reading code computes the specified row filter, errors included, on any bytes |
| `BlockFile.CollectMatches` | internal/query/block_reader.go:59-71 | the first loop finds the specified row positions |
| `BlockFile.CollectEvents` | internal/query/block_reader.go:87-99 | the second loop builds the events at those positions |
| `BlockFile.BlockFileRoundTrip` | internal/query/block_reader.go:16-102 | reading a written block file returns exactly its matching rows, in file order |
| `BlockFile.ReadRowsSound` | internal/query/block_reader.go:30-102 | whatever a file holds, the rows read from it have the asked key and lie in the range, and a file with a wrong magic or header checksum is refused |
| `Memtables.RowBytesPermuted` | internal/block/memtable.go:33-35 | the byte estimate does not depend on row order |
| `Memtables.RowBytesExact` | internal/block/memtable.go:20-35 | the byte estimate is sixteen times the row count plus all payload bytes |
| `Memtables.SortSlice` | internal/block/memtable.go:38-50 | the contract relied on for the library sort: the same indices, ordered, stability not promised |
| `Memtables.Memtable.Append` | internal/block/memtable.go:20-25 | one more row, and the byte estimate is sixteen per row plus the payload bytes |
| `Memtables.Memtable.Sort` | internal/block/memtable.go:38-63 | the columns end ordered by key hash, then timestamp; whole rows are permuted, the estimate is unchanged |
| `Memtables.Memtable.UniqueKeyHashes` | internal/block/memtable.go:79-89 | exactly the key hashes of the rows, each once |
| `Memtables.Memtable.Reset` | internal/block/memtable.go:101-106 | an empty valid memtable |
| `Memtables.SortedByIndex` | internal/block/memtable.go:38-63 | applying one sorted permutation to three columns sorts whole rows |
| `RingBufs.NextPow2` | internal/ingestion/ringbuf.go:76-85 | the least power of two not below n |
| `RingBufs.NextPow2Terminates` | internal/ingestion/ringbuf.go:76-85 | doubling in 64-bit arithmetic ever reaches n exactly when n is at most 2^62 |
| `RingBufs.RingBuf.Push` | internal/ingestion/ringbuf.go:29-44 | appends the event exactly when the ring is not full, also after the counters wrapped |
| `RingBufs.RingBuf.Pop` | internal/ingestion/ringbuf.go:47-56 | removes the oldest event, or reports an empty ring |
| `RingBufs.RingBuf.DrainAll` | internal/ingestion/ringbuf.go:59-69 | all events, oldest first, and an empty ring |
| `RingBufs.RingBuf.Len` | internal/ingestion/ringbuf.go:72-74 | the number of events held |
| `RingBufs.SingleProducerLossless` | internal/ingestion/ringbuf.go:20-56 | in every interleaving of one producer's and one consumer's atomic steps, popped plus live slots equals pushed, occupancy is at most the capacity and no slot is accessed by both at once, past 2^64 pushes too |
| `RingBufs.TwoProducersLose` | internal/ingestion/ringbuf.go:29-44 | for every capacity and any two producers there is an interleaving that loses an event |
| `RingBufs.LosslessIffSingleProducer` | internal/ingestion/ringbuf.go:29-56 | for each capacity, the ring is lossless in all runs if and only if at most one producer pushes |
| `Merger.EventHeap.Up` | internal/query/merger.go:12-51 | sift-up of the library heap restores heap order and keeps the items |
| `Merger.EventHeap.Down` | internal/query/merger.go:12-51 | sift-down likewise, leaving the tail alone |
| `Merger.EventHeap.Push` | internal/query/merger.go:73-75 | keeps heap order and adds one item |
| `Merger.EventHeap.Pop` | internal/query/merger.go:77-83 | keeps heap order and returns a least item |
| `Merger.MergeEvents` | internal/query/merger.go:12-51 | for any sources, an interleaving that keeps each source's order and every row exactly once, sorted when the sources are |
| `BloomCaches.ShrinkLongest` | internal/index/bloom_cache.go:59-62 | eviction keeps the longest most-recent prefix that fits |
| `BloomCaches.BloomCache.RemoveElem` | internal/index/bloom_cache.go:89-94 | map, list and memory count stay in agreement, one entry less |
| `BloomCaches.BloomCache.MakeRoom` | internal/index/bloom_cache.go:59-62 | the eviction loop keeps exactly that prefix |
| `BloomCaches.BloomCache.Test` | internal/index/bloom_cache.go:42-70 | the answer for hits, loads, absent files and errors; a hit or a loaded filter is the most recent entry afterwards, the others keep their order, and as few as necessary go from the back; a positive cap is exceeded by a single entry only |
| `BloomCaches.TestedRecency` | internal/index/bloom_cache.go:46-68 | the recency order after a lookup, position by position |
| `BloomCaches.OrderedByLastLookup` | internal/index/bloom_cache.go:42-87 | in every run the entries are ordered by their last lookup |
| `BloomCaches.EvictsLeastRecent` | internal/index/bloom_cache.go:58-61 | in every run an entry that a lookup pushes out was last looked up before every entry that stays, and the latest pushed out would not have fit |
| `BloomCaches.BloomCache.Evict` | internal/index/bloom_cache.go:73-79 | removes exactly that entry |
| `BloomCaches.RunFacts` | internal/index/bloom_cache.go:42-94 | what every sequence of lookups and file changes keeps: distinct entries, the memory bound, coherence with the files |
| `BloomCaches.LookupReadsFile` | internal/index/bloom_cache.go:42-107 | in every run whose file changes come with an eviction, a lookup answers as reading the file would; removals without eviction spoil only removed files |
| `Sealer.OpenHourExact` | internal/block/sealer.go:144 | the truncating division gives the instant's hour exactly from the epoch on or in the first second of an hour, and at most one hour more otherwise |
| `Sealer.ExpiryExact` | internal/block/sealer.go:144-149 | the expiry hour is the block's hour plus the retention if and only if the open hour is exact and the sum is not before the epoch |
| `Sealer.ExpiryKeepsRetention` | internal/block/sealer.go:144-149 | from the epoch on, the expiry hour lies the whole hours of the retention after the block's hour, and five years after it for a retention below an hour |
| `Sealer.BoundaryExpiry` | internal/block/sealer.go:144-149 | at every hour boundary the expiry hour is that sum, or that sum plus 2^64 when it is negative |
| `Sealer.ExpiryWrapsBeforeEpoch` | internal/block/sealer.go:144-149 | a block opened 50000 hours before the epoch under the default retention expires at hour 2^64 - 6200 |
| `Sealer.PlaceFiles` | internal/block/sealer.go:42-125 | on success both files are durable with their contents; in every state on the way the store and all other files are as before, and the new block file is never in place without its durable bloom file; after a single failure no new file is left over |
| `Sealer.PutIndex` | internal/block/sealer.go:127-141 | the chunk loop commits exactly the planned batches, in order |
| `Sealer.ChunksExact` | internal/block/sealer.go:127-141 | the chunks are the hashes in order, cut into pieces of the given size of which only the last may be shorter |
| `Sealer.IndexInChunks` | internal/block/sealer.go:127-141 | no batch before the deciding one sets more index keys than configured, or than 100000 if nothing is configured |
| `Sealer.Seal` | internal/block/sealer.go:37-161 | whatever fails and wherever power is lost, the state has made some progress through the plan computed from the sorted rows, and no batch enters the log before both files are durable; success means all of it, synced |
| `SealRecords.SealIsRecorded` | internal/block/sealer.go:54-161 | after a seal that went through: the header, length and checksums of the block file, the decoded metadata record, the expiry key and an index key for every row are those of the request and the rows |
| `SealCrash.ChunksCover` | internal/block/sealer.go:127-141 | the index chunks cover every hash, for every chunk size |
| `SealCrash.StageKeeps` | internal/meta/keys.go:183-192 | before the deciding batch the log of the shard, the block's metadata and all foreign keys are untouched |
| `SealCrash.FinalStageSealed` | internal/meta/seal.go:7-24 | after it: metadata, expiry key, an index key per hash, no log left, all other keys untouched |
| `SealCrash.SealCrashAtomic` | internal/block/sealer.go:37-161 | for every crash point of the first seal of a (shard, hour) during which no one else commits, the recovered state has all of the block or none of it, and in the latter case the shard's log as it was |
| `SealCrash.SealDurable` | internal/block/sealer.go:143-160 | once Seal has returned without error every crash recovers the whole block |
| `RowRuns.RowsReachable` | internal/ingestion/writer.go:110-186 | in every run of the store and its writers, with appends failing before or after their entry is logged, the invariant of rows, memtables, seals and deciding batches holds in every recoverable version |
| `RowRuns.RowInLogOrCut` | internal/meta/seal.go:7-24 | in every recoverable version an acknowledged row is in the WAL with its value if and only if no deciding batch in that version's past deleted it |
| `RowRuns.DroppedRowsCarriedIff` | internal/ingestion/writer.go:156-186 | every entry the shard's seals deleted from the WAL is a row of the seal that deleted it if and only if no committed seal carried fewer logged rows than its log had; a seal carries as many logged rows as its block has rows if and only if no append of theirs missed the log |
| `RowRuns.RowInLogOrBlock` | internal/block/sealer.go:120-161 | then an acknowledged row that left the WAL is, with its value, a row of the seal that deleted it, whose block has its metadata, and if sealed once its file, until it expires |
| `RowLoss.RestartLosesAckedRow` | internal/ingestion/writer.go:52-69 | for any shard but the last, two events and a seal of the second: a run with a crash between two acknowledged appends after which the first is in no recoverable WAL and in no block |
| `LifecycleInv.StepKeeps` | internal/ttl/reaper.go:58-86 | every step of seals, sweeps (failed metadata reads and failed best-effort deletes included), WAL writes, flushes, clock and crashes keeps the store's invariant |
| `LifecycleInv.Reachable` | internal/block/sealer.go:37-161 | the invariant holds in every reachable state |
| `LifecycleTheorems.ExpiryKeysMatchBlocks` | internal/ttl/reaper.go:46-97 | in every reachable or recovered state each metadata record has exactly one expiry key and none is without, and an unexpired block has its file |
| `LifecycleTheorems.SurvivingBlockIsWhole` | internal/block/sealer.go:90-160 | a block sealed once whose metadata survives has its own metadata, expiry key, all index keys and, until it expires, both files with full contents |
| `LifecycleTheorems.ExpiresAfterRetention` | internal/block/sealer.go:144-149 | the hour after which a block of the whole store may be reaped lies the whole hours of the retention after its own |
| `LifecycleTheorems.ReaperConverges` | internal/ttl/reaper.go:46-97 | from every reachable or recovered state, what a clean completed cycle whose failed reads were harmless leaves lacks metadata, expiry key and both files of exactly the blocks expired by that hour, and no other key or file |
| `LifecycleTheorems.JanitorConverges` | internal/ttl/janitor.go:44-92 | the same for the janitor: the keys of exactly the expired blocks whose block file is absent, and no file |
| `Ttl.DeleteFiles` | internal/tier/local.go:65-76 | removes the two files of one block and nothing else |
| `Meta.ReadBlockMeta` | internal/meta/block.go:23-33 | a metadata read that may fail; otherwise the stored record, a decoding error, or none |
| `Ttl.CleanReads` | internal/ttl/reaper.go:58-86 | without a failed read the entries that fall are exactly those that should |
| `Ttl.CleanCycleExact` | internal/ttl/reaper.go:58-86 | key by key what a clean cycle of reaper or janitor leaves: due blocks without readable metadata or of a configured tier go, those of another tier stay whole |
| `Ttl.MisreadsHarmless` | internal/ttl/reaper.go:58-86 | the store and the files after a clean completed cycle are as they should be if and only if each failed read hit an entry whose keys go anyway and, at the reaper's first entry of a block, none of its files exists |
| `Ttl.MisreadsKeepStore` | internal/ttl/janitor.go:59-64 | for the store alone: if and only if each failed read hit an entry whose keys go anyway |
| `Ttl.MisreadKeepsFiles` | internal/ttl/reaper.go:64-69 | a file that should go stays if and only if the read at its block's first entry failed |
| `Ttl.MisreadDropsLiveBlock` | internal/ttl/janitor.go:59-64 | for any block with its file in place, one failed read makes a janitor sweep delete its metadata |
| `Ttl.AnyChoice` | internal/ttl/reaper.go:58-86 | in any partly swept store, an entry whose read succeeds and finds nothing falls anyway |
| `Ttl.ReaperRunOnce` | internal/ttl/reaper.go:46-97 | from any state, with any metadata reads failing and any cancellation: a clean cycle leaves exactly the store without the keys of the entries that fall and the files without theirs; any other cycle deleted part of these keys, part of the due blocks' files, and nothing else; in every state on the way a block loses its files before its keys; if nothing failed and nothing was cancelled the cycle is complete and clean |
| `Ttl.JanitorRunOnce` | internal/ttl/janitor.go:44-92 | the same for the janitor, which touches no file however it ends |
| `ParallelReads.ParallelReadsCorrect` | internal/query/query.go:125-155 | in every schedule at most maxP reads are in flight, a schedule has at most 6n steps, an unfinished one can go on, and at the end each slot was written exactly once with its own answer |
| `ParallelReads.RunSchedule` | internal/query/query.go:138-155 | any schedule returns the answers in submission order |
| `Query.Lookup` | internal/index/index.go:35-54 | exactly the indexed blocks whose hour meets the range, each once |
| `Query.Candidates` | internal/query/query.go:68-84 | exactly the listed blocks of the wanted type or of all 256 types, none twice if every block is indexed under one type |
| `Query.FilterTasks` | internal/query/query.go:90-119 | keeps every readable block whose filter passes and no listed block that is unreadable or whose filter excludes the key; fails if an operation failed or a listed block cannot be decoded, and otherwise not; keeps the cache coherent |
| `Query.ReadAll` | internal/query/query.go:125-155 | without a failed operation the answers of all blocks in order, otherwise at least one error |
| `Query.NonEmpty` | internal/query/query.go:157-165 | fails exactly if a read failed; otherwise keeps all rows |
| `Query.Run` | internal/query/query.go:55-178 | the argument errors; for a success which blocks were listed, kept and read and that the result is their rows, merged; for a failure that an operation failed, a listed block cannot be decoded, or a kept block's read is an error |
| `QueryTheorems.QueryOverVersion` | internal/query/query.go:55-178 | in any version the engine can be in, a success is in order and sound, and with the bloom files in place it is exactly the matching rows of live wanted blocks whose hour meets the range |
| `QueryTheorems.InHourNoStrays` | internal/index/index.go:35-54 | rows in their block's hour are never missed by the hour filter |
| `QueryTheorems.OverlapsMeans` | internal/index/index.go:35-54 | the range meets a block's hour if and only if it holds an instant of that hour |
| `QueryTheorems.MatchingFacts` | internal/query/block_reader.go:60-70 | a read asks for exactly the rows of the key with from <= timestamp < to, in file order |
| `QueryTheorems.MatchingCount` | internal/query/block_reader.go:84-99 | each of them as often as the block has it |
| `QueryTheorems.QueryRefinesFilter` | internal/query/query.go:55-178 | in every reachable or recovered state whose blocks were each sealed once: order, soundness, and, with the bloom files in place, completeness if and only if no matching row lies outside its block's hour |
| `QueryTheorems.RowsReturned` | internal/query/query.go:55-178 | row by row: every returned row is of a live block, of the asked key, range and type; with the bloom files in place every such row of its block's hour is returned at least as often as its block has it |
| `QueryTheorems.BloomsPresentUntilExpiry` | internal/index/bloom_cache.go:51-57 | the bloom files are in place as long as no live block has expired |
| `QueryTheorems.ServedQueryIsExact` | internal/query/query.go:55-178 | the same for an engine whose cache lived through all of it: the cache is coherent in every reachable state, and the answer is ordered, sound and complete under the same conditions |
| `SealRuns.SealRun` | internal/block/sealer.go:37-161 | every seal a writer can ask for is made by some run, after which its block is live with both files and its shard's log is empty |
| `QueryGaps.StrayMissed` | internal/index/index.go:35-54 | for every block with a matching row outside its hour there is a run after which a successful query returns nothing although it owes those rows |
| `QueryGaps.LateRowMissed` | internal/index/index.go:35-54 | such a run for one concrete block |
| `QueryFailures.FailsIffOrphaned` | internal/query/query.go:90-165 | in every reachable state whose blocks were each sealed once, a well-formed query of which no operation fails still fails if and only if a block it reads has metadata but no block file, and such a block has expired |
| `QueryFailures.SpanFailsOnMissingFile` | internal/query/query.go:90-165 | the same cause is the only one when the store changes between the reads, short of a crash |
| `QueryFailures.ReapingFailsQueries` | internal/ttl/reaper.go:76-86 | for every block there is a run in which the reaper has unlinked its block file but not its keys, and no query for one of its keys can succeed |
| `QuerySpans.Serve` | internal/query/query.go:55-178 | the query code with the store and the cache changing between any two reads: the argument errors, for a success what each scan, test, metadata read and file read saw, and for a failure its cause as for Query.Run |
| `QuerySpans.SpanOfRun` | internal/query/query.go:55-178 | any stretch of a run whose blocks were each sealed once meets the assumptions of the bounds |
| `QuerySpans.SpanBounds` | internal/query/query.go:55-178 | such a query is in timestamp order, returns all matching rows of concerned blocks with metadata and bloom file throughout, and only matching rows of concerned blocks with metadata at some time |
| `QuerySpans.QuietSpanExact` | internal/query/query.go:55-178 | if no concerned block gains or loses metadata or bloom file meanwhile the answer is exact |
| `CacheRuns.BloomStep` | internal/block/sealer.go:90-141 | every step of the store keeps: an indexed block sealed once has its own bloom file or none |
| `CacheRuns.BlockFileStep` | internal/block/sealer.go:120-125 | every step of the store keeps: a block sealed once has its own block file or none, whatever its metadata say |
| `CacheRuns.CacheReachable` | internal/index/bloom_cache.go:42-70 | in every run each cached filter of a block sealed once is the one its seal built |
| `CacheRuns.CacheStaysRight` | internal/index/bloom_cache.go:42-79 | although nothing evicts a reaped block's filter, and as long as each block was sealed once, a cached answer is the answer of the file wherever the file exists |
| `Reseals.FailedResealHidesBlock` | internal/block/sealer.go:101-124 | for any two seals of one hour there is a run in which the second fails and the first block is live, unexpired and whole but without its bloom file: a query succeeds without the rows the block owes |
| `Reseals.ResealLeavesOldFilter` | internal/index/bloom_cache.go:42-79 | for any two seals of one hour there is a run in which both commit and the cache answers every key with the first filter |
| `WriterRuns.ConservedIffSealsFresh` | internal/ingestion/writer.go:110-186 | over every run, from any blocks at the start, all their rows and all pushed events are in ring, memtable or live blocks if and only if every seal committed into an hour without a block |
| `WriterRuns.MemtableIsWalSuffix` | internal/ingestion/writer.go:110-186 | if no append failed the memtable is a suffix of the WAL rows, and all of them exactly when the last seal committed or, without a seal, the WAL started empty |
| `WriterRuns.WalEndsInMemtable` | internal/ingestion/writer.go:110-186 | with failing appends too, the WAL is what it held when the memtable was begun, followed by exactly the memtable rows whose append entered, as the flushes since the last seal report |
| `WriterRuns.MissingFromWal` | internal/ingestion/writer.go:117-120 | the WAL ends in the whole memtable if and only if every append of the flushes since the last seal entered |
| `WriterRuns.OlderSettled` | internal/ingestion/writer.go:156-186 | nothing older than the memtable is in the WAL once the last seal committed, and, if every append entered, only then |
| `WriterRuns.EveryRowAccounted` | internal/ingestion/writer.go:110-186 | in every run without exception: rows in ring, memtable, older WAL and blocks, plus those the seals dropped, are the rows found and pushed, plus those the seals left in two places |
| `WriterRuns.AllSomewhere` | internal/ingestion/writer.go:110-186 | with every seal into an hour without a block, every row is still somewhere if and only if each committed seal found nothing older in the WAL and each failed one had all its rows there |
| `WriterRuns.DurableIffCommitsExact` | internal/ingestion/writer.go:156-186 | with every append entered too, ring, WAL and blocks hold all rows found and pushed if and only if each committed seal found the WAL equal to its memtable; otherwise strictly less |
| `WriterRuns.RestartLosesWal` | internal/ingestion/writer.go:52-69 | a writer that finds a row in the WAL drops it with its first committed seal |
| `WriterRuns.FailedSealLosesRows` | internal/ingestion/writer.go:172-185 | a failed seal followed by a committed one loses the rows of the first from ring, memtable, WAL and blocks |
| `WriterRuns.TwoSealsInOneHourLose` | internal/ingestion/writer.go:126-153 | two committed seals in one hour lose the first block's rows |
| `WriterRuns.RestartInHourLoses` | internal/ingestion/writer.go:52-69 | a writer restarted within the hour of an existing block loses that block's rows with its next committed seal |
| `Ingestion.HourChangedExact` | internal/ingestion/writer.go:128-129 | the four date comparisons detect exactly the changes of the UTC hour |
| `Ingestion.WalHoldsScan` | internal/meta/wal.go:42-59 | scanning the WAL of a writer returns what it logged |
| `Ingestion.WalAppended` | internal/meta/wal.go:33-39 | one append adds one value at the end and moves the counter by one |
| `Ingestion.WalAfterAppend` | internal/meta/wal.go:33-39 | a failed append leaves the values as they were or with the new one at the end |
| `Ingestion.AppendAll` | internal/ingestion/writer.go:111-121 | the flush loop: every event reaches the memtable, and the WAL grows, in order, by exactly the encoded events whose append entered; no more are missing than operations failed |
| `Ingestion.ShardWriter.constructor` | internal/ingestion/writer.go:52-69 | the configuration as given, with 256 MiB for a size that is not positive, the open block at the start of the hour, and an empty ring and memtable |
| `Ingestion.ShardWriter.Write` | internal/ingestion/writer.go:72-79 | pushes a prefix of the batch, all of it unless the ring was full |
| `Ingestion.ShardWriter.Flush` | internal/ingestion/writer.go:111-121 | one flush step of the writer machine, blocks and WAL on disk following it; if nothing failed every append entered |
| `Ingestion.ShardWriter.SealCurrent` | internal/ingestion/writer.go:156-186 | one seal step of the writer machine, the blocks and the WAL on disk following it, whatever the outcome; the request names the shard's event type and the configured retention, a committed seal is recorded as such, and from the epoch on the plan is one of the whole store's machine; it succeeds if and only if nothing failed |
| `Ingestion.ShardWriter.FlushAndMaybeSeal` | internal/ingestion/writer.go:110-153 | one step of the writer machine, a seal exactly when forced, at a new hour or over the size; with any appends failing, the shard's blocks on disk are the machine's blocks, its WAL the machine's WAL, and no key of another shard changes; a committed seal recorded the rows under the shard's event type and the configured retention; if nothing failed every append entered and the seal committed |
| `Ingestion.BlocksAfterSeal` | internal/block/sealer.go:37-161 | the shard's live blocks after a seal are exactly the machine's, for each outcome |
| `Ingestion.WalAfterSeal` | internal/meta/seal.go:7-24 | the shard's WAL after a seal is empty if it committed and unchanged otherwise |
| `Routing.ProtoEventsToBlock` | internal/grpc/convert.go:44-58 | events and keys stay aligned with the request; a key that is sent is kept and a missing one generated, likewise a timestamp, where zero is missing; each event has the hash of its own key |
| `Routing.GroupByShard` | internal/grpc/ingestion_server.go:77-81 | the grouping loop gives each shard exactly its events |
| `Routing.RoutedInOrder` | internal/grpc/ingestion_server.go:77-81 | a shard's group is the events at its positions, in request order |
| `Routing.SameKeySameShard` | internal/block/event.go:22-25 | events of one key and type share a shard whose upper byte is the type |
| `Routing.GroupsPartition` | internal/grpc/ingestion_server.go:77-81 | the groups together are the request's events, none lost or doubled |
| `Routing.IngestionServer.HandleBatch` | internal/grpc/ingestion_server.go:53-108 | the response echoes each key that was sent and the generated one otherwise; a batch with a type above 255 changes nothing; an accepted one is delivered whole and in order; one cut short reports none accepted although some shards got all of theirs and one a proper prefix |

## Left out

- gRPC transport, interceptors, server start-up, configuration, logging, command line and tickers: no property of the store depends on them.
- Batching of query responses: would only add easy members.
- Tier migration (internal/tier/local.go:79-98, internal/meta/migration.go): the server does not call it, so every live block is in the hot tier.
- pebble, zstd, CRC-32, xxHash64, JSON and the bloom filter library: only the laws named above are assumed; false-positive rates are not modelled.
- Floating-point rounding of the retention in hours: the whole hours of a non-negative duration are used.
- Query.Run: reads one state of store and files; QuerySpans.Serve is the same query over a changing store, with the cache's answers taken from the specification of its Test. The cache precondition is the one CacheRuns.CacheStaysRight proves of every reachable engine.
- QuerySpans.Serve: the query's own lookups do not change the cache; CacheRuns covers what lookups do to it.
- RowRuns.DroppedRowsCarriedIff: shard 0xFFFF is excluded, whose log no seal drops; its rows stay in the WAL.
- WriterRuns.DurableIffCommitsExact: seals into an hour with a block and appends that did not enter are covered by EveryRowAccounted.
- Reseals.FailedResealHidesBlock: a query over a cache that already holds the filter still finds the block.
- QueryTheorems.ServedQueryIsExact: the query itself sees one state, as for Query.Run.
- SealCrash.SealCrashAtomic: no other actor commits during the seal; with others the same is stated by LifecycleTheorems.SurvivingBlockIsWhole and RowRuns.RowInLogOrCut.
- Query.ReadAll: out-of-range panics of the reader are modelled as errors of that read.
- Routing.IngestionServer.HandleBatch: the writers are their input queues, and creating a writer for a new shard is instantaneous; the lock around the writers map is not modelled.
- Ingestion.ShardWriter.FlushAndMaybeSeal: the WAL clause excludes shard 0xFFFF, whose log no seal drops, and a counter that runs out of 64 bits; pushes during a flush are covered by the interleaved ring machine only.
- WriterRuns.MemtableIsWalSuffix: a commit empties the WAL, which is not so for shard 0xFFFF.
- Ttl.CleanCycleExact: the hour is not 2^64 - 1, at which the scan finds nothing.
- LifecycleTheorems.ReaperConverges: the hot tier is configured and the hour is not 2^64 - 1, at which the scan finds nothing; JanitorConverges likewise.
- QueryTheorems.QueryRefinesFilter: blocks whose columns or payloads are too long for the format's fields, and hours sealed more than once, are excluded; the latter lose rows as shown above.
- WalRuns.WALRefinesLogs: one writer per shard and at most 2^64 numbers handed out per shard, as in the server.
- Memtables.SortSlice: an insertion sort stands for the library sort, whose order of equal rows is not promised.
- The lock of the bloom cache and the goroutine scheduling inside container/heap and container/list: operations on them are atomic.
