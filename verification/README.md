# Stream Flow: a verified model

This project models the parts of Stream Flow in which a mistake would lose, repeat or misplace
data, and proves what they keep over every run.

**Topic storage.** A segment is three files (log, offset index, time index) and an index in memory.
`SegmentState` gives the operations on the bytes as functions, `Segments.Segment` is the object with
its loops, and `SegmentRuns` proves, over every run of appends (with operating-system faults at any
point), index tears and reopens, that a segment stands for a list of records. `Topics` adds the
offset counter, `Consume`, `Fetch` and the raw fetch with its chunked copy.

**Idempotent production and transactions.** `Protocol` is a state machine with one step per lock
region, so its runs are all interleavings of all callers; how a call of Produce ends is left open.
`Idempotence`, `Sequences` and `Transactions` prove the guarantees over every such run, each for one
key whatever the callers with other keys do. `Storage` puts the topics' files under the machine: a
topic lies where its cleaned name leads (`Paths`), topics whose names lead to one directory share its
files, the directories may hold anything when the broker starts, and the outcome of each Produce is
what its segment does under any fault. Every such run is a run of `Protocol`. `StorageRuns` proves that
records are read back from their files, `Restarts` what later brokers find, `StorageLimits` where
this fails. `TxTraces` reads the fate of every transaction off the steps alone, and `Provenance` shows
that every record is one a caller asked for. `Brokers.Broker` holds the methods over real topic objects (`TopicTables.TopicTable`), each proved to
take exactly steps of that machine. The history `hist` and the bookkeeping of calls in flight
(`calls`, `commits`, `firsts`, `origin`) are observations added to the state; no decision of the code reads them.

**The raft write-ahead log.** `WalState` and `Wals.WalStorage` model the directory of log and
snapshot files; `WalRuns` proves that recovery replays the abstract entry list, and `WalDirs` what it
replays with any clock.

**Streams.** Windows, sessions, the event-pattern matcher, the counting and aggregating operators,
and the plans StreamQL builds from them. Ticks fall anywhere.

**Consumer groups and the memory-mapped index.** `GroupRuns`/`Groups` and `IndexRuns`/`MmapIndex`.

## Where the code does not keep what one might expect

Each of these has a lemma, in most cases an exact condition on the input or the state:

- A cached duplicate can be answered from another topic's record: `Idempotence.AnswersCrossIff`.
- A number can be acknowledged twice when two calls for it overlap: `Idempotence.AtMostOnceIff`.
- A cached answer can change, exactly while a call for its number is in flight that does not hold the
  very record cached: `Idempotence.SameAnswerIff`.
- Two transactions get one name if one epoch is the other's negative and its producer the other's with a dash:
  `TxTraces.SameName`; the earlier one can then no longer be reached: `TxTraces.LatestIsLast`.
- A retry after an error may store a number again: `Idempotence.RecordsInLog`, `Idempotence.RetryAfterError`.
- Acknowledged numbers may fall: a number is held against those cached, so it passes below one that is not
  positive, and below any one that a call in flight has stored and not yet cached. `Sequences.AdmittedIff` and
  `Sequences.FallingIff` say exactly when, `Sequences.RisingIff` exactly which overlapping calls cause it, and
  `Sequences.EveryOrderOccurs` gives a run for every order, such as 5 before 3.
- Topics such as `orders` and `./orders`, whose names clean to one path, write over each other's records:
  `StorageLimits.SharingLosesIff`. Names without `/`, other than `.`, `..` and the empty one, never do:
  `StorageRuns.PlainNamesOwn`.
- The offset field in a file may differ from the offset returned and cached: `StorageRuns.CachedReadsBack`,
  `StorageLimits.StampFallsBehind`.
- After a restart the records past the last entry of the index file are gone, also ones reported as stored
  if a later index rewrite failed: `Restarts.SurvivesRestart`.
- An append that reports an error may still have stored its record: `SegmentRuns.FailedAppend`.
- A topic opened over existing files stamps wrong offsets: `Topics.ReloadedTopic`.
- `Fetch` and `Consume` differ for negative offsets: `Topics.FetchEqualsConsume`. The `maxBytes`
  argument of `Fetch` counts records.
- Rotated log files replay in name order, so a rotation can lose or reorder entries: `WalDirs.RotateReplays`.
- A batch appended after a torn one may not be replayed, and may take others with it:
  `WalRuns.AppendsAfterTear`; a compaction that crashes loses or repeats entries: `WalDirs.CrashAfterRun`.
- A snapshot saved with a clock that went back is not the one loaded: `WalRuns.SavedIsLoadedIff`.
- Purging with nothing to keep loses the snapshot: `WalRuns.PurgeKeepsLatest`.
- The event matcher misses occurrences when the first symbol recurs: `Cep.ExactIffFirstIsUnique`.
- A slide longer than the window skips records: `Windows.SlidingCovers`.
- The `COUNT(*)` shortcut leaves out records without the group key: `StreamQL.ShortcutAgreesIff`. It
  also ignores the plan's window: `StreamQL.CountPlanMeaning`.
- A (0,0) index entry reads as the end of the table: `IndexRuns.RecoversIff`, `IndexRuns.MarkerHides`.

## Model

| member | source | states |
|---|---|---|
| `Bytes.Int64ToBytes` | broker/types.go:261-267 | the shift loop writes the eight-byte form of every int64, which decodes back to it |
| `Bytes.BytesToInt64` | broker/types.go:269-275 | the shift-and-or loop in a 64-bit register decodes the first eight bytes, also of a shorter slice |
| `Bytes.Int64RoundTrip` | broker/types.go:261-275 | decoding the encoding of any int64, negative ones included, gives it back |
| `Bytes.BytesRoundTrip` | broker/types.go:261-275 | encoding the value of any eight bytes restores the bytes |
| `Order.CollectSorted` | broker/types.go:210-223 | walking a map in any order and sorting gives the one sorted list of its keys |
| `Order.AscendingUnique` | broker/types.go:210-223 | two ascending lists with the same elements are equal, so map iteration order never shows |
| `SegmentState.LoadPrefix` | broker/types.go:88-103 | loading any whole entries of a persisted table gives the map restricted to its lowest keys |
| `Segments.Segment.constructor` | broker/types.go:45-86 | opening loads both indexes and resumes writing at the size of the log file |
| `Segments.Segment.LoadIndexes` | broker/types.go:88-118 | the load loops fill the maps from the whole sixteen-byte entries and move the next offset past the largest key |
| `Segments.Segment.Append` | broker/types.go:120-155 | the new state, also when any of its writes fails part way, and exactly when it returns an offset |
| `Segments.Segment.PersistIndexes` | broker/types.go:210-235 | both index files become the sorted tables of the maps, or what a failing write leaves of them |
| `Segments.EncodeTable` | broker/types.go:210-259 | the sorted keys of a map with their values, sixteen bytes an entry |
| `Segments.Segment.ReadRange` | broker/types.go:157-185 | the loop over sorted keys reads the first max keys at or after from, and fails if one of them fails |
| `Segments.Segment.ReadByOffset` | broker/types.go:187-208 | seek, length prefix, payload, decode, with every short read an error |
| `SegmentRuns.AppendSound` | broker/types.go:120-155 | an append, failing or not, keeps the refinement of the record list and overwrites no byte below the write position |
| `SegmentRuns.ReopenSound` | broker/types.go:45-118 | reopening gives the records the index file still covers |
| `SegmentRuns.Run` | broker/types.go:45-235 | after any run of appends, faults, index tears and reopens the segment stands for its record list |
| `SegmentRuns.ReadByOffsetCorrect` | broker/types.go:187-208 | in every such state reading an offset gives the record with that offset and any other offset is an error |
| `SegmentRuns.ReadRangeCorrect` | broker/types.go:157-185 | a range read returns exactly the first max records at or after from, in order |
| `SegmentRuns.AppendsKeepRecords` | broker/types.go:120-155 | later appends never disturb records already there |
| `SegmentRuns.FailedAppend` | broker/types.go:134-155 | a failing append changes no other offset, and stores its own record exactly when the frame was written |
| `SegmentRuns.CleanRun` | broker/types.go:45-235 | after any fault-free run frames tile the log, the index files are exact, and closing and reopening gives the same state |
| `SegmentRuns.ReopenIdentity` | broker/types.go:45-118 | reopening an up-to-date segment rebuilds maps, next offset and write position |
| `SegmentRuns.ReopenIff` | broker/types.go:45-118 | reopening a sound segment rebuilds the very same state exactly if nothing lies behind its last frame, the index file covers every record and the whole entries of the time file are the table of the time index |
| `SegmentRuns.ReopenAfterRun` | broker/types.go:45-235 | the same after any run of appends, faults, index tears and reopens |
| `SegmentRuns.TornIndex` | broker/types.go:66-148 | after any run, faults and earlier tears included, a prefix of n index bytes recovers the n/16 lowest records the index file covered; any appends after it keep them and touch no byte the log held |
| `SegmentRuns.AppendsBelow` | broker/types.go:120-155 | no list of appends, failing or not, touches a byte below the write position it started from |
| `Topics.Topic.Produce` | broker/broker.go:81-110 | the counter moves only with a reported success, and the returned record carries the log offset |
| `Topics.StampedRun` | broker/broker.go:81-110 | from an empty directory every stored offset field is the log offset, if no index rewrite fails |
| `Topics.ReloadedTopic` | broker/broker.go:41-110 | over existing files the first stored offset field is right exactly when there were no records |
| `Topics.Consume` | broker/broker.go:134-158 | the loop over segments collects until max records, and a segment that fails makes the call fail |
| `Topics.ConsumeCorrect` | broker/broker.go:134-158 | consuming returns the first max records at or after the offset |
| `Topics.ConsumeAll` | broker/broker.go:134-158 | over any number of segments consuming returns the first max records at or after the offset of all of them together, in order |
| `Topics.Fetch` | broker/broker.go:160-179 | over any segments the record-at-a-time loop ends, with the records before the first empty or failing read and whether one failed |
| `Topics.FetchEqualsConsume` | broker/broker.go:134-179 | whatever offset fields are stored, both read paths agree exactly when from is not negative, the topic is empty, or the records asked for are there and all the same |
| `Topics.FetchRaw` | broker/broker.go:181-209 | the first segment that knows the offset, and the position and length that delimit the payload a read by offset decodes |
| `Topics.SendFile` | broker/sendfile.go:8-40 | what is written is always a prefix of the requested range, all of it if no error is reported, under any short reads and writes |
| `Topics.SendRecord` | broker/broker.go:181-209 | raw fetch and copy deliver bytes that decode to the record at that offset |
| `Paths.PlainApart` | broker/broker.go:49-52 | different names without slashes, other than `.`, `..` and the empty one, clean to different directories |
| `Paths.JoinLaw` | broker/broker.go:49-52 | a name with a slash leads where its second part leads from where its first part leads |
| `Paths.OnePart` | broker/broker.go:49-52 | a part without slashes stays, goes up or goes down one directory |
| `Paths.DotSlash` | broker/broker.go:49-52 | `./` before any name cleans to the same directory |
| `Paths.UpAndDown` | broker/broker.go:49-52 | so does a detour down and up again |
| `TopicTables.TopicTable.Add` | broker/broker.go:41-67 | a new topic and segment over whatever the directory its name leads to holds, open elsewhere or not; no other topic changes |
| `TopicTables.TopicTable.Produce` | broker/broker.go:81-110 | the segment of one topic takes the record or part of it; topics over the same directory see its files change and nothing else does |
| `Brokers.Broker.CreateTopic` | broker/broker.go:41-67 | one step of the broker over its files; an existing topic stays as it is, a new one is opened over its directory |
| `Brokers.Broker.Produce` | broker/broker.go:81-110 | one step of the broker over its files: exactly when a record is returned, which carries the contents of the call and is read back from the topic's file if no other topic has it; nothing happens while draining or without the topic |
| `Brokers.Broker.ProduceFor` | broker/broker.go:81-110 | the same on behalf of any caller: the history, the files and the returned record after Produce |
| `Brokers.Broker.ProduceIdempotent` | broker/idempotent.go:10-42 | a call takes its check, its append and its publish step in this order and stops early exactly if it has no new answer; an answer is in the cache afterwards, a new one has the contents of the call, is added to the history under its key and number and is in the topic's file if no other topic has it, a duplicate changes nothing, a rejection caches nothing |
| `Brokers.Broker.IdemCheck` | broker/idempotent.go:15-28 | the first lock region: cached answer, stale number, or go on |
| `Brokers.Broker.IdemPublish` | broker/idempotent.go:35-41 | the last lock region: cache exactly this record under its key and number, raise the last sequence |
| `Idempotence.DedupInjective` | broker/idempotent.go:15-16 | a deduplication key determines its sequence key and number |
| `Idempotence.SeqKeyInjective` | broker/idempotent.go:15-16 | topics without a bar have distinct sequence keys |
| `Idempotence.KeysCollide` | broker/idempotent.go:15-16 | two topics share a sequence key for some producers exactly when one with a bar begins the other |
| `Idempotence.CachedRecordsAreLogged` | broker/idempotent.go:18-41 | over every interleaving each cached record is in the history of a topic a caller named with that key |
| `Idempotence.CachedAnswerIsOwn` | broker/idempotent.go:18-28 | unless a call named another topic with the same key, a cached answer is a record of the topic asked for |
| `Idempotence.WrongTopicAnswer` | broker/idempotent.go:10-42 | for every pair of colliding keys, the run in which a call on a topic without records is answered with another topic's record |
| `Idempotence.AnswersCrossIff` | broker/idempotent.go:10-42 | some run lets a call on one topic be answered with a record of another exactly when one name with a bar begins the other |
| `Idempotence.LastSequenceIsMax` | broker/idempotent.go:35-41 | over every interleaving the stored last sequence is the maximum of the cached positive ones |
| `Idempotence.AtMostOnce` | broker/idempotent.go:10-42 | as long as no two calls for this number of this key overlap, whatever other callers do, it is acknowledged at most once, and once exactly when it is cached or about to be |
| `Idempotence.AtMostOnceIff` | broker/idempotent.go:10-42 | over every run and for every number of every key, the calls in flight can never be finished so that it is acknowledged twice, if and only if no two calls for it overlap while one still waits |
| `Idempotence.TwinsDuplicate` | broker/idempotent.go:18-41 | two such calls can always be finished so that both are acknowledged |
| `Idempotence.DistinctCallsAreTwinFree` | broker/idempotent.go:15-28 | with bar-free topics it is enough that no two such calls name this topic, producer and number |
| `Idempotence.RecordsInLog` | broker/idempotent.go:10-42 | the exact number of records a key and number have in the log: one if cached or about to be, plus one for each append that stored its record and reported an error |
| `Idempotence.RetryAfterError` | broker/idempotent.go:18-33 | a retry after such an append stores the number a second time |
| `Idempotence.SameAnswerIff` | broker/idempotent.go:18-41 | from any state, the answer to a cached number stays the same whatever happens afterwards, if and only if every call for it in flight holds the very record cached |
| `Idempotence.SameAnswerForever` | broker/idempotent.go:18-28 | so once it is cached and no call for it is in flight, every later call gets the same record, whatever happens in between |
| `Idempotence.CachedForGood` | broker/idempotent.go:10-42 | as it is after any run in which no two calls for the number overlapped |
| `Sequences.AckedSources` | broker/idempotent.go:10-42 | over every run, the acknowledged numbers of a key are exactly those cached and those a call in flight has stored |
| `Sequences.AdmittedIff` | broker/idempotent.go:18-28 | over every run, a number passes the check exactly if it differs from all cached ones of its key and exceeds the positive ones; it is answered from the cache exactly if cached |
| `Sequences.FallingIff` | broker/idempotent.go:18-41 | over every run, a number below an acknowledged one passes exactly if it is not cached and every acknowledged positive number above it is stored by a call in flight and not yet cached; with no such call, exactly if it is new and no positive number was acknowledged |
| `Sequences.EveryOrderOccurs` | broker/idempotent.go:18-41 | every list of numbers is what some run acknowledges, in this order; if they differ, a run in which no two calls for one number are in flight together |
| `Sequences.RisingIff` | broker/idempotent.go:10-42 | over every run and for every key, the calls in flight can never be finished so that a number repeats or falls behind a positive one, if and only if no two calls for the key are in flight of which one waits with a number that may not follow the other's |
| `Sequences.SequencesRise` | broker/idempotent.go:10-42 | as long as no two calls for a key are such rivals, whatever other callers do, its acknowledged numbers never repeat and never fall behind a positive one, in any interleaving |
| `Sequences.ExactlyTheRising` | broker/idempotent.go:10-42 | a list of numbers is what some run without rivals, or with the calls one after the other, acknowledges if and only if it is of that shape |
| `Sequences.IncreasingIff` | broker/idempotent.go:10-42 | if calls for the key carry no negative number, they can never be finished so that the acknowledged ones do not strictly increase, if and only if there are no rivals |
| `Sequences.SequencesIncrease` | broker/idempotent.go:10-42 | without rivals and negative numbers among the calls for the key, the acknowledged numbers strictly increase in log order |
| `Storage.RunsProtocol` | broker/broker.go:41-110 | the broker over its files, under any faults and draining and over any directories, runs the protocol with the outcomes its segments give |
| `Storage.ReadyRun` | broker/broker.go:41-110 | over every run, sharing or not, each topic works on the files of its directory, never past the end of the log, and hands out its offsets one by one |
| `StorageRuns.FilesMatch` | broker/broker.go:41-110 | over every run the segment of a topic whose directory no other topic has holds what it was opened over and then exactly the topic's history, in order, each record stamped with the counter of its time |
| `StorageRuns.EventReadsBack` | broker/broker.go:81-110 | every record any producer stored is read back from its topic's file, if no other topic has it |
| `StorageRuns.CachedReadsBack` | broker/idempotent.go:18-41 | a cached record is in the history of a topic named with its key and, if no other topic has the file, is read back from it; its offset field agrees exactly if it is the first in the directory or the record before it was reported as stored |
| `StorageRuns.CachedAnswerReadsBack` | broker/idempotent.go:18-28 | unless another topic was used with the same key or has the same directory, the answer is read back from the file of the topic asked for |
| `StorageRuns.PlainNamesOwn` | broker/broker.go:49-52 | names without slashes, other than `.`, `..` and the empty one, have directories of their own |
| `StorageLimits.StampFallsBehind` | broker/broker.go:95-109 | over any directory, a run in which the cached record says where it lies and the file says 0 |
| `StorageLimits.SharedDirectory` | broker/broker.go:41-110 | for any two names that clean to one path, the run in which both topics report a record at the same offset and both read the second |
| `StorageLimits.SharingLosesIff` | broker/broker.go:41-110 | some run over two topics loses a record of one exactly when their names clean to one path, provided two different records fit |
| `Restarts.SurvivesRestart` | broker/broker.go:41-67 | a broker started over the files finds for a topic exactly the records its index file has entries for, each the one read at its offset before; all of them, unless the last one stored was not reported as stored |
| `Restarts.AcrossRestart` | broker/broker.go:41-110 | whatever the next broker does, these records are read at their offsets, and its own come behind them |
| `Restarts.AcrossLives` | broker/broker.go:41-110 | over any number of brokers one after the other, whatever faults they meet, an offset reads the same as long as the index file covers it at every start |
| `Restarts.StoredForGood` | broker/broker.go:41-110 | so a record stored by any of them is read back after all later ones |
| `Restarts.NothingLostOverLives` | broker/broker.go:41-110 | if each of them ends with a record reported as stored, or stores none, every record ever stored is read back at its offset |
| `StorageRuns.CommittedReadsBack` | broker/transactions.go:70-100 | a committed transaction's staged records are exactly its records in the history, in order, each read back from its topic's file if no other topic has it |
| `Brokers.Broker.BeginTransaction` | broker/transactions.go:30-46 | adds one empty open transaction under its id and changes no other; refuses exactly an empty producer |
| `Brokers.Broker.TxProduce` | broker/transactions.go:48-68 | stages a record that names a topic, exactly on an open transaction: behind what was staged there, and no other transaction changes |
| `Brokers.Broker.AbortTransaction` | broker/transactions.go:102-115 | succeeds exactly on an open transaction, which is then aborted and empty; no other transaction changes |
| `Brokers.Broker.CommitTransaction` | broker/transactions.go:70-100 | takes only steps of its own commit; behind the old history come the first records staged, acknowledged and in order, as many as the returned count, all of them exactly on success; the transaction is then committed, otherwise it stays committing, and no other changes |
| `Transactions.TransactionsArePrefixes` | broker/transactions.go:30-115 | over every interleaving a transaction's records in the log are a prefix of the staged ones: none if open or aborted, all if committed, and one commit at most ever ran |
| `TxTraces.TraceRun` | broker/transactions.go:30-115 | in every reachable state the meaning of names, the open and the aborted transactions and the staged records are those read off the steps |
| `TxTraces.LogIsStaged` | broker/transactions.go:48-115 | over every interleaving the log of a transaction is a prefix of the records callers staged in it while it was open, in the order of their calls; all of them if committed, none if open or aborted |
| `TxTraces.AbortIsFinal` | broker/transactions.go:102-115 | once an abort meets an open transaction, whatever follows, it stays aborted and empty, never has a record in the log, and no stage or commit of it succeeds |
| `TxTraces.SameName` | broker/transactions.go:34 | exactly when two transactions get the same id |
| `TxTraces.LatestIsLast` | broker/transactions.go:34-46 | a name means the last transaction begun under it, so one can be reached until another begins with its name |
| `Provenance.EverythingRequested` | broker/broker.go:81-110 | over every interleaving each record of the history has the topic and contents of a call, a plain one its time, an idempotent one its key and number |
| `Provenance.CachedIsRequested` | broker/idempotent.go:18-41 | the record cached for a number was acknowledged for this very number and has the contents of a call with it |
| `Wals.MarshalEntries` | broker/internal/raft/node.go:222-235 | the loop writes the frames of all entries end to end |
| `Wals.UnmarshalEntries` | broker/internal/raft/node.go:237-257 | the cursor loop decodes all frames, or nothing on a torn tail, or an error |
| `WalState.ParseMarshal` | broker/internal/raft/node.go:222-257 | unmarshalling what was marshalled gives the entries back, if each encoding fits a frame |
| `WalState.CodecExists` | broker/internal/raft/node.go:222-257 | a codec that round-trips every entry exists, so the results about codecs are about something |
| `Wals.WalStorage.AppendWAL` | broker/internal/raft/wal.go:102-118 | one framed payload is added to the current file |
| `Wals.WalStorage.ReadWAL` | broker/internal/raft/wal.go:120-165 | the whole frames of all files in name order, from a byte position on |
| `Wals.WalStorage.RotateWAL` | broker/internal/raft/wal.go:167-183 | the current file gets the clock's name and an empty one takes its place |
| `Wals.WalStorage.Compact` | broker/internal/raft/wal.go:220-279 | one file with the kept entries replaces all: those above the index, each as often as it was there and in order, or of an unindexed log all but the first k; nothing changes if they do not decode |
| `Wals.WalStorage.SaveSnapshot` | broker/internal/raft/wal.go:31-55 | a snapshot file under the clock's name, and a copy in the object store if the upload succeeds |
| `Wals.WalStorage.LoadSnapshot` | broker/internal/raft/wal.go:57-100 | the snapshot with the greatest local name, or without any the one with the greatest key of the object store, which is kept locally |
| `Wals.WalStorage.PurgeOldSnapshots` | broker/internal/raft/wal.go:185-218 | all but the greatest names are removed; asked to keep less than none, it removes all and panics |
| `Wals.WalStorage.Maintain` | broker/internal/raft/node.go:205-220 | compact, rotate and purge in turn; if the log does not decode nothing changes |
| `WalRuns.ReplayAfterRun` | broker/internal/raft/wal.go:31-279 | after any run of appends, rotations, compactions, snapshots, purges and maintenance, recovery gives the abstract entries and the last snapshot |
| `WalRuns.AppendRepresents` | broker/internal/raft/wal.go:102-118 | appending concatenates |
| `WalRuns.ReplayWithTail` | broker/internal/raft/wal.go:102-165 | with any bytes at the end of the current file, recovery gives the entries and what the frames among those bytes parse to |
| `WalRuns.TornAppend` | broker/internal/raft/wal.go:102-165 | a crash at any byte of an append replays exactly the entries before it |
| `WalRuns.AppendsAfterTear` | broker/internal/raft/wal.go:102-165 | after an append cut off at any byte, what a later append is replayed as; while no frame fits, only the entries before both |
| `WalRuns.RotateRepresents` | broker/internal/raft/wal.go:167-183 | rotating under a name after all rotated ones changes no replay |
| `WalDirs.ReplayInOrder` | broker/internal/raft/wal.go:120-165 | recovery replays the entries of each file in the order of the file names |
| `WalDirs.RotateReads` | broker/internal/raft/wal.go:120-183 | for any directory and clock value, the bytes read before and after a rotation, and exactly when they are the same |
| `WalDirs.RotateReplays` | broker/internal/raft/wal.go:120-183 | the same for the entries replayed: nothing under the new name, and the current entries commute with those of greater names |
| `WalDirs.TwoRotations` | broker/internal/raft/wal.go:120-183 | so what two batches with two rotations replay to for any clock values |
| `WalDirs.ReplayAnyClock` | broker/internal/raft/wal.go:102-279 | after any run with any clock, recovery replays the abstract files in the order of their names |
| `WalRuns.CompactRepresents` | broker/internal/raft/wal.go:220-279 | compacting a directory that stands for entries gives one that stands for the kept ones, and no snapshot changes |
| `WalRuns.CompactKeeps` | broker/internal/raft/wal.go:220-279 | recovery after a compaction gives exactly the entries above the index, with their multiplicity and in order, or all but the first k; only files of the log change |
| `WalRuns.MaintainLeaves` | broker/internal/raft/node.go:205-220 | maintenance leaves an empty current file, one rotated file of what is kept and the two latest snapshots |
| `WalRuns.UnmarshalTail` | broker/internal/raft/node.go:237-257 | behind any entries, a frame cut short makes the result empty and one that does not decode an error |
| `WalRuns.CrashedCompaction` | broker/internal/raft/wal.go:249-279 | what a compaction that crashes replays: while rewriting only the rotated entries, before removing them those and the kept ones, right exactly if there were none |
| `WalDirs.CrashAfterRun` | broker/internal/raft/wal.go:102-279 | the same after any run with any clock |
| `WalRuns.KeepTwice` | broker/internal/raft/wal.go:220-248 | keeping twice is keeping once: above the larger index, or dropping the sum on unindexed logs |
| `WalRuns.CompactTwice` | broker/internal/raft/wal.go:220-279 | two compactions replay like that one |
| `WalRuns.PurgeKeepsGreatest` | broker/internal/raft/wal.go:185-218 | exactly the greatest snapshot names stay, log files are untouched |
| `WalRuns.PurgeKeepsLatest` | broker/internal/raft/wal.go:57-218 | the loaded snapshot survives exactly when one is kept or there is none |
| `WalRuns.SavedIsLatest` | broker/internal/raft/wal.go:31-71 | a snapshot saved under the greatest name is the one loaded |
| `WalRuns.SavedIsLoadedIff` | broker/internal/raft/wal.go:31-71 | with any clock, a snapshot just saved is loaded exactly if no other name is greater, or the greatest one holds the same bytes |
| `WalRuns.UploadSurvives` | broker/internal/raft/wal.go:31-100 | a snapshot uploaded under the greatest key survives the loss of the directory |
| `WalRuns.MaintainRepresents` | broker/internal/raft/node.go:205-220 | maintenance keeps what compaction keeps and the same snapshot, whatever the clock |
| `WalRuns.MaintainZero` | broker/internal/raft/node.go:205-220 | maintenance at zero loses no entry with a positive index |
| `Windows.TumblingWindows` | processor/advanced_streaming.go:13-20 | one bucket per multiple of the size with records behind it, holding exactly those less than the size behind it, in input order |
| `Windows.SlidingWindows` | processor/advanced_streaming.go:22-39 | sorts in place; the windows are the multiples of the slide, from the one below the first record on, with records in their span, and hold exactly those |
| `Windows.SlidingCovers` | processor/advanced_streaming.go:22-39 | a record is in some window exactly when its distance to the slide multiple below is less than the size |
| `Windows.SlidingBound` | processor/advanced_streaming.go:22-39 | no time is in more than size/slide windows, rounded up |
| `Windows.SlidingIsTumbling` | processor/advanced_streaming.go:13-39 | with slide equal to size the keys and the bucket multisets are those of tumbling windows |
| `Sessions.SessionWindows` | processor/advanced_streaming.go:41-59 | sorts in place and cuts where the distance exceeds the gap |
| `Sessions.SplitFlatten` | processor/advanced_streaming.go:41-59 | put end to end the sessions are the sorted input |
| `Sessions.SessionsAreChains` | processor/advanced_streaming.go:41-59 | two records share a session exactly when a chain of steps within the gap joins them |
| `Sessions.NegativeGap` | processor/advanced_streaming.go:41-59 | with a negative gap there is one session per record, in order |
| `Cep.CEPStateMachine.Next` | processor/advanced_streaming.go:82-108 | the report of each event is that of the automaton over all events so far |
| `Cep.ReportsAreOccurrences` | processor/advanced_streaming.go:82-108 | a report means the last events equal the pattern |
| `Cep.ReportsAreDisjoint` | processor/advanced_streaming.go:82-108 | reported matches never overlap |
| `Cep.RecurringFirstMisses` | processor/advanced_streaming.go:82-108 | for every pattern whose first symbol recurs, a stream with a missed occurrence |
| `Cep.ExactIffFirstIsUnique` | processor/advanced_streaming.go:82-108 | every occurrence in every stream is reported if and only if the first symbol does not recur |
| `Counting.AggregateCounts` | processor/op.go:53-73 | the count of every key is the number of places at which it occurs, and there are no other keys |
| `Counting.WindowCounts` | processor/op.go:80-109 | one table of counts per full window of size records and one for the rest, if anything was counted in it |
| `Counting.WindowsConserveCounts` | processor/op.go:53-109 | for any window size the counts over all windows add up to those of the whole input |
| `Aggregates.AggregateFuncs` | processor/op.go:157-241 | the accumulation loop and the rendering of one table |
| `Aggregates.BatchRight` | processor/op.go:157-241 | the accumulated sums and counters of every group are those of a reference definition |
| `Aggregates.ResultMeaning` | processor/op.go:157-241 | counts are group sizes, sums add the group's numbers, averages divide by a count that is never zero |
| `Aggregates.TimeWindow` | processor/op.go:249-349 | each tick with accumulated records, and the end, emits the table of the records since the last |
| `Aggregates.TicksConserve` | processor/op.go:157-349 | wherever ticks fall, sums and counts over all windows add up to the batch result |
| `StreamQL.BuildOperators` | streamql/executor.go:11-69 | the stages chosen for a plan; every stage but the last passes rows on |
| `StreamQL.Run` | processor/runtime.go:11-17 | the loop composes the stages |
| `StreamQL.RunPlan` | streamql/executor.go:71-75 | a plan computes its last stage on exactly the rows the predicate holds of, each as often as it occurs and in order; without aggregates it lists exactly the fields asked for |
| `StreamQL.GroupedPlanMeaning` | streamql/executor.go:11-75 | a grouped plan without window computes filter-then-group-by over exactly the rows that pass, averages over non-zero counts; COUNT(*) alone counts the rows of each group that have the key |
| `StreamQL.WindowedPlanMeaning` | streamql/executor.go:44-48 | a windowed plan emits one table per window of the rows that pass, cut exactly where a tick falls between two rows, each over the rows of its window |
| `StreamQL.WindowedPlanConserves` | streamql/executor.go:11-75 | a windowed plan's counts and sums over all its tables are those of the rows that pass; for COUNT(*) alone, of those that have the key |
| `StreamQL.CountPlanMeaning` | streamql/executor.go:38-43 | a COUNT(*) plan counts the filtered rows of each group that have the key, and gives the same outcome for every window and all ticks |
| `StreamQL.SizeVersusOccurs` | processor/op.go:53-241 | the two counts of a group differ only for the empty key, by the number of records without the key |
| `StreamQL.ShortcutAgreesIff` | streamql/executor.go:38-43 | the COUNT(*) shortcut agrees with the general aggregator on all groups exactly when every record has the key |
| `Groups.ConsumerGroupCoordinator.constructor` | broker/consumer_group.go:14-19 | no groups |
| `Groups.ConsumerGroupCoordinator.Join` | broker/consumer_group.go:21-28 | the member is in its group afterwards and nothing else changes |
| `Groups.ConsumerGroupCoordinator.Leave` | broker/consumer_group.go:30-40 | the member and its share go, unless the group is unknown, and nothing else changes |
| `Groups.ConsumerGroupCoordinator.Rebalance` | broker/consumer_group.go:42-63 | the clearing and dealing loops give the shares of the sorted members |
| `Groups.ConsumerGroupCoordinator.Assignment` | broker/consumer_group.go:65-73 | a copy of the group's shares |
| `GroupRuns.RunFits` | broker/consumer_group.go:21-63 | in every reachable state owners are members and no partition has two owners |
| `GroupRuns.RebalanceExact` | broker/consumer_group.go:42-63 | after a rebalance the i-th of k sorted members owns exactly the p below n with p mod k equal to i, ascending, and other groups are unchanged |
| `GroupRuns.RebalanceFair` | broker/consumer_group.go:42-63 | the first n mod k members own n/k + 1 partitions, the others n/k |
| `GroupRuns.SinceRebalance` | broker/consumer_group.go:21-63 | until the next rebalance a member has its share exactly as long as it has not left |
| `GroupRuns.MembersExact` | broker/consumer_group.go:21-40 | after any run the members of a group are exactly those who joined and have not left since |
| `GroupRuns.OwnersExact` | broker/consumer_group.go:21-73 | in every reachable state, from the calls alone: after the last rebalance a member owns a partition exactly if it had joined by then, was dealt it round-robin in string order and has not left since |
| `GroupRuns.NeverRebalanced` | broker/consumer_group.go:42-73 | before any rebalance nobody owns anything |
| `MmapIndex.SparseMMapIndex.constructor` | broker/sparse_index_mmap.go:16-45 | opening any bytes recovers the entries before the first (0,0) within the capacity |
| `MmapIndex.SparseMMapIndex.Append` | broker/sparse_index_mmap.go:47-56 | writes the next slot and no other, and fails exactly when full |
| `MmapIndex.SparseMMapIndex.Find` | broker/sparse_index_mmap.go:58-68 | the first match in the list of entries |
| `IndexRuns.RunRefines` | broker/sparse_index_mmap.go:16-56 | over every run of appends and reopens without (0,0) the index is a bounded list |
| `IndexRuns.AppendsKeepAll` | broker/sparse_index_mmap.go:47-56 | appends alone keep every entry up to the capacity |
| `IndexRuns.ReopenRecovers` | broker/sparse_index_mmap.go:16-45 | reopening recovers the entries up to the first (0,0), as far as the capacity reaches |
| `IndexRuns.RecoversIff` | broker/sparse_index_mmap.go:16-45 | reopening any index recovers exactly its entries if and only if they fit, none is (0,0) and the slot behind them, if the capacity reaches it, is (0,0) |
| `IndexRuns.MarkerHides` | broker/sparse_index_mmap.go:16-56 | after a (0,0) entries vanish at a reopen and come back at a later one |
| `IndexRuns.FirstMatchExact` | broker/sparse_index_mmap.go:58-68 | lookup gives the earliest entry with the offset and fails exactly when there is none |

## Left out

- JSON, protobuf and `fmt` formatting are codecs given as functions; round trips are assumed only of these.
- Regular expressions, the StreamQL parser and `compilePredicate`: a plan carries parsed aggregates and a predicate.
- etcd raft, the node loop, gRPC, HTTP, the client libraries, metrics and configuration.
- Tiered storage of segments; the object store for snapshots is a bucket whose operations succeed whole or fail.
- Schema registries, watermarks and stream joins would add only easy members.
- Map and filter operators appear only as stages of a plan; operators are functions on finite streams, not channels and goroutines.
- `ConsumeReadCommitted` is `Consume`; isolation between a commit in progress and its readers is not promised by the code.
- Floating point: sums and averages are exact reals, rounding is not modelled.
- Draining is a choice of the environment: a produce call may be refused at any time.
- File-seek races between readers and writers sharing one handle; each segment operation is atomic here.
- A crash of a compaction between two removals of rotated files.
- int64 overflow: segment bases are at most 2^62, and a frame that would pass the largest file offset is a write error.
- A restart forgets the caches and is not a step of a run: `Restarts` relates the runs of any number of brokers over the same files.
- Paths are absolute and compared part by part: symbolic links, file systems that ignore case and the separators of other systems are not modelled. CreateTopic succeeds, except in the commit loop, where it may fail.
- The directories of namespaces (`broker/multitenant.go`) and of committed group offsets, which lie below the broker's own.
- Windows.SlidingWindows: a slide that is not positive makes the loop endless on non-empty input, so it is excluded there.
- WalRuns.ReplayAfterRun: assumes a clock whose numerals keep their width and only move forward, and frames below 2^32 bytes; `WalDirs.ReplayAnyClock` says what is replayed with any clock.
- Aggregates.ResultMeaning: for distinct aliases; aggregates that share an alias share their accumulators.
- MmapIndex.SparseMMapIndex.constructor: file-system errors and capacities whose byte size overflows are not modelled; the mapping and the file are one byte array.
