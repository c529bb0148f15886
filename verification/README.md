# LevelDB and nanopb, modelled and proved

This project models the storage engine that the InstaGLAM app vendors, LevelDB
(`InstaGLAM/Pods/leveldb-library`), and the protocol buffer library beside it, nanopb
(`InstaGLAM/Pods/nanopb`), and proves properties of the models with Dafny 4.11.
`dafny verify dfyconfig.toml` checks all of it.

What is modelled, from the outside in:

- **The database as a whole** (`Lsm*`, `CompactionReads`, `DbImpl`, `SnapshotView`, `Resurrection`,
  `ResurrectionSizes`); `LsmSnapshots` follows single snapshots through whole runs.
  The state is the memtable, the immutable memtable, seven levels of table files, the snapshots
  and the sequence and file numbers. The steps are writes, memtable switches, flushes, trivial moves, the
  beginning and the installation of compactions, and taking and releasing snapshots, in any interleaving.
  The reference semantics replays the history of writes into a map. `DbImpl.DB` is the imperative
  database; each of its methods is proved to be a step of the state machine.
- **Crashes and recovery** (`Crashes`, `CrashTables`, `CrashSteps`, `CrashRecovery`, `CrashReads`, `CrashRuns`,
  `CrashRetries`, `LsmManifest`, `WalBytes`). The database together with its write-ahead logs and its manifest; a crash
  keeps of each log any prefix that contains what was synced, and reopening replays manifest and logs.
- **Its parts**: point lookup (`Versions`), compaction input selection (`Inputs`, `Selection`,
  `Picking`, `PickingRules`), the compaction loop (`CompactionRun`, `CompactionCuts`), the version builder and manifest replay
  (`Building`), flush placement (`Flushing`).
- **Iterators**: the client iterator (`DbIter`, `UserView`), the merging iterator (`Merger`,
  `Merging`), the two-level iterator (`TwoLevel`) and the caching wrapper (`Iterators`), each a cursor
  over a flat sequence through every change of direction.
- **Formats, down to bytes**: numbers and strings (`Coding`), the write-ahead log (`Log`, `LogReplay`, `LogDamage`) and its
  checksum (`Crc`), write batches (`BatchBytes`), version edits (`VersionEdits`, `EditCuts`), prefix-compressed blocks
  (`Blocks`, `BlockBuilders`, `BlockIters`, `BlockRoundTrips`), Bloom filters and filter blocks (`Blooms`,
  `FilterBlocks`, `TableFilters`), and table files: separators (`Separators`), blocks of entries (`Tables`), the format
  (`TableFormat`), writing (`TableBuilds`, `TableBuilders`, `TableSizes`) and reading (`InternalKeys`, `TableReads`,
  `TableFiles`). `Ranks` embeds byte-string keys, in their order, into the numbers that the database model uses as keys.
- **Structures and protocols**: the skip list with lock-free readers (`SkipLists`, `SkipListReaders`,
  `SkipListOps`), group commit (`GroupCommit`, `GroupFailures`, `WriteBatches`), the block cache
  (`HandleTables`, `LruCaches`, `LruOrder`) and the deletion of obsolete files (`Cleanup`, `HeldVersions`).
- **nanopb** (`Pb`, `PbEncode`, `PbDecode`, `PbDecoder`, `PbRoundTrip`, `PbNormal`, `PbEvolution`, `PbVarints`,
  `PbCuts`, `PbSpace`): messages described by field
  lists, nested to any depth, with required, optional, singular and repeated fields and oneofs; the encoder with its
  sizing pass and the decoder on any bytes.
- **Bytes no writer produced** (`BadInputs`, `PbBadInputs`), and the formats byte by byte on examples (`KnownBytes`).

## Main results

- **Reads over whole runs** (`LsmRuns.RunReadsExactIff`, `LsmRuns.ClientReadsReplay`): in every run, all
  reads in all states agree with replaying the writes if and only if no installed compaction
  uncovers an old value. Every client read at a live snapshot does so when the compactions' next-level
  inputs end at user-key boundaries.
- **A defect in input selection** (`Resurrection.DeletedKeyReturns`): `SetupOtherInputs` extends its
  inputs of `level` by boundary files (version_set.cc:1407, 1422) but not its inputs of `level + 1`
  (version_set.cc:1410). The model keeps the code as it is. For every file-size limit the engine accepts
  (db_impl.cc:104), a concrete run from the empty database makes a deleted key readable again. File sizes are
  those of the files the table builder writes, with the default block size, without compression and filter. The outputs
  of its compaction are cut where the engine cuts them, when the blocks written reach the limit (db_impl.cc:988-990,
  table_builder.cc:263): one large value brings the file just below it, a second value all but fills the next block, and
  the deletion marker completes that block, so that the value it deletes starts the next output. Only the size can cut
  there: `CompactionCuts.GrandparentsNeverSplit` shows that `ShouldStopBefore` never separates two versions of a key.
  `CompactionReads.InstallPreservesReadsIff` gives the exact condition under
  which an install changes no read, and `CompactionReads.ClosedNextLevelIsSafe` shows that the check made
  for `level`, made for `level + 1` too, rules the defect out.
- **Crash recovery of the whole database** (`CrashRecovery.StepKeepsSysInv`, `CrashRuns.ClientReadsSurviveCrashes`,
  `CrashRuns.SyncedStays`, `CrashRetries.InterruptedRecovery`): over all runs with any number of crashes at any point, the
  reopened database is sound, its reads agree with replaying the writes that survived, and the writes in the log at any
  sync are in the history of every later state. A crash during recovery changes nothing of this.
- **What a crash can lose** (`CrashRuns.EveryCrashKeepsPrefixIff`, `CrashRuns.RecoveredIsPrefixIff`,
  `CrashRuns.LaterWriteSurvivesAlone`): switching memtables closes the old log without syncing it (db_impl.cc:1356-1360).
  Every crash recovers a prefix of what was written if and only if, before it, there is no immutable memtable, or all of
  its log is synced, or nothing is in the current log. A concrete run loses an acknowledged write and keeps a later,
  synced one.
- **Tables, from pairs to bytes and back** (`TableFiles.WriteThenGet`): whatever sorted pairs are added, with any block
  size and restart interval, with or without a filter, a lookup in the file written finds exactly what the pairs hold.
- **Manifest replay** (`LsmManifest.ManifestReplays`): over every run, replaying all logged edits into one Builder
  gives the current version at every level, and the last recorded counters lie above all file and sequence numbers in it.
- **The levels' invariant** (`LsmRuns.RunsKeepInv`): levels 1 and up are sorted and disjoint, newer places
  hold newer entries, file numbers are unique, a running compaction's inputs stay closed and without gaps
  while flushes install files beside it.
- **Iterators refine cursors** (`DbIter.DBIter.*`, `Merger.MergingIterator.*`,
  `TwoLevel.TwoLevelIterator.*`, `BlockIters.Iter.*`), and iterating agrees with reading
  (`SnapshotView.IteratorListsReplay`).
- **Bytes** (`LogReplay.CrashKeepsWholeRecords`, `WalBytes.CrashedLogReplays`, `BlockRoundTrips.RoundTrip`,
  `FilterBlocks.AnswerIs`, `VersionEdits.DecodeEncoded`): any prefix of a log reads back as
  exactly the records whose last fragment survived, and replays as exactly their batches' writes; blocks are searched
  and scanned in both directions as the sorted sequence written; a lookup through index, filter and data block of a table file
  finds what the flat sequence holds; filters deny no key that was added; version edits decode to what was encoded
  exactly when their levels exist.
- **Protocol buffers** (`PbEncode.GetEncodedSize`, `PbEncode.EncodeToBuffer`, `PbNormal.DecodeEncoded`,
  `PbDecoder.DecodeNoinit`): the sizing pass returns exactly the bytes that the writing pass emits. What was encoded
  decodes if and only if every string in it leaves room for a terminator: the encoder accepts a string that fills
  its buffer (pb_encode.c:875-899) and the decoder does not (pb_decode.c:1468-1501; `PbNormal.FullStringIsLost`). What is
  then restored is the message up to the data of fields that are not written.
- **Damaged logs** (`LogDamage.AllReadIsSound`): from a log of any bytes, read with checksums verified, no record is ever
  delivered that is not made of fragments whose checksums hold.
- **Snapshots over whole runs** (`LsmSnapshots.SnapshotReadsStay`): until it is released itself, a snapshot reads what was
  there when it was taken.
- **Schema evolution** (`PbEvolution.OlderReaderDecodes`, `PbEvolution.NewerReaderDecodes`): a message decodes to the fields
  the reader knows, whatever other fields the writer wrote, and with the missing ones at their defaults, exactly unless a
  required one is missing.
- **Numbers that pass for 32 bits** (`PbVarints.Varint32Is`, `PbVarints.NegativeIs`): what the decoder's 32-bit reader
  makes of any bytes. It means to accept sign extensions (pb_decode.c:221-231), and does, but checks each group of bits by
  itself, so that numbers that extend nothing pass as well.
- **Readers are undisturbed** (`HeldVersions.HeldVersionStays`): over all runs of flushes, compactions and deletions, the
  tables of a version stay on disk while a client holds it, and `HeldVersions.ReplacedTableStaysIff` says that the
  tables a compaction replaced go exactly when none does.
- **Failed syncs** (`GroupFailures.AfterAFailedSync`): over all runs, after a failed sync nothing is logged or applied any
  more, and no writer is told of success.
- **Lock-free search** (`SkipListReaders.SearchesSkipNothing`): in every interleaving of an insertion's
  stores with a search's loads, the search skips no node that was present when it began.

## Model

| member | source | states |
|---|---|---|
| `Keys.LessComparesTrailers` | InstaGLAM/Pods/leveldb-library/db/dbformat.cc:51-67 | The order on (user key, sequence, type) is the order on user key and packed trailer, larger trailers first, and it is total. |
| `Keys.LowerBound` | InstaGLAM/Pods/leveldb-library/db/skiplist.h:261-281 | Seek stops at the first entry that is not before the target. |
| `Keys.RunGetFinds` | InstaGLAM/Pods/leveldb-library/db/memtable.cc:100-134 | Seeking the lookup key in one sorted run and checking the user key finds the newest entry visible at the sequence number, or there is none. |
| `Keys.SearchIsReplay` | InstaGLAM/Pods/leveldb-library/db/db_impl.cc:1100-1145 | Whatever finds the newest visible entry in a history's entries answers as replaying the history into a map does. |
| `Versions.FindFile` | InstaGLAM/Pods/leveldb-library/db/version_set.cc:88-106 | Binary search over a sorted level returns the first file whose largest key is not before the key. |
| `Versions.EarlyStop` | InstaGLAM/Pods/leveldb-library/db/version_set.cc:326-421 | Stopping at the first hit is sound when what was searched is newer, key by key, than what was not. |
| `Versions.SortedLevelGetFinds` | InstaGLAM/Pods/leveldb-library/db/version_set.cc:358-372 | In a sorted, disjoint level one file decides: its lookup is the lookup of the whole level. |
| `Versions.Level0GetFinds` | InstaGLAM/Pods/leveldb-library/db/version_set.cc:343-357 | Searching the covering level-0 files by descending file number and stopping at the first hit is the lookup of the level. |
| `Versions.GetFromFinds` | InstaGLAM/Pods/leveldb-library/db/version_set.cc:326-421 | The level-by-level, early-stopping search finds the newest visible entry of all levels searched. |
| `Versions.FilesToSearch` | InstaGLAM/Pods/leveldb-library/db/version_set.cc:338-372 | The files chosen for a level, tried in order, give the level's lookup. |
| `Versions.VersionGet` | InstaGLAM/Pods/leveldb-library/db/version_set.cc:326-421 | Version::Get returns the newest visible entry stored in any level. |
| `Inputs.WidenIsLeastClosed` | InstaGLAM/Pods/leveldb-library/db/version_set.cc:519-559 | The range the restart loop ends with contains the given range, is closed under overlap, and lies in every closed range containing it. |
| `Inputs.GetOverlappingInputs` | InstaGLAM/Pods/leveldb-library/db/version_set.cc:519-559 | The loop with restarts terminates with the files overlapping the least closed range, in file order; above level 0 the range is not widened. |
| `Selection.GetRange` | InstaGLAM/Pods/leveldb-library/db/version_set.cc:1205-1224 | Smallest and largest internal key of a set of inputs. |
| `Selection.FindSmallestBoundaryFile` | InstaGLAM/Pods/leveldb-library/db/version_set.cc:1342-1362 | The first file, by smallest key, that starts after the key but at the same user key. |
| `Selection.AddBoundaryInputs` | InstaGLAM/Pods/leveldb-library/db/version_set.cc:1375-1401 | The loop terminates with the inputs followed by the chain of boundary files. |
| `Selection.BoundaryFilesClose` | InstaGLAM/Pods/leveldb-library/db/version_set.cc:1364-1401 | After AddBoundaryInputs no file of the level outside the set continues a user key of the set: what is left behind is newer wherever it shares a user key. |
| `Selection.OverlappingIsContiguous` | InstaGLAM/Pods/leveldb-library/db/version_set.cc:519-559 | The overlapping files of a sorted level are a contiguous stretch of it. |
| `Selection.WidenedIsGapFree` | InstaGLAM/Pods/leveldb-library/db/version_set.cc:519-559 | The level-0 inputs of a range that is covered already form a chain without gaps in user keys. |
| `Picking.SetupOtherInputs` | InstaGLAM/Pods/leveldb-library/db/version_set.cc:1403-1462 | Boundary files for the level and overlapping files of the next; with next-level inputs the level's inputs grow to all files overlapping both ranges exactly if that is more files, together below 25 file sizes, and overlaps as many next-level files. |
| `Picking.PickCompaction` | InstaGLAM/Pods/leveldb-library/db/version_set.cc:1270-1322 | From a seed file, widened over level 0, the inputs are the first choice or the grown one, as that rule says. |
| `PickingRules.BoundaryIsLeast` | InstaGLAM/Pods/leveldb-library/db/version_set.cc:1375-1401 | AddBoundaryInputs adds only files that every set closed under boundary files contains. |
| `PickingRules.GrowthKeepsNextLevel` | InstaGLAM/Pods/leveldb-library/db/version_set.cc:1403-1462 | Growing leaves the next-level inputs the same files and drops none of the level. |
| `PickingRules.NeighbourJoinsIff` | InstaGLAM/Pods/leveldb-library/db/version_set.cc:1423-1452 | A concrete choice: the file beside the seed that shares its next-level file joins if and only if all three are together below the limit. |
| `Picking.GrownOk` | InstaGLAM/Pods/leveldb-library/db/version_set.cc:1423-1452 | Growing the inputs keeps them closed in their level, complete in the next, and without gaps. |
| `Picking.PickIsOk` | InstaGLAM/Pods/leveldb-library/db/version_set.cc:1270-1322 | Whatever file starts a compaction, its inputs are closed in their level, contain every overlapping file of the next level, and form a chain without gaps. |
| `Merging.MergeHolds` | InstaGLAM/Pods/leveldb-library/table/merger.cc:148-161 | The merge of runs holds exactly their entries. |
| `Merging.MergeSorts` | InstaGLAM/Pods/leveldb-library/table/merger.cc:148-161 | The merge of sorted runs without common keys is strictly sorted. |
| `CompactionRun.BaseLevel.IsBaseLevelForKey` | InstaGLAM/Pods/leveldb-library/db/version_set.cc:1533-1552 | With the level pointers that only move forward, fed nondecreasing keys, the answer is whether no file two or more levels down covers the key. |
| `CompactionRun.DropRules.ShouldDrop` | InstaGLAM/Pods/leveldb-library/db/db_impl.cc:948-984 | The loop's two drop rules, with the remembered sequence number of the previous entry, drop exactly the specified entries. |
| `CompactionRun.KeptExactly` | InstaGLAM/Pods/leveldb-library/db/db_impl.cc:948-984 | An entry is kept if and only if no newer entry of its user key is at or below smallest_snapshot and it is not an obsolete deletion marker. |
| `CompactionRun.KeptIsSorted` | InstaGLAM/Pods/leveldb-library/db/db_impl.cc:986-1010 | The entries kept are strictly sorted. |
| `CompactionRun.DoCompactionWork` | InstaGLAM/Pods/leveldb-library/db/db_impl.cc:917-1016 | Wherever outputs are cut, the outputs concatenated are exactly the kept entries, each output is a well-formed file with a number of its own, and outputs are disjoint. |
| `CompactionRun.PiecesAreDisjoint` | InstaGLAM/Pods/leveldb-library/db/db_impl.cc:996-1010 | Cutting a strictly sorted run into files gives files with disjoint ranges. |
| `Building.Builder.Apply` | InstaGLAM/Pods/leveldb-library/db/version_set.cc:650-693 | Applying an edit deletes and adds exactly what the edit says, in order. |
| `Building.SaveLevel` | InstaGLAM/Pods/leveldb-library/db/version_set.cc:695-739 | Merging the base files with the added ones gives the specified level. |
| `Building.Builder.SaveTo` | InstaGLAM/Pods/leveldb-library/db/version_set.cc:695-755 | Saving gives every level as specified. |
| `Building.SaveIsSound` | InstaGLAM/Pods/leveldb-library/db/version_set.cc:695-755 | A saved level is in order and holds exactly the base and added files whose numbers are not deleted. |
| `Building.ReplayIsHistory` | InstaGLAM/Pods/leveldb-library/db/version_set.cc:886-1011 | If each file number is added at most once per level, replaying all manifest edits into one Builder and saving once equals saving after every edit. |
| `Flushing.SomeFileOverlapsRange` | InstaGLAM/Pods/leveldb-library/db/version_set.cc:122-157 | The search answers whether some file of the level overlaps the user-key range, for sorted and unsorted levels and open ranges. |
| `Flushing.PickLevelForMemTableOutput` | InstaGLAM/Pods/leveldb-library/db/version_set.cc:491-516 | The loop computes the specified level. |
| `Flushing.PickLevelIsClear` | InstaGLAM/Pods/leveldb-library/db/version_set.cc:491-516 | Above level 0, the level picked for a flush and all levels before it have no file overlapping the flushed range. |
| `Flushing.PickLevelIsDeepest` | InstaGLAM/Pods/leveldb-library/db/version_set.cc:491-516 | The level picked is the deepest down to level 2 that the file may go to: no overlap there or above, and at most ten file sizes two levels below every level passed. |
| `LsmSteps.GetFinds` | InstaGLAM/Pods/leveldb-library/db/db_impl.cc:1100-1145 | Memtable, then immutable memtable, then files, stopping at the first hit, finds the newest visible entry of the database. |
| `LsmSteps.MemInsertSorts` | InstaGLAM/Pods/leveldb-library/db/memtable.cc:75-98 | Inserting an entry newer than all others keeps the memtable strictly sorted. |
| `LsmSteps.InsertKeepsReads` | InstaGLAM/Pods/leveldb-library/db/db_impl.cc:1199-1236 | A write keeps reads at all sequence numbers equal to replaying the history, which now includes it. |
| `LsmSteps.SwitchKeepsInv` | InstaGLAM/Pods/leveldb-library/db/db_impl.cc:1343-1366 | A memtable switch keeps the invariant and the stored entries. |
| `LsmSteps.ReleaseSnapshotKeepsInv` | InstaGLAM/Pods/leveldb-library/db/snapshot.h:79-86 | Releasing any snapshot keeps the oldest one least. |
| `LsmFiles.AddedFileOk` | InstaGLAM/Pods/leveldb-library/db/version_set.cc:650-755 | Adding a file that is newer than all stored files, at a level clear down to it, keeps every level sorted, disjoint and in age order. |
| `LsmFiles.ReplacedOk` | InstaGLAM/Pods/leveldb-library/db/version_set.cc:650-755 | Replacing closed inputs by outputs made of their entries keeps every level sorted, disjoint and in age order. |
| `LsmEdits.FlushEffect` | InstaGLAM/Pods/leveldb-library/db/db_impl.cc:491-566 | The edit of a flush adds exactly the new file at the picked level. |
| `LsmEdits.CompactionEffect` | InstaGLAM/Pods/leveldb-library/db/db_impl.cc:860-876 | The edit of a compaction removes exactly its inputs and adds exactly its outputs. |
| `LsmFlush.FlushKeepsInv` | InstaGLAM/Pods/leveldb-library/db/db_impl.cc:535-566 | A flush, even while a compaction runs, keeps the invariant and stores the same entries. |
| `LsmFlush.FlushKeepsInputs` | InstaGLAM/Pods/leveldb-library/db/db_impl.cc:907-918 | A file flushed while a compaction runs leaves its gap-free inputs closed in both levels. |
| `LsmFlush.FlushKeepsBase` | InstaGLAM/Pods/leveldb-library/db/db_impl.cc:907-918 | A file flushed below the compaction's level holds none of its keys, so the base version still answers IsBaseLevelForKey. |
| `LsmCompaction.PickedInputsOk` | InstaGLAM/Pods/leveldb-library/db/version_set.cc:1270-1322 | What PickCompaction picks in a good version satisfies everything the running-compaction invariant asks. |
| `LsmCompaction.BeginKeepsInv` | InstaGLAM/Pods/leveldb-library/db/db_impl.cc:688-740 | Beginning a compaction, with smallest_snapshot taken then, keeps the invariant. |
| `LsmCompaction.MergedSorts` | InstaGLAM/Pods/leveldb-library/db/version_set.cc:1237-1268 | The merged inputs of a running compaction are strictly sorted. |
| `LsmInstall.MoveKeepsInv` | InstaGLAM/Pods/leveldb-library/db/db_impl.cc:716-731 | A trivial move keeps the invariant and stores the same entries. |
| `LsmInstall.TrivialMoveIff` | InstaGLAM/Pods/leveldb-library/db/version_set.cc:1515-1523 | A file is moved rather than rewritten exactly when it is alone, overlaps nothing in the next level and at most ten file sizes in the one after. |
| `LsmInstall.InstallKeepsInv` | InstaGLAM/Pods/leveldb-library/db/db_impl.cc:860-876 | Installing a compaction's outputs keeps the invariant. |
| `CompactionReads.KeptEntries` | InstaGLAM/Pods/leveldb-library/db/db_impl.cc:948-984 | Entry by entry, what a compaction's outputs hold of its inputs. |
| `CompactionReads.InstallPreservesReadsIff` | InstaGLAM/Pods/leveldb-library/db/db_impl.cc:890-999 | Installing a compaction changes no read of a key at or above smallest_snapshot if and only if it does not uncover an older value of the key left behind in the next level. |
| `CompactionReads.ClosedNextLevelIsSafe` | InstaGLAM/Pods/leveldb-library/db/version_set.cc:1403-1412 | If no next-level file continues the user key that the next-level inputs end with, nothing is uncovered. |
| `LsmRuns.StepKeepsInv` | InstaGLAM/Pods/leveldb-library/db/db_impl.cc:688-767 | Every enabled step keeps the invariant; steps other than writes and installs keep the stored entries. |
| `LsmRuns.StepKeepsReadsIff` | InstaGLAM/Pods/leveldb-library/db/db_impl.cc:890-999 | A step keeps reads exact if and only if it is not an install that uncovers an old value. |
| `LsmRuns.RunsKeepInv` | InstaGLAM/Pods/leveldb-library/db/version_set.cc:801-884 | The invariant holds in every state of every run. |
| `LsmRuns.RunReadsExactIff` | InstaGLAM/Pods/leveldb-library/db/version_set.cc:1403-1462 | Over a whole run, all reads in all states agree with replaying the writes if and only if no install of the run uncovers an old value. |
| `LsmRuns.ClientReadsReplay` | InstaGLAM/Pods/leveldb-library/db/db_impl.cc:1100-1145 | Every read at the last sequence number or a live snapshot returns what replaying the writes up to it gives, when installed compactions end at user-key boundaries in the next level. |
| `Resurrection.DeletedKeyReturns` | InstaGLAM/Pods/leveldb-library/db/version_set.cc:1403-1412 | For every file-size limit, a concrete run, with files as large as the table builder makes them and outputs cut exactly where the blocks written reach the limit, leads to a state in which reading a deleted key at the last sequence number returns the deleted value. |
| `ResurrectionSizes.CutFallsBehindMarker` | InstaGLAM/Pods/leveldb-library/table/table_builder.cc:94-139 | For every file-size limit, the file of the first output is below the limit until the deletion marker is added and reaches it with the marker. |
| `ResurrectionSizes.EntriesEmbed` | InstaGLAM/Pods/leveldb-library/db/dbformat.cc:51-67 | The order of the run's entries is the order of their encoded keys. |
| `CompactionCuts.StopRule.ShouldStopBefore` | InstaGLAM/Pods/leveldb-library/db/version_set.cc:1554-1576 | The output is cut before a key exactly when the files below that end between the first key of the output and this one are together above the limit; and only if one of them ends between the key before and this one. |
| `CompactionCuts.GrandparentsNeverSplit` | InstaGLAM/Pods/leveldb-library/db/version_set.cc:1554-1576 | In a version no file two levels down ends between two versions of one user key, so that rule never cuts there. |
| `DbImpl.DB.InsertInto` | InstaGLAM/Pods/leveldb-library/db/write_batch.cc:132-137 | A batch is inserted with consecutive sequence numbers. |
| `DbImpl.DB.Write` | InstaGLAM/Pods/leveldb-library/db/db_impl.cc:1185-1256 | A write inserts its batch and publishes its sequence numbers; reads stay exact. |
| `DbImpl.DB.GetSnapshot` | InstaGLAM/Pods/leveldb-library/db/db_impl.cc:1166-1169 | The last sequence number is returned and appended to the list of snapshots. |
| `DbImpl.DB.ReleaseSnapshot` | InstaGLAM/Pods/leveldb-library/db/db_impl.cc:1171-1174 | Exactly the snapshot named leaves the list; reads stay exact. |
| `LsmSnapshots.SnapshotStays` | InstaGLAM/Pods/leveldb-library/db/snapshot.h:66-86 | Over every run, a snapshot stays in the list with the number it was taken at until it is released itself, whatever other snapshots are taken and released. |
| `LsmSnapshots.OnlyItsReleaseEndsIt` | InstaGLAM/Pods/leveldb-library/db/db_impl.cc:1166-1174 | Over any actions, a snapshot has left the list exactly when an action released that very snapshot. |
| `LsmSnapshots.SnapshotReadsStay` | InstaGLAM/Pods/leveldb-library/db/db_impl.cc:1100-1174 | Over every run, every read at a snapshot, from when it is taken until it is released, returns what the writes up to the moment it was taken give, under the condition for all reads. |
| `DbImpl.DB.SwitchMemTable` | InstaGLAM/Pods/leveldb-library/db/db_impl.cc:1343-1366 | A Switch step. |
| `DbImpl.DB.CompactMemTable` | InstaGLAM/Pods/leveldb-library/db/db_impl.cc:535-566 | A Flush step; reads stay exact. |
| `DbImpl.DB.LogAndApply` | InstaGLAM/Pods/leveldb-library/db/version_set.cc:801-884 | The new version is the edit applied to the old one, level by level. |
| `DbImpl.DB.BeginCompaction` | InstaGLAM/Pods/leveldb-library/db/db_impl.cc:688-740 | A Begin step with the inputs PickCompaction computes. |
| `DbImpl.DB.MoveFile` | InstaGLAM/Pods/leveldb-library/db/db_impl.cc:716-731 | A Move step; reads stay exact. |
| `DbImpl.DB.FinishCompaction` | InstaGLAM/Pods/leveldb-library/db/db_impl.cc:878-1036 | Reserving the output numbers and then an Install step, with outputs that the compaction loop writes. |
| `DbImpl.DB.Get` | InstaGLAM/Pods/leveldb-library/db/db_impl.cc:1100-1145 | The answer is the database's lookup at the snapshot or the last sequence number, and the replayed map's wherever reads are exact. |
| `SnapshotView.ChildrenHold` | InstaGLAM/Pods/leveldb-library/db/db_impl.cc:1062-1087 | The children of the database's iterator are sorted, share no key, and their merge holds exactly the stored entries. |
| `SnapshotView.IteratorAgreesWithGet` | InstaGLAM/Pods/leveldb-library/db/db_impl.cc:1147-1157 | The iterator lists a pair if and only if Get at its sequence number returns it. |
| `SnapshotView.IteratorListsReplay` | InstaGLAM/Pods/leveldb-library/db/db_impl.cc:1147-1157 | Where reads are exact the iterator lists the replayed map, in strictly ascending key order. |
| `SnapshotView.LaterWritesAreInvisible` | InstaGLAM/Pods/leveldb-library/db/db_impl.cc:1062-1087 | Entries written after an iterator was opened do not change its view. |
| `UserView.ViewAscends` | InstaGLAM/Pods/leveldb-library/db/db_iter.cc:168-198 | The view lists user keys in strictly ascending order, each once. |
| `UserView.ViewIsReads` | InstaGLAM/Pods/leveldb-library/db/db_iter.cc:168-198 | A pair is in the view if and only if a read at the sequence number returns it. |
| `UserView.SeekLiveMoves` | InstaGLAM/Pods/leveldb-library/db/db_iter.cc:269-281 | The first live entry at or after the lookup key is the first pair of the view at or after the target. |
| `DbIter.DBIter.FindNextUserEntry` | InstaGLAM/Pods/leveldb-library/db/db_iter.cc:168-198 | The forward scan stops at the first live entry beyond the skipped key, or at the end. |
| `DbIter.DBIter.FindPrevUserEntry` | InstaGLAM/Pods/leveldb-library/db/db_iter.cc:227-267 | The backward scan ends on the last live entry before where it started, or is invalid if there is none. |
| `DbIter.DBIter.Next` | InstaGLAM/Pods/leveldb-library/db/db_iter.cc:141-166 | From either direction, the cursor moves to the next pair of the view, or off its end. |
| `DbIter.DBIter.Prev` | InstaGLAM/Pods/leveldb-library/db/db_iter.cc:200-225 | From either direction, the cursor moves to the previous pair of the view, or off its start. |
| `DbIter.DBIter.Seek` | InstaGLAM/Pods/leveldb-library/db/db_iter.cc:269-281 | The cursor moves to the first pair at or after the target. |
| `DbIter.DBIter.SeekToFirst` | InstaGLAM/Pods/leveldb-library/db/db_iter.cc:283-292 | The cursor moves to the first pair of the view. |
| `DbIter.DBIter.SeekToLast` | InstaGLAM/Pods/leveldb-library/db/db_iter.cc:294-299 | The cursor moves to the last pair of the view. |
| `DbIter.DBIter.KeyIsCurrent` | InstaGLAM/Pods/leveldb-library/db/db_iter.cc:64-71 | key() and value() are the pair at the cursor, in both directions. |
| `Iterators.IteratorWrapper.Update` | InstaGLAM/Pods/leveldb-library/table/iterator_wrapper.h:78-83 | The cached validity and key agree with the wrapped iterator. |
| `Merger.PosForStep` | InstaGLAM/Pods/leveldb-library/table/merger.cc:55-79 | Stepping the merged cursor steps exactly the child that holds the current entry. |
| `Merger.MergingIterator.SmallestChild` | InstaGLAM/Pods/leveldb-library/table/merger.cc:148-161 | The child with the least key among the valid ones, or none if no child is valid. |
| `Merger.MergingIterator.LargestChild` | InstaGLAM/Pods/leveldb-library/table/merger.cc:163-176 | The child with the greatest key among the valid ones, or none. |
| `Merger.MergingIterator.SeekToFirst` | InstaGLAM/Pods/leveldb-library/table/merger.cc:31-37 | The cursor over the sorted merge of all children moves to its first entry. |
| `Merger.MergingIterator.SeekToLast` | InstaGLAM/Pods/leveldb-library/table/merger.cc:39-45 | The cursor moves to the last entry of the merge. |
| `Merger.MergingIterator.Seek` | InstaGLAM/Pods/leveldb-library/table/merger.cc:47-53 | The cursor moves to the first entry of the merge at or above the target. |
| `Merger.MergingIterator.Next` | InstaGLAM/Pods/leveldb-library/table/merger.cc:55-79 | From either direction, the cursor moves one entry on in the merge. |
| `Merger.MergingIterator.Prev` | InstaGLAM/Pods/leveldb-library/table/merger.cc:81-108 | From either direction, the cursor moves one entry back in the merge. |
| `TwoLevel.TwoLevelSeek` | InstaGLAM/Pods/leveldb-library/table/two_level_iterator.cc:82-87 | Seeking the index and then the block it leads to gives the place of the target in all entries laid flat. |
| `TwoLevel.TwoLevelIterator.InitDataBlock` | InstaGLAM/Pods/leveldb-library/table/two_level_iterator.cc:146-161 | The data iterator, reused or opened, is one over the block the index stands at, or absent past its end. |
| `TwoLevel.TwoLevelIterator.SkipEmptyDataBlocksForward` | InstaGLAM/Pods/leveldb-library/table/two_level_iterator.cc:115-126 | Skipping ends at the first entry at or after the position, across empty blocks. |
| `TwoLevel.TwoLevelIterator.SkipEmptyDataBlocksBackward` | InstaGLAM/Pods/leveldb-library/table/two_level_iterator.cc:128-139 | Skipping ends at the last entry before the position, across empty blocks. |
| `TwoLevel.TwoLevelIterator.Seek` | InstaGLAM/Pods/leveldb-library/table/two_level_iterator.cc:82-87 | The cursor over the flat sequence moves to the first entry at or above the target. |
| `TwoLevel.TwoLevelIterator.SeekToFirst` | InstaGLAM/Pods/leveldb-library/table/two_level_iterator.cc:89-94 | The cursor moves to the first entry of the flat sequence. |
| `TwoLevel.TwoLevelIterator.SeekToLast` | InstaGLAM/Pods/leveldb-library/table/two_level_iterator.cc:96-101 | The cursor moves to the last entry of the flat sequence. |
| `TwoLevel.TwoLevelIterator.Next` | InstaGLAM/Pods/leveldb-library/table/two_level_iterator.cc:103-107 | The cursor moves one entry on. |
| `TwoLevel.TwoLevelIterator.KeyIsCurrent` | InstaGLAM/Pods/leveldb-library/table/two_level_iterator.cc:32-35 | The key of the data iterator is that of the flat sequence at the cursor. |
| `TwoLevel.TwoLevelIterator.Prev` | InstaGLAM/Pods/leveldb-library/table/two_level_iterator.cc:109-113 | The cursor moves one entry back. |
| `TwoLevel.LevelIsSeparated` | InstaGLAM/Pods/leveldb-library/db/version_set.cc:164-209 | A level's files under their largest keys satisfy what the two-level iterator needs. |
| `TwoLevel.LevelIsFlat` | InstaGLAM/Pods/leveldb-library/db/version_set.cc:223-228 | A level's concatenating iterator ranges over its files' entries in order. |
| `Separators.BeforeIsTotal` | InstaGLAM/Pods/leveldb-library/util/comparator.cc:25-27 | Bytewise comparison is a strict total order. |
| `Separators.BeforeIsTransitive` | InstaGLAM/Pods/leveldb-library/util/comparator.cc:25-27 | Bytewise comparison is transitive. |
| `Separators.FindShortestSeparator` | InstaGLAM/Pods/leveldb-library/util/comparator.cc:29-50 | The result is the start itself or a string after it and no longer; it is before the limit if the start is. |
| `Separators.FindShortSuccessor` | InstaGLAM/Pods/leveldb-library/util/comparator.cc:52-64 | The result is the key itself, exactly when it is a run of 0xff bytes, or a string after it and no longer. |
| `Separators.ShortestSeparatorIsShortest` | InstaGLAM/Pods/leveldb-library/util/comparator.cc:29-50 | It is shortened exactly when the first different byte can be raised below the limit's, and then no string from the start up to the limit is shorter. |
| `Separators.ShortSuccessorIsShortest` | InstaGLAM/Pods/leveldb-library/util/comparator.cc:52-64 | No string after the key is shorter than its successor, unless the key cannot be shortened. |
| `Separators.SeparatorOf` | InstaGLAM/Pods/leveldb-library/db/dbformat.cc:69-86 | The internal separator is below the limit, and is the start itself or lies strictly between the two user keys. |
| `Separators.SuccessorOf` | InstaGLAM/Pods/leveldb-library/db/dbformat.cc:88-101 | The internal successor is the key itself or has a greater, shorter user key. |
| `Separators.SeparatorShortensIff` | InstaGLAM/Pods/leveldb-library/db/dbformat.cc:69-86 | The internal key is shortened exactly when the first byte in which the user keys differ can be raised below the limit's and more bytes follow it, and then sorts before all entries of the shortened key. |
| `Separators.SuccessorShortensIff` | InstaGLAM/Pods/leveldb-library/db/dbformat.cc:88-101 | The internal key is shortened exactly when bytes follow the first one that is not 0xff. |
| `Tables.IndexAscends` | InstaGLAM/Pods/leveldb-library/table/table_builder.cc:94-112 | The index key of a block is greater than the one before it. |
| `Tables.IndexGrows` | InstaGLAM/Pods/leveldb-library/table/table_builder.cc:94-112 | Writing the pending index entry when the next key is known keeps every index key between the blocks around it. |
| `Tables.TableCloses` | InstaGLAM/Pods/leveldb-library/table/table_builder.cc:213-220 | With the last index entry the blocks hold exactly what was added, and every index key separates its block from the next. |
| `TableBuilds.SeparatorKeyFits` | InstaGLAM/Pods/leveldb-library/db/dbformat.cc:69-86 | The separator of two encoded keys is an encoded key that is the first of them or lies strictly between their user keys. |
| `TableBuilds.BuiltOk` | InstaGLAM/Pods/leveldb-library/table/table_builder.cc:94-139 | Whatever sorted pairs are added, every block lies in the file with its trailer, every index entry points at its block, and index keys fit. |
| `TableBuilds.ClosedIsOk` | InstaGLAM/Pods/leveldb-library/table/table_builder.cc:198-220 | A closed table holds exactly the pairs, in order, in blocks that its index keys separate. |
| `TableBuilders.TableBuilder.Add` | InstaGLAM/Pods/leveldb-library/table/table_builder.cc:94-123 | With the pair added the file, the open block, the index block and the filter are those that the pairs determine. |
| `TableBuilders.TableBuilder.Flush` | InstaGLAM/Pods/leveldb-library/table/table_builder.cc:125-139 | The open block is written with its trailer, an index entry becomes due, and the filter starts the next block. |
| `TableBuilders.TableBuilder.FileSize` | InstaGLAM/Pods/leveldb-library/table/table_builder.cc:263 | The size counts the blocks written and not the open one. |
| `TableBuilders.TableBuilder.Finish` | InstaGLAM/Pods/leveldb-library/table/table_builder.cc:198-253 | The file is the one the pairs determine, with filter block, metaindex block, index block and footer; the filter matches every user key at its block's offset. |
| `TableFormat.BlockReads` | InstaGLAM/Pods/leveldb-library/table/format.cc:64-139 | A block written with type and checksum is read back, whether or not the checksum is verified. |
| `TableFormat.WriteRawBlock` | InstaGLAM/Pods/leveldb-library/table/table_builder.cc:177-194 | Contents, type and masked checksum, extended by the type, are appended, and the handle points at them. |
| `TableFormat.FooterRoundTrip` | InstaGLAM/Pods/leveldb-library/table/format.cc:31-62 | The footer has 48 bytes and gives both handles back. |
| `TableSizes.TwoItemsSize` | InstaGLAM/Pods/leveldb-library/table/block_builder.cc:69-106 | The size of a block with a second entry that takes part of its key from the first. |
| `TableSizes.FinishedBound` | InstaGLAM/Pods/leveldb-library/table/table_builder.cc:198-253 | A finished table without a filter has less than a hundred bytes beside its blocks and index entries. |
| `TableFiles.Open` | InstaGLAM/Pods/leveldb-library/table/table.cc:38-134 | Opening a finished file finds footer, index and, for a policy of the name in the file, the filter, which denies no key added. |
| `TableFiles.Table.Get` | InstaGLAM/Pods/leveldb-library/table/table.cc:216-244 | A lookup in an opened table finds the newest visible entry of the user key among all pairs added. |
| `TableFiles.WriteThenGet` | InstaGLAM/Pods/leveldb-library/table/table.cc:216-244 | Any sorted pairs, written with any options, with or without a filter, into a file below 4GB: a lookup finds what the pairs hold. |
| `BadInputs.OverlongNumberFails` | InstaGLAM/Pods/leveldb-library/util/coding.cc:104-164 | A number that does not end within five bytes, or ten for 64 bits, fails. |
| `BadInputs.WideNumberWraps` | InstaGLAM/Pods/leveldb-library/util/coding.cc:104-164 | Bits beyond 32 or 64 are dropped. |
| `BadInputs.CutStringFails` | InstaGLAM/Pods/leveldb-library/util/coding.cc:166-187 | No proper prefix of a length-prefixed string reads. |
| `BadInputs.GarbageIsCorrupt` | InstaGLAM/Pods/leveldb-library/db/write_batch.cc:42-80 | Operations before something unreadable are handed over, and then the batch is corrupted. |
| `BadInputs.UnreadableOps` | InstaGLAM/Pods/leveldb-library/db/write_batch.cc:42-80 | Unknown tags, operations cut short and batches shorter than their header are unreadable. |
| `BadInputs.UnknownFieldFails` | InstaGLAM/Pods/leveldb-library/db/version_edit.cc:109-205 | An unknown tag ends the decoding of an edit with an error. |
| `BadInputs.EntryLengths` | InstaGLAM/Pods/leveldb-library/table/block.cc:48-74 | Entries decode from any three lengths, unless key delta and value, summed in 32 bits, exceed the block. |
| `BadInputs.BlockOpens` | InstaGLAM/Pods/leveldb-library/table/block.cc:19-38 | The last four bytes of a block count its restart points: too many make it bad, none empty. |
| `BadInputs.DamagedBlockFails` | InstaGLAM/Pods/leveldb-library/table/format.cc:64-139 | A block outside the file, one of another type and, with checksums verified, one whose checksum does not hold are refused; without verification the checksum does not matter. |
| `BadInputs.WrongMagicFails` | InstaGLAM/Pods/leveldb-library/table/format.cc:42-62 | A footer without the magic number is refused. |
| `BadInputs.MalformedFilterDeniesNothing` | InstaGLAM/Pods/leveldb-library/table/filter_block.cc:76-103 | Filter contents that are too short or point behind their end deny no key. |
| `KnownBytes.LongNumber` | InstaGLAM/Pods/leveldb-library/util/coding.cc:9-41 | Fixed-width numbers have their lowest byte first. |
| `KnownBytes.Masks` | InstaGLAM/Pods/leveldb-library/util/crc32c.h:20-38 | The mask of three checksums, from the constant. |
| `KnownBytes.ChecksumOfA` | InstaGLAM/Pods/leveldb-library/util/crc32c.cc:260-380 | The CRC32C of a one-letter string. |
| `KnownBytes.Batch` | InstaGLAM/Pods/leveldb-library/db/write_batch.cc:5-14 | The bytes of a batch with one put and one deletion. |
| `KnownBytes.NumberFields` | InstaGLAM/Pods/leveldb-library/db/version_edit.cc:14-25 | The tags of the number fields of an edit. |
| `KnownBytes.OtherFields` | InstaGLAM/Pods/leveldb-library/db/version_edit.cc:14-25 | The tags and layouts of the other fields of an edit. |
| `KnownBytes.Block` | InstaGLAM/Pods/leveldb-library/table/block_builder.cc:5-27 | The bytes of a block with two entries that share a byte. |
| `KnownBytes.FilterBlock` | InstaGLAM/Pods/leveldb-library/table/filter_block.cc:51-74 | The bytes of a filter block around one filter. |
| `KnownBytes.BloomOfOneKey` | InstaGLAM/Pods/leveldb-library/util/bloom.cc:28-54 | The bytes of a filter with one key and two probes. |
| `KnownBytes.FilterName` | InstaGLAM/Pods/leveldb-library/table/table_builder.cc:215-221 | The metaindex key of a filter policy. |
| `KnownBytes.TableBytes` | InstaGLAM/Pods/leveldb-library/table/format.h:74-80 | Block type, block handle, magic number and the place of the handles in the footer. |
| `KnownBytes.InternalKey` | InstaGLAM/Pods/leveldb-library/db/dbformat.cc:14-25 | The bytes of an internal key. |
| `Tables.TightIsSeparated` | InstaGLAM/Pods/leveldb-library/table/table_builder.cc:94-123 | Index keys lie at or above their block's entries and below those of all later blocks. |
| `Tables.OneBlockSuffices` | InstaGLAM/Pods/leveldb-library/table/table.cc:216-244 | The newest visible entry of the sought user key is in the block the index leads to, or nowhere in the table. |
| `Tables.InternalGet` | InstaGLAM/Pods/leveldb-library/table/table.cc:216-244 | Looking in one block, and in none if the filter denies the key, finds the sought user key's entry exactly when the table has it. |
| `Crc.ExtendComposes` | InstaGLAM/Pods/leveldb-library/util/crc32c.h:16-22 | Extending by two strings in turn is extending by their concatenation. |
| `Crc.UnmaskMask` | InstaGLAM/Pods/leveldb-library/util/crc32c.h:24-38 | Unmask undoes Mask on all 32-bit values. |
| `Crc.ByteLookup` | InstaGLAM/Pods/leveldb-library/util/crc32c.cc:286-291 | One table lookup advances the register by a byte. |
| `Crc.StrideLookup` | InstaGLAM/Pods/leveldb-library/util/crc32c.cc:293-300 | Four stride-table lookups advance a lane by sixteen bytes. |
| `Crc.RegisterWord` | InstaGLAM/Pods/leveldb-library/util/crc32c.cc:312-320 | Processing a little-endian word at once is processing its four bytes. |
| `Crc.LaneStep` | InstaGLAM/Pods/leveldb-library/util/crc32c.cc:293-310 | Moving a lane on by a stride and reading a word into it amounts to processing the word. |
| `Crc.ByteTableEntries` | InstaGLAM/Pods/leveldb-library/util/crc32c.cc:18-62 | The byte table's entries at powers of two, which fix a linear table, are the source's. |
| `Crc.Extend` | InstaGLAM/Pods/leveldb-library/util/crc32c.cc:276-377 | The aligned, four-lane computation equals the bit-serial CRC32C (section 12.1 of RFC 3720) for every length and alignment. |
| `Log.HeaderRoundTrip` | InstaGLAM/Pods/leveldb-library/db/log_writer.cc:82-98 | Length, type and checksum are read back from a header as written. |
| `Log.Writer.AddRecord` | InstaGLAM/Pods/leveldb-library/db/log_writer.cc:34-80 | A record is appended as the specified fragments, from any position in a block. |
| `Log.Writer.EmitPhysicalRecord` | InstaGLAM/Pods/leveldb-library/db/log_writer.cc:82-108 | A header with the checksum of type and payload, then the payload, is appended. |
| `Log.Reader.ReadPhysicalRecord` | InstaGLAM/Pods/leveldb-library/db/log_reader.cc:189-271 | The buffered reader computes the specified physical record and reports the specified corruptions, on any file. |
| `Log.Reader.ReadRecord` | InstaGLAM/Pods/leveldb-library/db/log_reader.cc:56-174 | The reader computes the specified logical record and reports the specified corruptions, on any file. |
| `LogReplay.PhysicalReads` | InstaGLAM/Pods/leveldb-library/db/log_reader.cc:189-271 | A fragment on the file whole is read as written; one cut short reads as the end of the file, not as a corruption. |
| `LogReplay.RecordReads` | InstaGLAM/Pods/leveldb-library/db/log_reader.cc:56-174 | A record is read back exactly when its last fragment survived whole. |
| `LogReplay.CrashKeepsWholeRecords` | InstaGLAM/Pods/leveldb-library/db/log_reader.cc:56-271 | Reading any prefix of a log returns exactly the records that lie whole in it and reports no corruption. |
| `LogReplay.LogRoundTrip` | InstaGLAM/Pods/leveldb-library/db/log_writer.cc:34-108 | Reading a complete log returns the records written. |
| `LogReplay.WriteThenRead` | InstaGLAM/Pods/leveldb-library/db/log_writer.cc:34-108 | Writer and reader run together over a file cut at any size return exactly the surviving records. |
| `LogDamage.AllReadIsSound` | InstaGLAM/Pods/leveldb-library/db/log_reader.cc:56-174 | Whatever bytes a log holds, every record read with checksums verified is made of fragments of the file, in order, whose checksums hold. |
| `LogDamage.DamagedIsSkipped` | InstaGLAM/Pods/leveldb-library/db/log_reader.cc:243-257 | A fragment whose checksum does not hold is never delivered: the rest of its buffer is reported, a record in progress is dropped, and reading goes on in the next block. |
| `LogDamage.OverlongIsSkipped` | InstaGLAM/Pods/leveldb-library/db/log_reader.cc:217-233 | A length beyond the buffer is reported and passed over in a whole block, and ends the reading in the last, short one. |
| `LogDamage.ZerosAreSkipped` | InstaGLAM/Pods/leveldb-library/db/log_reader.cc:235-241 | Preallocated zeros are passed over without a report. |
| `LogDamage.WholeIsDelivered` | InstaGLAM/Pods/leveldb-library/db/log_reader.cc:92-106 | An intact whole record is delivered; an unfinished one before it is reported. |
| `LogDamage.FirstBegins` | InstaGLAM/Pods/leveldb-library/db/log_reader.cc:108-121 | An intact first fragment begins a record; an unfinished one before it is reported. |
| `LogDamage.MiddleExtends` | InstaGLAM/Pods/leveldb-library/db/log_reader.cc:123-130 | An intact middle fragment extends a record, or is reported if there is none. |
| `LogDamage.LastEnds` | InstaGLAM/Pods/leveldb-library/db/log_reader.cc:132-142 | An intact last fragment ends a record, or is reported if there is none. |
| `LogDamage.UnknownIsDropped` | InstaGLAM/Pods/leveldb-library/db/log_reader.cc:153-171 | A fragment of unknown type is reported with what was gathered. |
| `SkipLists.PublishInserts` | InstaGLAM/Pods/leveldb-library/db/skiplist.h:361-367 | Publishing a node whose own link is set inserts it into the level's list. |
| `SkipLists.WriterKeepsLists` | InstaGLAM/Pods/leveldb-library/db/skiplist.h:337-368 | After every single store of an insertion each level is a sorted list and a sublist of the level below. |
| `SkipLists.WriterStaysOk` | InstaGLAM/Pods/leveldb-library/db/skiplist.h:337-368 | After every store the remembered predecessors are still the last nodes before the key on the levels to come. |
| `SkipListReaders.ReadKeepsSearch` | InstaGLAM/Pods/leveldb-library/db/skiplist.h:261-322 | A load keeps a search standing on a node of its level before its target, and when it stops no node lies between the two nodes it stops at. |
| `SkipListReaders.WriteKeepsSearch` | InstaGLAM/Pods/leveldb-library/db/skiplist.h:337-368 | A store leaves a running search standing where it was. |
| `SkipListReaders.StepKeepsWorld` | InstaGLAM/Pods/leveldb-library/db/skiplist.h:337-368 | Every step of the writer or of the search keeps lists, writer and search in order. |
| `SkipListReaders.NeverStuck` | InstaGLAM/Pods/leveldb-library/db/skiplist.h:261-281 | A running search or insertion can always take its next step: the links it needs exist. |
| `SkipListReaders.SearchesSkipNothing` | InstaGLAM/Pods/leveldb-library/db/skiplist.h:261-322 | In every interleaving, a search that has stopped returns a key at or above its target and one below it, and skips no node present when it began. |
| `SkipListOps.SkipList.Find` | InstaGLAM/Pods/leveldb-library/db/skiplist.h:261-322 | The search returns the last node before the target and the first one after, and the last node before it on every level. |
| `SkipListOps.SkipList.FindGreaterOrEqual` | InstaGLAM/Pods/leveldb-library/db/skiplist.h:261-281 | The earliest node at or after the key, or none if there is none. |
| `SkipListOps.SkipList.FindLessThan` | InstaGLAM/Pods/leveldb-library/db/skiplist.h:284-302 | The latest node before the key, or the head. |
| `SkipListOps.SkipList.FindLast` | InstaGLAM/Pods/leveldb-library/db/skiplist.h:305-322 | The last node, or the head. |
| `SkipListOps.SkipList.Contains` | InstaGLAM/Pods/leveldb-library/db/skiplist.h:371-378 | Whether the key is in the list. |
| `SkipListOps.SkipList.Insert` | InstaGLAM/Pods/leveldb-library/db/skiplist.h:337-368 | For any height, the key is added and nothing else changes. |
| `WriteBatches.NumberedConcat` | InstaGLAM/Pods/leveldb-library/db/write_batch.cc:144-148 | Appending batches appends their numbered entries. |
| `GroupCommit.BuildBatchGroup` | InstaGLAM/Pods/leveldb-library/db/db_impl.cc:1260-1306 | The group is the longest prefix of the queue within the size limit with no sync write under a non-sync leader, and its batches are appended in queue order. |
| `GroupCommit.GroupCoversSyncs` | InstaGLAM/Pods/leveldb-library/db/db_impl.cc:1281-1285 | A sync write never rides in a group whose leader does not sync. |
| `GroupCommit.GroupLimits` | InstaGLAM/Pods/leveldb-library/db/db_impl.cc:1258-1304 | The byte limits of a group, spelled out, and the two reasons for which alone it ends before the queue does. |
| `GroupCommit.AcksAre` | InstaGLAM/Pods/leveldb-library/db/db_impl.cc:1239-1248 | Each writer of a finished group gets the leader's status and its own range of the group's sequence numbers. |
| `GroupCommit.StepKeepsInv` | InstaGLAM/Pods/leveldb-library/db/db_impl.cc:1185-1256 | Every arrival and every step of a leader keeps the group-commit invariant. |
| `GroupCommit.WritersAreServed` | InstaGLAM/Pods/leveldb-library/db/db_impl.cc:1185-1256 | Writers are answered in arrival order, each once; a successful one is in the log and the memtable at sequence numbers of its own, and on disk if it asked for a sync. |
| `GroupCommit.ReadersSeeWholeGroups` | InstaGLAM/Pods/leveldb-library/db/db_impl.cc:1199-1236 | What is visible at the last sequence number is exactly the batches of the writers answered with success: a group is never seen in part. |
| `GroupCommit.SwitchRequestCanRide` | InstaGLAM/Pods/leveldb-library/db/db_impl.cc:1287-1304 | A request for a memtable switch joins a group, and is answered without a switch, exactly when every request queued before it joins. |
| `GroupFailures.AfterAFailedSync` | InstaGLAM/Pods/leveldb-library/db/db_impl.cc:1217-1232 | Over all runs: once a sync has failed, nothing more is logged, inserted or synced, and every writer answered from then on is told of a failure. |
| `GroupFailures.SyncedIsBySync` | InstaGLAM/Pods/leveldb-library/db/db_impl.cc:1217-1222 | What counts as synced is what the log held at the last successful sync. |
| `GroupFailures.NoFailureMeansSuccess` | InstaGLAM/Pods/leveldb-library/db/db_impl.cc:1199-1256 | Over all runs: while room is found and appending and syncing succeed, every writer is answered with success. |
| `GroupFailures.FailedGroupIsNotApplied` | InstaGLAM/Pods/leveldb-library/db/db_impl.cc:1213-1248 | After a failed append the whole group fails and the memtable is left alone, but its sequence numbers are used up and later writers are not turned away. |
| `GroupFailures.LeaderGoesOn` | InstaGLAM/Pods/leveldb-library/db/db_impl.cc:1199-1256 | In every reachable state a leader can take the step due, whatever its outcome, up to answering its group. |
| `HandleTables.HandleTable.FindPointer` | InstaGLAM/Pods/leveldb-library/util/cache.cc:114-120 | The walk stops at the entry with the key and hash if the table has one, else at the end of its bucket. |
| `HandleTables.HandleTable.Insert` | InstaGLAM/Pods/leveldb-library/util/cache.cc:78-92 | The table's map gains or replaces one entry, and the replaced handle is returned. |
| `HandleTables.HandleTable.Remove` | InstaGLAM/Pods/leveldb-library/util/cache.cc:94-102 | The table's map loses one entry, which is returned. |
| `HandleTables.HandleTable.Resize` | InstaGLAM/Pods/leveldb-library/util/cache.cc:122-146 | Rehashing keeps the map, in a power-of-two number of buckets. |
| `LruCaches.CoreChanges` | InstaGLAM/Pods/leveldb-library/util/cache.cc:217-237 | Whatever happens to a handle's references, cached entries stay on the list their reference count calls for, usage stays the sum of their charges, and the deleter has run once for exactly the unreferenced handles. |
| `LruCaches.LRUCache.Ref` | InstaGLAM/Pods/leveldb-library/util/cache.cc:217-223 | A reference more, with the entry moved to the in-use list if it was unused. |
| `LruCaches.LRUCache.Unref` | InstaGLAM/Pods/leveldb-library/util/cache.cc:225-237 | A reference less; the last one runs the deleter, and the cache's own moves the entry to the LRU list. |
| `LruCaches.LRUCache.FinishErase` | InstaGLAM/Pods/leveldb-library/util/cache.cc:305-316 | The entry leaves its list and the usage; it is deleted now or when its last user releases it. |
| `LruCaches.LRUCache.Lookup` | InstaGLAM/Pods/leveldb-library/util/cache.cc:252-259 | A handle is found if and only if the cached map has the key, with its value; it gains one reference, and leaves the LRU list if it was unused. |
| `LruCaches.LRUCache.Release` | InstaGLAM/Pods/leveldb-library/util/cache.cc:261-264 | One reference less and nothing else: the handle is deleted if it was the last, and goes to the end of the LRU list if only the cache's is left. |
| `LruCaches.LRUCache.Insert` | InstaGLAM/Pods/leveldb-library/util/cache.cc:266-303 | The value is cached, usage is within capacity or no entry is unused, and only the oldest unused entries were evicted, no more of them than needed; all other names stay. |
| `LruCaches.LRUCache.Erase` | InstaGLAM/Pods/leveldb-library/util/cache.cc:318-321 | The cached map loses the key. |
| `LruCaches.LRUCache.Prune` | InstaGLAM/Pods/leveldb-library/util/cache.cc:323-333 | All unused entries are deleted, oldest first; entries in use stay. |
| `LruCaches.LRUCache.MakeRoom` | InstaGLAM/Pods/leveldb-library/util/cache.cc:293-300 | The entries evicted are the first of the LRU list, no more than are needed, and exactly their names leave the cached map. |
| `LruOrder.OldestComesFirst` | InstaGLAM/Pods/leveldb-library/util/cache.cc:185-188 | After any uses, releases and removals the LRU list is in the order of the last releases, so the entry evicted first is the least recently used one. |
| `LruOrder.UnusedIff` | InstaGLAM/Pods/leveldb-library/util/cache.cc:217-237 | An entry is on the LRU list exactly when nothing has happened to it since its last release. |
| `LruOrder.WithoutIs` | InstaGLAM/Pods/leveldb-library/util/cache.cc:239-242 | Taking an entry off a list leaves the others in their places. |
| `Cleanup.StepKeepsInv` | InstaGLAM/Pods/leveldb-library/db/db_impl.cc:223-278 | Every step of clients and of the background thread keeps all needed files on disk and reference counts exact. |
| `Cleanup.DeleteIsSafeIff` | InstaGLAM/Pods/leveldb-library/db/db_impl.cc:535-566 | Deleting obsolete files keeps all needed files if and only if no finished table is neither pending nor listed by a version, as happens between WriteLevel0Table and the end of LogAndApply. |
| `Cleanup.OnlyLiveRemain` | InstaGLAM/Pods/leveldb-library/db/db_impl.cc:224-278 | After deletion exactly those tables remain that some version lists or that are being produced, and exactly the logs from the log number on. |
| `Cleanup.QuietDeleteLeavesCurrent` | InstaGLAM/Pods/leveldb-library/db/db_impl.cc:224-278 | When nothing is being produced and no old version is held, exactly the current version's tables remain. |
| `Cleanup.NothingNeededIsDeleted` | InstaGLAM/Pods/leveldb-library/db/db_impl.cc:223-278 | Over all runs, no table of a live version or of running work is deleted, and no log with writes not yet in a table, which recovery would replay. |
| `HeldVersions.HeldVersionStays` | InstaGLAM/Pods/leveldb-library/db/db_impl.cc:223-278 | Over all runs: a version a client holds keeps its tables, and they stay on disk, until clients let go of it. |
| `HeldVersions.InstallReplaces` | InstaGLAM/Pods/leveldb-library/db/version_set.cc:784-800 | The version a compaction installs lists its outputs in the place of its inputs, and of the older versions exactly those that clients hold are left. |
| `HeldVersions.ReplacedTableStaysIff` | InstaGLAM/Pods/leveldb-library/db/db_impl.cc:232-278 | After the deletion that follows a compaction its outputs are there, and a table it replaced is there if and only if a client holds a version that lists it. |
| `HeldVersions.FlushAdds` | InstaGLAM/Pods/leveldb-library/db/db_impl.cc:535-566 | An installed flush adds its table to the current version, and the flushed memtable's log goes with the deletion that follows, while the current log stays. |
| `Ranks.RankEmbeds` | InstaGLAM/Pods/leveldb-library/util/comparator.cc:25-27 | Byte strings embed into the model's keys: one is before another exactly when its rank is below, and ranks are distinct. |
| `Ranks.UnpackedEmbeds` | InstaGLAM/Pods/leveldb-library/db/dbformat.cc:51-67 | The order of internal keys with byte-string user keys and packed trailers is the order of the model's internal keys. |
| `Tables.SeparatorFits` | InstaGLAM/Pods/leveldb-library/db/dbformat.cc:69-86 | The separator computed on byte strings is the key itself or lies strictly between the two user keys in the model's order. |
| `Tables.BlockGetIsFlat` | InstaGLAM/Pods/leveldb-library/table/table.cc:216-244 | A lookup through index, filter and one block finds the sought user key's entry exactly when the flat sequence has it. |
| `Coding.Fixed32RoundTrip` | InstaGLAM/Pods/leveldb-library/util/coding.cc:9-18 | Four bytes give the 32-bit number back. |
| `Coding.WordAt` | InstaGLAM/Pods/leveldb-library/table/block_builder.cc:62-70 | Number i of an array of fixed-width numbers is read back at offset 4i. |
| `Coding.Varint32RoundTrip` | InstaGLAM/Pods/leveldb-library/util/coding.cc:47-73 | A 32-bit varint takes at most five bytes and reads back, whatever follows it. |
| `Coding.Varint64RoundTrip` | InstaGLAM/Pods/leveldb-library/util/coding.cc:81-90 | A 64-bit varint takes at most ten bytes and reads back, whatever follows it. |
| `Coding.TruncatedVarintFails` | InstaGLAM/Pods/leveldb-library/util/coding.cc:112-128 | A varint cut short does not parse. |
| `Coding.EncodeVarint32` | InstaGLAM/Pods/leveldb-library/util/coding.cc:47-73 | The five spelled-out cases produce the varint. |
| `Coding.EncodeVarint64` | InstaGLAM/Pods/leveldb-library/util/coding.cc:81-90 | The loop produces the varint. |
| `Coding.VarintLength` | InstaGLAM/Pods/leveldb-library/util/coding.cc:103-110 | The loop counts the bytes of the varint. |
| `Coding.GetVarintFallback` | InstaGLAM/Pods/leveldb-library/util/coding.cc:112-157 | The shift loop, dropping bits beyond the width, computes the specified number and rest, or fails, on any input. |
| `Coding.PrefixedRoundTrip` | InstaGLAM/Pods/leveldb-library/util/coding.cc:98-101 | A length-prefixed string reads back, whatever follows it. |
| `BatchBytes.BatchReads` | InstaGLAM/Pods/leveldb-library/db/write_batch.cc:42-80 | A batch read back yields exactly its operations in order, and its sequence number. |
| `BatchBytes.WrongCountIsCorrupt` | InstaGLAM/Pods/leveldb-library/db/write_batch.cc:75-79 | A batch with any count in its header is rejected exactly when the count is wrong, after its operations have been handed over. |
| `BatchBytes.WriteBatch.SetSequence` | InstaGLAM/Pods/leveldb-library/db/write_batch.cc:94-96 | The sequence number is replaced, and the operations stay. |
| `BatchBytes.WriteBatch.Put` | InstaGLAM/Pods/leveldb-library/db/write_batch.cc:98-103 | The bytes become those of the batch with the put appended. |
| `BatchBytes.WriteBatch.Append` | InstaGLAM/Pods/leveldb-library/db/write_batch.cc:144-148 | The bytes become those of both batches' operations, under the first one's sequence number. |
| `BatchBytes.WriteBatch.Iterate` | InstaGLAM/Pods/leveldb-library/db/write_batch.cc:42-80 | The loop hands over the specified operations and returns the specified status, on any bytes. |
| `VersionEdits.BodyReads` | InstaGLAM/Pods/leveldb-library/db/version_edit.cc:107-194 | A field reads back, whatever follows it, exactly when its level exists. |
| `VersionEdits.DecodeFields` | InstaGLAM/Pods/leveldb-library/db/version_edit.cc:107-205 | Decoding the fields of a record has their effects in order, and succeeds exactly when all levels exist. |
| `VersionEdits.DecodeEncoded` | InstaGLAM/Pods/leveldb-library/db/version_edit.cc:41-205 | An encoded edit decodes to itself, after the compaction pointers that were there before, which Clear leaves; it succeeds exactly when all its levels exist. |
| `VersionEdits.VersionEdit.EncodeTo` | InstaGLAM/Pods/leveldb-library/db/version_edit.cc:41-85 | The record is the encoding of the edit's fields, for any order of its set of deleted files. |
| `VersionEdits.VersionEdit.DecodeFrom` | InstaGLAM/Pods/leveldb-library/db/version_edit.cc:107-205 | The loop decodes as specified, on any bytes. |
| `EditCuts.CutFieldFails` | InstaGLAM/Pods/leveldb-library/db/version_edit.cc:107-206 | A record that ends within a field, of any kind and at any byte, fails, and what was read before stays in the edit. |
| `EditCuts.CutRecordIff` | InstaGLAM/Pods/leveldb-library/db/version_edit.cc:107-206 | A record cut at any byte decodes if and only if it is cut between two fields. |
| `Blocks.DecodeEntryFast` | InstaGLAM/Pods/leveldb-library/table/block.cc:54-74 | The fast path for three one-byte numbers and the slow path decode alike. |
| `Blocks.EntryDecodes` | InstaGLAM/Pods/leveldb-library/table/block.cc:224-251 | Decoding at an entry's offset yields its shared length, its key delta and its value. |
| `BlockBuilders.BlockBuilder.Add` | InstaGLAM/Pods/leveldb-library/table/block_builder.cc:72-106 | The block becomes the one with the pair appended, at a restart point exactly every interval entries. |
| `BlockBuilders.BlockBuilder.Finish` | InstaGLAM/Pods/leveldb-library/table/block_builder.cc:62-70 | The contents are the entries followed by the restart offsets and their number. |
| `BlockBuilders.BlockBuilder.CurrentSizeEstimate` | InstaGLAM/Pods/leveldb-library/table/block_builder.cc:56-60 | The estimate is the exact size the finished block will have. |
| `BlockBuilders.BlockBuilder.Reset` | InstaGLAM/Pods/leveldb-library/table/block_builder.cc:47-54 | The builder is as new. |
| `BlockIters.ImageOpens` | InstaGLAM/Pods/leveldb-library/table/block.cc:24-39 | A finished block below 4GB opens with its entries and restart points where they are. |
| `BlockIters.Iter.ParseNextKey` | InstaGLAM/Pods/leveldb-library/table/block.cc:224-251 | The cursor moves to the entry that begins where the value ended, with its whole key, or to the end. |
| `BlockIters.Iter.Seek` | InstaGLAM/Pods/leveldb-library/table/block.cc:163-201 | Binary search over restart points and a linear scan end at the first entry at or after the target. |
| `BlockIters.Iter.Next` | InstaGLAM/Pods/leveldb-library/table/block.cc:137-140 | The cursor moves one entry on. |
| `BlockIters.Iter.Prev` | InstaGLAM/Pods/leveldb-library/table/block.cc:142-161 | The cursor moves one entry back, through the restart point before it. |
| `BlockIters.Iter.SeekToLast` | InstaGLAM/Pods/leveldb-library/table/block.cc:208-213 | The cursor moves to the last entry. |
| `BlockRoundTrips.RoundTrip` | InstaGLAM/Pods/leveldb-library/table/block_builder.cc:62-106 | Any sorted pairs, with any restart interval and order, read back forwards and backwards from the finished block. |
| `Blooms.MatchesIff` | InstaGLAM/Pods/leveldb-library/util/bloom.cc:28-80 | A key is matched exactly when each of its probes is a probe of an added key: every added key is, and an empty list matches nothing. |
| `Blooms.DoubleHashing` | InstaGLAM/Pods/leveldb-library/util/bloom.cc:45-52 | Probe number j is j times the hash rotated by 17 bits beyond the hash, in 32 bits. |
| `Blooms.OtherContents` | InstaGLAM/Pods/leveldb-library/util/bloom.cc:56-80 | Fewer than two bytes match nothing; more than 30 probes match everything. |
| `Blooms.BloomFilterPolicy.CreateFilter` | InstaGLAM/Pods/leveldb-library/util/bloom.cc:28-54 | The bits set are exactly those probed by some key, and the filter has the bits per key asked for, at least 64, in whole bytes, and one byte more. |
| `Blooms.BloomFilterPolicy.KeyMayMatch` | InstaGLAM/Pods/leveldb-library/util/bloom.cc:56-80 | The loop answers as specified, on any filter bytes. |
| `FilterBlocks.FilterBlockBuilder.StartBlock` | InstaGLAM/Pods/leveldb-library/table/filter_block.cc:21-27 | Filters are written up to the 2KB of the block's offset; added keys stay covered. |
| `FilterBlocks.FilterBlockBuilder.AddKey` | InstaGLAM/Pods/leveldb-library/table/filter_block.cc:29-33 | The key is added under the offset of the block being built. |
| `FilterBlocks.FilterBlockBuilder.Finish` | InstaGLAM/Pods/leveldb-library/table/filter_block.cc:35-49 | The contents are the filters, their offsets and the base, and every added key is in the group of its block's 2KB. |
| `FilterBlocks.AnswerIs` | InstaGLAM/Pods/leveldb-library/table/filter_block.cc:90-106 | What a finished filter block answers: its 2KB's filter if that holds keys, no if it holds none, yes beyond the last filter. |
| `FilterBlocks.NoFalseNegatives` | InstaGLAM/Pods/leveldb-library/table/filter_block.cc:21-106 | A key added for a block is matched at that block's offset. |
| `TableFilters.BuildFilter` | InstaGLAM/Pods/leveldb-library/table/table_builder.cc:94-139 | Driven as tables are built, the filter block matches every user key of every block at its block's offset. |
| `TableReads.SeekIsLowerBound` | InstaGLAM/Pods/leveldb-library/db/dbformat.cc:51-67 | Seeking a block of encoded internal keys stops where the model's search of its entries stops. |
| `TableFormat.HandleRoundTrip` | InstaGLAM/Pods/leveldb-library/table/format.cc:15-29 | A block handle reads back, whatever follows it. |
| `TableReads.InternalGet` | InstaGLAM/Pods/leveldb-library/table/table.cc:216-244 | On the bytes of a table file, index seek, filter and reading and seeking one block find the newest visible entry of the user key exactly when the table has it. |
| `LsmManifest.StepKeepsLogged` | InstaGLAM/Pods/leveldb-library/db/version_set.cc:801-884 | A step logs the edit that leads to its version and adds no file number twice at a level, or leaves the version alone. |
| `LsmManifest.SnapshotIsLogged` | InstaGLAM/Pods/leveldb-library/db/version_set.cc:1088-1116 | A record of the whole version alone leads to that version. |
| `LsmManifest.ManifestReplays` | InstaGLAM/Pods/leveldb-library/db/version_set.cc:886-1011 | Over every run, replaying the manifest into one Builder gives the current version at every level, and the last counters lie above every file and sequence number in it. |
| `CrashTables.MemOfHolds` | InstaGLAM/Pods/leveldb-library/db/db_impl.cc:418-453 | Replaying writes into a memtable gives a sorted run of exactly these writes. |
| `CrashTables.OneEditStacks` | InstaGLAM/Pods/leveldb-library/db/db_impl.cc:441-486 | Adding all recovered tables in one edit is adding them one after another. |
| `CrashRecovery.SurvivorsAre` | InstaGLAM/Pods/leveldb-library/db/db_impl.cc:323-362 | What recovery replays is what survives of the immutable memtable's log and then of the current one. |
| `CrashRecovery.RecoveredVersion` | InstaGLAM/Pods/leveldb-library/db/db_impl.cc:280-369 | The recovered version is in order and holds the manifest's tables and exactly the surviving writes besides. |
| `CrashRecovery.SyncedSurvives` | InstaGLAM/Pods/leveldb-library/db/db_impl.cc:1214-1222 | A crash loses no write of which the log was ever synced. |
| `CrashRecovery.CrashKeeps` | InstaGLAM/Pods/leveldb-library/db/db_impl.cc:280-489 | Crashing at any point and reopening keeps the invariant that ties memory to disk. |
| `CrashRecovery.StepKeepsSysInv` | InstaGLAM/Pods/leveldb-library/db/db_impl.cc:280-566 | Every step, crashes included, keeps the invariant. |
| `CrashReads.NewerOnTop` | InstaGLAM/Pods/leveldb-library/db/db_impl.cc:371-489 | Storing newer writes, wherever they go, keeps reads exact. |
| `CrashReads.CrashReadsSurvivors` | InstaGLAM/Pods/leveldb-library/db/db_impl.cc:280-489 | After a crash, reads agree with replaying the writes that survived. |
| `CrashReads.StepKeepsDurableReadsIff` | InstaGLAM/Pods/leveldb-library/db/version_set.cc:1403-1462 | What the tables alone would answer stays exact through a step if and only if it is not an install that uncovers an old value in them. |
| `CrashRuns.SysRunsKeepInv` | InstaGLAM/Pods/leveldb-library/db/db_impl.cc:280-566 | Memory and disk fit together in every state of every run, however often it crashed. |
| `CrashRuns.ClientReadsSurviveCrashes` | InstaGLAM/Pods/leveldb-library/db/db_impl.cc:1100-1145 | However often the database crashed before, client reads return what replaying the surviving writes gives, when installed compactions end at user-key boundaries. |
| `CrashRuns.SyncedIsNeverLost` | InstaGLAM/Pods/leveldb-library/db/db_impl.cc:1214-1222 | In every state of every run, every write recorded as synced belongs to the history. |
| `CrashRuns.SyncedStays` | InstaGLAM/Pods/leveldb-library/db/db_impl.cc:1214-1222 | The writes in the log at any sync of any run are in the history of every later state, whatever crashes come in between. |
| `CrashRuns.RecoveredIsPrefixIff` | InstaGLAM/Pods/leveldb-library/db/db_impl.cc:1346-1366 | What a given crash recovers is a prefix of what was written if and only if the old log survived whole or nothing of the current one did. |
| `CrashRuns.EveryCrashKeepsPrefixIff` | InstaGLAM/Pods/leveldb-library/db/db_impl.cc:1346-1366 | Before a crash: every crash recovers a prefix of what was written if and only if there is no immutable memtable, or all of its log is synced, or nothing is in the current log. |
| `CrashRetries.InterruptedRecovery` | InstaGLAM/Pods/leveldb-library/db/db_impl.cc:280-480 | Crashes during recovery, any number of them, leave the recovery that completes as it would have been: all together are one crash step. |
| `CrashRuns.CleanCrashLosesNothing` | InstaGLAM/Pods/leveldb-library/db/db_impl.cc:280-489 | A crash that keeps all log bytes recovers the whole history. |
| `CrashRuns.LaterWriteSurvivesAlone` | InstaGLAM/Pods/leveldb-library/db/db_impl.cc:1356-1360 | A concrete run in which a crash loses an acknowledged write and keeps a later, synced one. |
| `WalBytes.CrashedLogReplays` | InstaGLAM/Pods/leveldb-library/db/db_impl.cc:412-453 | The bytes of a log cut anywhere replay exactly the writes of the batches that lie whole in it; synced batches do. |
| `WalBytes.DamagedReplays` | InstaGLAM/Pods/leveldb-library/db/db_impl.cc:418-442 | Records too short for a batch are skipped, and of a batch whose operations become unreadable those before are inserted. |
| `WalBytes.RecoverLogFile` | InstaGLAM/Pods/leveldb-library/db/db_impl.cc:410-440 | All records of a log are read and their writes inserted; for a log of batches the sequence number returned is the greatest of the one before and the last numbers of the batches, so that no write replayed is numbered above it, and if it grew some write has exactly that number. |
| `PbSpace.EncodesIff` | InstaGLAM/Pods/nanopb/pb_encode.c:853-873 | A message has a wire form if and only if, at every depth, no array or byte string that is written exceeds its space. |
| `PbEncode.VarintBuffer` | InstaGLAM/Pods/nanopb/pb_encode.c:608-628 | The loop that marks every byte and then unmarks the last one writes the number seven bits a byte. |
| `PbEncode.OStream.Write` | InstaGLAM/Pods/nanopb/pb_encode.c:103-137 | A write is counted when sizing; otherwise it is appended whole or fails, leaving the buffer within its space. |
| `PbEncode.OStream.EncodeVarint` | InstaGLAM/Pods/nanopb/pb_encode.c:608-628 | The stream counts or receives exactly the number's bytes, or fails for want of space. |
| `PbEncode.OStream.EncodeNum` | InstaGLAM/Pods/nanopb/pb_encode.c:630-667 | Zigzag, two's complement or fixed width: the stream counts or receives the number's wire form. |
| `PbEncode.EncodeSubmessage` | InstaGLAM/Pods/nanopb/pb_encode.c:717-765 | Both passes together are the length and the bytes of the submessage; sizing and writing agree on success and length. |
| `PbEncode.EncodePacked` | InstaGLAM/Pods/nanopb/pb_encode.c:160-206 | Tag, length and numbers; the length found by width or by a sizing pass is that of the numbers written. |
| `PbEncode.EncodeArray` | InstaGLAM/Pods/nanopb/pb_encode.c:207-236 | The loop emits each entry under the tag, or fails where an entry has no wire form. |
| `PbEncode.EncodeField` | InstaGLAM/Pods/nanopb/pb_encode.c:341-425 | Presence flags, oneof selectors and default values decide whether a field is emitted; arrays beyond their space are refused. |
| `PbEncode.Encode` | InstaGLAM/Pods/nanopb/pb_encode.c:528-550 | The loop over the fields counts or emits exactly the wire form of the message, which is the same in both passes. |
| `PbEncode.GetEncodedSize` | InstaGLAM/Pods/nanopb/pb_encode.c:567-576 | The sizing pass succeeds exactly when the message has a wire form and returns its exact length. |
| `PbEncode.EncodeToBuffer` | InstaGLAM/Pods/nanopb/pb_encode.c:528-550 | Writing into a buffer succeeds exactly when there is a wire form and it fits, and then leaves exactly that. |
| `PbDecoder.IStream.DecodeVarint32` | InstaGLAM/Pods/nanopb/pb_decode.c:187-247 | The loop reads what `PbVarints` says of any bytes, and consumes what it reads. |
| `PbDecoder.IStream.DecodeVarint` | InstaGLAM/Pods/nanopb/pb_decode.c:255-276 | The loop reads ten bytes at most and returns the number modulo 2^64, or fails. |
| `PbDecoder.IStream.DecodeNum` | InstaGLAM/Pods/nanopb/pb_decode.c:1318-1429 | Numbers are narrowed to the field's type, and refused when they do not fit it. |
| `PbDecoder.IStream.SkipField` | InstaGLAM/Pods/nanopb/pb_decode.c:278-330 | Skipping leaves the stream behind a field of the given wire type, or fails. |
| `PbEvolution.DataIsSkipped` | InstaGLAM/Pods/nanopb/pb_decode.c:278-331 | The encoded data of any type is skipped exactly, by its wire type. |
| `PbEvolution.UnknownSlotIsSkipped` | InstaGLAM/Pods/nanopb/pb_decode.c:966-978 | All that is written for a field the reader has no descriptor for, single, repeated or packed, changes neither the struct nor what counts as seen. |
| `PbEvolution.OlderReaderDecodes` | InstaGLAM/Pods/nanopb/pb_decode.c:925-1073 | A message written with any fields unknown to the reader between those it knows decodes to the fields it knows. |
| `PbEvolution.NewerReaderDecodes` | InstaGLAM/Pods/nanopb/pb_decode.c:1030-1070 | A message written without some fields of the reader decodes with these at their defaults, exactly if none of them is one of the first 64 required ones. |
| `PbBadInputs.NarrowIs` | InstaGLAM/Pods/nanopb/pb_decode.c:1329-1412 | Which 64-bit numbers fit a field of each type and size, and as what. |
| `PbBadInputs.TooLargeFails` | InstaGLAM/Pods/nanopb/pb_decode.c:1329-1412 | A number that does not fit its field fails. |
| `PbBadInputs.UnknownWireTypeFails` | InstaGLAM/Pods/nanopb/pb_decode.c:321-331 | A field of a wire type that does not exist is not skipped. |
| `PbBadInputs.TruncatedNumberFails` | InstaGLAM/Pods/nanopb/pb_decode.c:248-297 | A number of any type cut short is neither read nor skipped. |
| `PbVarints.Varint32Is` | InstaGLAM/Pods/nanopb/pb_decode.c:187-247 | For all bytes that mark an end: the low 32 bits of the number they stand for are read, unless a fifth and last byte has more than four bits, or a byte beyond the fifth is neither blank nor, with bit 31 set, full. |
| `PbVarints.NoEndNoNumber` | InstaGLAM/Pods/nanopb/pb_decode.c:187-247 | Bytes that mark no end hold no number. |
| `PbVarints.Varint64Is` | InstaGLAM/Pods/nanopb/pb_decode.c:254-275 | For all bytes that mark an end: the number they stand for is read modulo 2^64, if they are at most ten. |
| `PbVarints.LongNumberFails` | InstaGLAM/Pods/nanopb/pb_decode.c:187-247 | A number from 2^32 up to 2^63 is refused where 32 bits are read. |
| `PbVarints.NegativeIs` | InstaGLAM/Pods/nanopb/pb_decode.c:221-231 | From 2^63 on a number is read, as its low 32 bits, if and only if bit 31 is set and the groups from bit 35 on are each blank or full. |
| `PbVarints.SignExtensionReads` | InstaGLAM/Pods/nanopb/pb_decode.c:221-231 | Every negative 32-bit number extended to 64 bits is read. |
| `PbVarints.NoSignExtensionReads` | InstaGLAM/Pods/nanopb/pb_decode.c:221-231 | A number that extends no 32-bit number is read as one: 2^63 + 2^31 as 2^31. |
| `PbCuts.CutDataFail` | InstaGLAM/Pods/nanopb/pb_decode.c:321-331 | The data of any type, cut short anywhere, are neither decoded nor skipped. |
| `PbCuts.CutFieldFails` | InstaGLAM/Pods/nanopb/pb_decode.c:925-1010 | A message that ends within a field fails, whether the reader knows the field or not. |
| `PbBadInputs.WrongSizes` | InstaGLAM/Pods/nanopb/pb_decode.c:1431-1547 | Bytes and strings beyond their space and fixed-length bytes of another length are refused; empty ones stand for zeros. |
| `PbBadInputs.LongLengthFails` | InstaGLAM/Pods/nanopb/pb_decode.c:372-385 | A length beyond the stream fails, for a substream and for a skipped field. |
| `PbBadInputs.PackedOverflowFails` | InstaGLAM/Pods/nanopb/pb_decode.c:425-453 | A packed array with more numbers than space fails. |
| `PbBadInputs.FullArrayFails` | InstaGLAM/Pods/nanopb/pb_decode.c:454-464 | An entry for a full array fails. |
| `PbBadInputs.UnpackedNumberJoins` | InstaGLAM/Pods/nanopb/pb_decode.c:454-464 | Numbers of an array that come one by one are taken like packed ones. |
| `PbBadInputs.ZeroEndsMessage` | InstaGLAM/Pods/nanopb/pb_decode.c:298-319 | A zero tag ends the message. |
| `PbBadInputs.TagZeroWithoutFields` | InstaGLAM/Pods/nanopb/pb_decode.c:925-975 | In a message without fields, tag zero passes for a field whose data are read as a 32-bit number whatever the wire type. |
| `PbBadInputs.LastValueWins` | InstaGLAM/Pods/nanopb/pb_decode.c:406-423 | The last occurrence of a field that is no message and no array wins. |
| `PbBadInputs.MessagesMerge` | InstaGLAM/Pods/nanopb/pb_decode.c:1503-1525 | A message field that occurs again is merged into what is there, or replaces it in a oneof. |
| `PbBadInputs.OneofDisplaces` | InstaGLAM/Pods/nanopb/pb_decode.c:466-475 | A field of a oneof displaces the others of it and nothing else. |
| `KnownBytes.NumberField` | InstaGLAM/Pods/nanopb/pb_encode.c:608-707 | The documentation's example of a varint field, byte by byte. |
| `KnownBytes.StringField` | InstaGLAM/Pods/nanopb/pb_encode.c:709-715 | The documentation's example of a string field, byte by byte. |
| `KnownBytes.PackedField` | InstaGLAM/Pods/nanopb/pb_encode.c:160-206 | The documentation's example of a packed field, byte by byte. |
| `KnownBytes.WireNumbers` | InstaGLAM/Pods/nanopb/pb_encode.c:583-667 | Zigzag, two's complement and the wire types of the numbers. |
| `KnownBytes.FieldWidths` | InstaGLAM/Pods/nanopb/pb_decode.c:1329-1412 | The numbers that fit signed and unsigned fields of one, two, four and eight bytes. |
| `PbDecoder.IStream.MakeSubstream` | InstaGLAM/Pods/nanopb/pb_decode.c:372-385 | The substream holds the length-delimited bytes and the parent goes on behind them. |
| `PbDecoder.FieldIter.Next` | InstaGLAM/Pods/nanopb/pb_common.c:20-76 | The iterator steps on or wraps round, keeping the number of required fields before it. |
| `PbDecoder.FieldIter.Seek` | InstaGLAM/Pods/nanopb/pb_common.c:78-95 | One round from any position finds the field with a tag exactly when there is one. |
| `PbDecoder.FoundIs` | InstaGLAM/Pods/nanopb/pb_common.c:78-95 | With distinct tags a search from anywhere finds the same field as one from the start. |
| `PbDecoder.FieldIter.CountRequired` | InstaGLAM/Pods/nanopb/pb_decode.c:1036-1048 | Going on to the end of the list counts all required fields, whether or not the last one is. |
| `PbDecoder.BitsDecide` | InstaGLAM/Pods/nanopb/pb_decode.c:1030-1070 | Looking at the first bits decides whether every tracked required field was seen. |
| `PbDecoder.UnpackArray` | InstaGLAM/Pods/nanopb/pb_decode.c:425-453 | The loop over a packed array takes its numbers if they fill the substream and fit the array. |
| `PbDecoder.DecodeStaticField` | InstaGLAM/Pods/nanopb/pb_decode.c:406-480 | What decoding one field makes of the struct's slot: packed and single entries, optional flags, oneofs. |
| `PbDecoder.DecodeData` | InstaGLAM/Pods/nanopb/pb_decode.c:1431-1547 | Bytes, strings, fixed-length bytes and submessages, with the bounds each of them checks. |
| `PbDecoder.DecodeNoinit` | InstaGLAM/Pods/nanopb/pb_decode.c:925-1073 | The loop with its wrapping iterator and its bits for required fields computes the specified message on any bytes, or fails. |
| `PbRoundTrip.Varint32Reads` | InstaGLAM/Pods/nanopb/pb_decode.c:187-247 | The 32-bit reader returns every number below 2^32 that was written. |
| `PbRoundTrip.NumberReads` | InstaGLAM/Pods/nanopb/pb_decode.c:1318-1429 | Every number of every type and size reads back as written, negative and zigzag ones included. |
| `PbRoundTrip.UnpackReads` | InstaGLAM/Pods/nanopb/pb_decode.c:425-453 | A packed array reads back as the numbers packed. |
| `PbRoundTrip.ValueReads` | InstaGLAM/Pods/nanopb/pb_decode.c:1431-1525 | Encoded data of any type reads back, unless a string in it fills its buffer. |
| `PbRoundTrip.StoreRestores` | InstaGLAM/Pods/nanopb/pb_decode.c:466-475 | Storing a field that was written restores its slot and touches no other: at most one field of a oneof is present. |
| `PbRoundTrip.EntriesRead` | InstaGLAM/Pods/nanopb/pb_decode.c:454-464 | The entries of an array are restored one after another, in order. |
| `PbRoundTrip.FieldsRead` | InstaGLAM/Pods/nanopb/pb_decode.c:942-1023 | After the first fields are decoded the rest of the wire form restores the rest of the message. |
| `PbRoundTrip.MessageReads` | InstaGLAM/Pods/nanopb/pb_decode.c:925-1073 | Decoding a wire form restores the message exactly when its strings leave room for their terminators. |
| `PbNormal.NormalMessageIsSame` | InstaGLAM/Pods/nanopb/pb_encode.c:240-336 | The restored message is one the struct can hold, counts as default when the original does, and has the same wire form. |
| `PbNormal.DecodeEncoded` | InstaGLAM/Pods/nanopb/pb_decode.c:1075-1087 | Decoding succeeds if and only if every string leaves room for its terminator; the restored message has the same wire form and restores to itself. |
| `PbNormal.WrittenAreRestored` | InstaGLAM/Pods/nanopb/pb_decode.c:1075-1087 | Every field that is written is restored with all its data, in submessages up to what is not written there; every other field is at its default. |
| `PbNormal.FullStringIsLost` | InstaGLAM/Pods/nanopb/pb_encode.c:875-899 | A concrete message with a string that fills its buffer is encoded, and its wire form is refused. |
| `PbNormal.EncodeThenDecode` | InstaGLAM/Pods/nanopb/pb_decode.c:1075-1087 | Encoder and decoder run one after the other: when both succeed and what is returned. |

## Left out

- User keys: the database model only compares user keys, which are real numbers there; `Ranks` embeds byte strings
  under bytewise comparison. Other comparators are not modelled.
- Sequence numbers: unbounded, with writes enabled only below the 56-bit maximum; the engine never checks for overflow.
- Sizes: where outputs, blocks and memtables are cut, and which file or level a compaction starts from, is
  arbitrary; scoring, seek statistics and `ShouldStopBefore` (in `CompactionCuts`) only influence these choices.
- Errors: reads and writes of files succeed, except in `GroupCommit`, `Cleanup`, `Log`, `LogReplay` and the crashes of
  `Crashes`; corrupted keys and blocks, shutdown during a compaction and `paranoid_checks` are not modelled.
- Manual compaction: `CompactRange` may leave gaps between its inputs, which a concurrent flush can fill.
- Recovery: `reuse_logs` and `repair.cc`, which puts every table at level 0. Crashes keep
  whole files or prefixes of them; a manifest record and the tables it names are durable together.
- Concurrency: the steps of `Lsm` are atomic sections under the mutex. Weak memory orders are modelled as
  sequentially consistent loads and stores, except that a search may start from any stale height.
- DbImpl.DB.Write: one writer at a time and no log; groups of writers are modelled in `GroupCommit`, the log in `Crashes`.
- DbImpl.DB.SwitchMemTable: the new log file is part of the step in `Crashes`, not here.
- DbImpl.DB.CompactMemTable: the recorded log number is part of the step in `Crashes`, not here; failures are in `Cleanup`.
- DbImpl.DB.LogAndApply: the manifest record is part of the step in `Crashes`, not here; failures are in `Cleanup`.
- Cleanup.StepKeepsInv: tables and logs only; manifest and temporary files and the previous log number are not modelled.
- Building.ReplayIsHistory: one level's files; whole versions and the counters are in `LsmManifest`.
- Merger.MergingIterator.Next: assumes, as the source does, that no two children hold the same internal key.
- Log.Reader.ReadRecord: models an initial offset of 0, the only one the engine uses; resynchronisation and the
  reported record offset are not modelled.
- Crc.Extend: the stride tables are defined from the polynomial; hardware acceleration is not modelled.
- Tables.InternalGet: the filter is any function without false negatives; `TableReads` uses the filter block's bytes.
- TableBuilders.TableBuilder.Add: without compression, and file operations succeed; `Abandon` is not modelled.
- TableReads.InternalGet: the block cache is not modelled.
- TableFiles.Open: over files that a builder finished; corrupted ones are not modelled.
- Resurrection.DeletedKeyReturns: default block size and restart interval, no compression and no filter policy.
- BlockIters.Iter.Seek: over blocks that a builder finished; corrupted blocks are not modelled.
- Blooms.BloomFilterPolicy.CreateFilter: the hash is any function to 32 bits, and the number of probes is a parameter.
- LsmManifest.ManifestReplays: edits carry whole files; their bytes are in `VersionEdits`.
- LruCaches.LRUCache.Lookup: one shard; the destructor and the sharding by hash are not modelled.
- HandleTables.HandleTable.FindPointer: the bucket index is written with a modulus, which equals the source's bit mask because the number of buckets is a power of two.
- SkipListOps.SkipList.Insert: the height is a parameter between 1 and 12 in place of the random generator.
- GroupCommit.BuildBatchGroup: batches are lists of operations with a size; their bytes are in `BatchBytes`.
- Environment, logging and the C interface.
- PbNormal.DecodeEncoded: wire forms under 4 GiB, so that every length fits the 32 bits the decoder reads.
- PbDecoder.IStream.DecodeVarint32: the bit counter is unbounded; the source's wraps round after 36 bytes of a varint.
- PbDecoder.DecodeNoinit: the destination struct is a value, so what a failed call leaves in it is not modelled, nor the
  memory that the fields of a oneof share; the words of `fields_seen` are an array of bits, read one by one.
- PbEncode.EncodeToBuffer: sizes are unbounded; `size_t` overflow is not modelled, nor what a failed call leaves in the buffer.
- PbDecode.Defaults: fields start from zero; default values of the descriptor are not modelled.
- nanopb's callbacks, extensions, pointer fields, fixed-count arrays, delimited messages and error texts.
- BoringSSL and the app itself.

Where the code and its comments differ the model follows the code: `log_reader.h` gives its end-of-file and bad-record
codes the values 5 and 6, so a physical record whose type byte has one of these values is taken for the end of the
file or for a bad record, although the comments describe only unknown types; and a null batch that rides in another
writer's group forces no memtable switch, although `Write` describes null batches as being for compactions.
