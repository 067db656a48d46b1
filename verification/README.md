# LevelDB and nanopb, modelled and verified

Two C and C++ libraries are vendored under `macos/Pods`: LevelDB, a log-structured merge store, and
nanopb, a Protocol Buffers encoder and decoder. This project models both in Dafny and proves what
they promise. `dafny verify dfyconfig.toml` checks all of it.

## What is here

LevelDB is described against one simple thing, a finite set of entries (user key, sequence number,
type, value) read at a snapshot.

- **Reading** (`Dbformat`, `Version`, `MemTable`): the layered lookup over memtables, level-0 files and one
  file a level answers as a read of the flat set.
- **Changing the tree** (`VersionBuilder`, `CompactionInputs`, `Compaction`, `CompactionCuts`, `CompactionEffect`,
  `TreeInvariant`, `Install`): input selection, the drop rules of the compaction loop and where it cuts
  its tables, the edits that install its results, and what all of it does to every read.
- **Runs** (`Lsm`, `CompactionLimits`): a state machine of writes, snapshots, flushes, compactions and moves, in
  which every read at a snapshot in use returns what the history of writes says. Two places where
  the plain claim is false are shown by runs from the start, each ending in a read that goes wrong,
  and the exact condition is proved for each.
- **Writing and crashing** (`WriteBatch`, `WriteQueue`, `Recovery`, `RecoveryLimits`): the batch format, group commit under every
  interleaving, and a state machine of logs, tables and manifest in which appends and manifest
  writes fail, work goes on after that, and the process dies at any step.
- **One store** (`WritePath`): the queue of writers, the files on disk and the tree of tables are three state
  machines; every step of a writer is a few steps on the files and at most one of the tree, and all
  three agree on what was written.
- **Iterators** (`Merger`, `TwoLevelIterator`, `DbIter`, `BlockIter`): cursors that change direction, each
  an index into a sorted sequence.
- **Formats** (`Coding`, `Comparator`, `Crc32c`, `Block`, `Table`, `Log`, `LogReader`, `ManifestEdit`,
  `ManifestFields`, `ManifestReplay`, `Bloom`, `FilterBlock`): what is written is read back, and what is cut off is
  noticed; a manifest goes the whole way from edits to bytes to the version they had made.
- **Logs of any bytes** (`LogBytes`, `LogChain`): which fragments a file holds and which records they make up, said
  without the reader; the reader returns exactly these.
- **In-memory structures** (`SkipList`, `HandleTable`, `LruCache`, `LruHistory`): a lock-free list under single loads
  and stores, and a reference-counted cache with its hash table, ordered by the history of its calls.

nanopb is in `NanopbWire` (varints, signed numbers), `Nanopb` (descriptors, encoding and decoding as functions),
`NanopbRoundTrip`, `NanopbOmitted` (what the encoder leaves out), `NanopbEncode` (the two-pass encoder over streams),
`NanopbDecode` (field iterator, bitmap of required fields, decoding loop), `NanopbUnknown` and `NanopbMerge` (fields
that are unknown, out of order, packed or not, or repeated) and `NanopbBounds` (whatever is accepted fits).

User keys above the byte formats are real numbers, compared by `<`: every layer there touches them
through the comparator alone, and `Comparator.RankOrders` embeds byte strings under the bytewise
comparator into the reals. Every lemma switches automatic induction off, so that each inductive proof
is the one written down.

Where the code and a comment beside it disagree the code is followed. Two such places: `DBIter` in
reverse may stop further back than its comment says (`db_iter.cc:243-248`), past entries newer than
the snapshot, so the invariant is that everything between the inner cursor and the saved key is
invisible; and `VersionEdit::Clear` leaves the compaction pointers alone, so the round trip of an edit holds exactly
when it is read into one without pointers (`ManifestEdit.RoundTrip`).

Claims that are false of the code as it stands, each with a counterexample and the exact condition:

- A compaction may bring a deleted value back, because inputs are closed at their level but not at
  the next (`CompactionLimits.MarkerLost`); reads are unchanged exactly when `CompactionEffect.InvisibleExactlyWhen` says, and
  `CompactionEffect.ResurfacesExactlyWhen` says it of the one file behind the inputs.
- A memtable flushed during a compaction may interleave with an output of it
  (`CompactionLimits.FlushInterleaves`); `Lsm.FlushDuringCompaction` says exactly when it does not, and
  `Lsm.RunsAreExact` that in a whole run these two are all that can go wrong.
- A write that was accepted and synced may be lost if an earlier append to the same log failed: the
  log goes on being used, and its reader may stop at the torn record (`RecoveryLimits.LostBehindTornAppend`; at
  the bytes, `LogReader.AppendAfterFailure`). `WriteQueue.SyncedSurvives` and `WritePath.SyncedIsKept` say that
  this is exactly when: if and only if no request got an error while that log file was in use.
- A flush whose manifest edit was written, synced and taken into use may be lost if an earlier manifest
  write failed, because a running compaction carries on after the error (`RecoveryLimits.LostAfterFailedSave`);
  `Recovery.SafeIsExact` says exactly which writes no crash takes.
- A string that fills its nanopb array is encoded but not decoded (`Nanopb.FullStringLost`);
  `Nanopb.StringReadsBackExactlyWhen` says exactly which strings are.
- nanopb accepts a message in which a required field beyond the 64th is missing
  (`NanopbDecode.LastRequiredMissed`); `NanopbDecode.AcceptedExactlyWhen` says exactly which inputs are accepted.

## Model

| member | source | states |
|---|---|---|
| Dbformat.SeekFindsNewest | macos/Pods/leveldb-library/db/dbformat.cc:47-63 | in one ordered run, the entry a seek to (user key, snapshot) lands on is the newest visible version of the key, or there is none in the run |
| Version.FindFile | macos/Pods/leveldb-library/db/version_set.cc:87-105 | the binary search returns the first file whose largest key is not before the key, the number of files if there is none |
| Version.LevelLookup | macos/Pods/leveldb-library/db/version_set.cc:304-322 | on a sorted disjoint level the one file found by the search decides the read of the whole level, even where the versions of the user key span two files |
| Version.SortNewestFirst | macos/Pods/leveldb-library/db/version_set.cc:277-296 | the overlapping level-0 files are rearranged, none lost or doubled, by descending number |
| Version.CollectOverlapping | macos/Pods/leveldb-library/db/version_set.cc:281-300 | exactly the level-0 files whose range covers the key are looked at, in their own order |
| Version.Level0Relevant | macos/Pods/leveldb-library/db/version_set.cc:281-300 | leaving out the files whose range misses the key changes no read |
| Version.Level0Get | macos/Pods/leveldb-library/db/version_set.cc:281-305 | stopping at the first hit, newest file first, gives the newest version over all of level 0 |
| Version.LayerHit | macos/Pods/leveldb-library/db/version_set.cc:324-400 | asking a newer layer first and an older one only on a miss is reading their union |
| Version.Get | macos/Pods/leveldb-library/db/version_set.cc:324-400 | level 0 newest first, then one file a level, returns the newest visible version among all entries of the version |
| Version.FileGet | macos/Pods/leveldb-library/db/version_set.cc:262-275 | a seek and a comparison of user keys return the newest visible version in the table, or nothing |
| Version.DBGet | macos/Pods/leveldb-library/db/db_impl.cc:1110-1155 | memtable, immutable memtable and current version asked in this order answer as a read over the flat set of all entries; a deletion reads as absence |
| MemTable.MemTable.Add | macos/Pods/leveldb-library/db/memtable.cc:76-99 | the bytes laid out field by field are the entry, and it goes to its place in the order of the key comparator, nothing else moving; the ranked run of the table has one entry more, with the value written |
| MemTable.MemTable.Get | macos/Pods/leveldb-library/db/memtable.cc:101-135 | found if and only if some version of the user key is visible at the snapshot, and then the answer is that of a read over the flat set of entries: the value of the newest, or absence if that is a deletion |
| MemTable.NewestInRun | macos/Pods/leveldb-library/db/memtable.cc:101-135 | where the iterator stops is the newest visible version in the ranked run, or none is visible |
| MemTable.SeekFinds | macos/Pods/leveldb-library/db/dbformat.cc:117-137 | where a seek to the lookup key stops is the newest visible version, or no visible version exists |
| MemTable.KeyParses | macos/Pods/leveldb-library/db/memtable.cc:28-35 | the key comparator sees the internal key that was encoded, whatever follows it |
| VersionBuilder.SaveLevel | macos/Pods/leveldb-library/db/version_set.cc:672-715 | the merge of base and added files is sorted by smallest key and holds exactly the base files that are not deleted and the added ones |
| VersionBuilder.Builder.DeleteFiles | macos/Pods/leveldb-library/db/version_set.cc:637-642 | a deletion takes the file out of the pending set of its level |
| VersionBuilder.Builder.AddFile | macos/Pods/leveldb-library/db/version_set.cc:644-668 | a file that is added becomes pending even where its number had been deleted before |
| VersionBuilder.Builder.Apply | macos/Pods/leveldb-library/db/version_set.cc:629-669 | the pending files of every level change exactly as the edit says |
| VersionBuilder.Builder.SaveTo | macos/Pods/leveldb-library/db/version_set.cc:672-730 | every level comes out sorted and holds exactly the pending files |
| VersionBuilder.LogAndApply | macos/Pods/leveldb-library/db/version_set.cc:777-797 | one edit on the current version: deleted files gone, added files there, every level sorted |
| VersionBuilder.RunEdits | macos/Pods/leveldb-library/db/version_set.cc:777-797 | a run of edits applied one at a time holds the files that the edits leave |
| VersionBuilder.Replay | macos/Pods/leveldb-library/db/version_set.cc:862-987 | all edits of a manifest applied to one builder hold the files that the edits leave |
| VersionBuilder.ReplayMatchesRunning | macos/Pods/leveldb-library/db/version_set.cc:862-987 | giving all edits to one builder gives the same version, file by file, as installing them one by one did, if no file number is added to a level twice |
| ManifestReplay.Reopen | macos/Pods/leveldb-library/db/version_set.cc:777-987 | a manifest of a WriteSnapshot record and one record an edit, encoded, logged, cut at any byte, read, decoded and replayed, gives exactly the version that LogAndApply, one edit at a time, had after the edits wholly in it, with the numbers of the last; with none, or under a comparator of another name, it is refused |
| ManifestReplay.ReadManifest | macos/Pods/leveldb-library/db/version_set.cc:892-940 | from a manifest cut at any byte exactly the edits wholly in it are read and decoded |
| ManifestReplay.Recover | macos/Pods/leveldb-library/db/version_set.cc:862-975 | an error exactly if some record names another comparator; otherwise each number is that of the last record that has it, without one of them there is no version, and with them the replayed levels carry what the edits leave |
| ManifestReplay.BoundsRead | macos/Pods/leveldb-library/db/version_edit.cc:75-83 | the bounds of a file read back from its record rank where those of the file do |
| ManifestReplay.ReplayedIs | macos/Pods/leveldb-library/db/version_set.cc:1064-1092 | the snapshot record followed by edits replays to what the edits make of the version that was recorded |
| VersionBuilder.RestoreSnapshot | macos/Pods/leveldb-library/db/version_set.cc:1064-1092 | the record that WriteSnapshot writes reproduces the current version on its own |
| VersionBuilder.SortedUnique | macos/Pods/leveldb-library/db/version_set.cc:565-580 | a strictly sorted list of files is determined by its elements |
| CompactionInputs.GetOverlappingInputs | macos/Pods/leveldb-library/db/version_set.cc:498-538 | the restarting scan ends, and on level 0 returns exactly the files that meet the least range around the request closed under overlap; on other levels those that meet the request |
| CompactionInputs.OutreachShrinks | macos/Pods/leveldb-library/db/version_set.cc:519-533 | every restart of the level-0 scan leaves fewer files sticking out of the range |
| CompactionInputs.SomeFileOverlapsRange | macos/Pods/leveldb-library/db/version_set.cc:121-156 | true if and only if some file meets the range, by linear or by binary search |
| CompactionInputs.PickLevelForMemTableOutput | macos/Pods/leveldb-library/db/version_set.cc:470-495 | level 0 if a file there meets the range of the memtable; otherwise the deepest of levels 0 to 2 such that no file from 0 down to it meets the range and, for every level passed, the files two below it that do are within the limit |
| CompactionInputs.PickedLevelUnique | macos/Pods/leveldb-library/db/version_set.cc:470-495 | these conditions leave exactly one level |
| CompactionInputs.GetRange | macos/Pods/leveldb-library/db/version_set.cc:1182-1212 | the bounds are the least smallest and the greatest largest key of the files |
| CompactionInputs.FindSmallestBoundaryFile | macos/Pods/leveldb-library/db/version_set.cc:1321-1339 | the file found starts after the key with the same user key, and no such file starts earlier; none is found only if there is none |
| CompactionInputs.AddBoundaryInputs | macos/Pods/leveldb-library/db/version_set.cc:1355-1378 | the loop ends with a chain of boundary files appended, and no file of the level goes on with the user key the inputs end with |
| CompactionInputs.SetupOtherInputs | macos/Pods/leveldb-library/db/version_set.cc:1380-1439 | the level inputs are the given ones closed under boundary files, or, if and only if that means more files, not too many bytes and no other inputs at the next level, the files around the inputs of both levels, closed likewise; the next-level inputs are all files that meet their user keys, the same whether expanded or not; the grandparents are the files two levels down that meet the keys of all inputs |
| CompactionInputs.SameMeet | macos/Pods/leveldb-library/db/version_set.cc:1403-1425 | more inputs meet at least the same files of the next level, so that as many are the same files |
| CompactionInputs.LeftBehindIsNewer | macos/Pods/leveldb-library/db/version_set.cc:1380-1439 | what stays behind at the level holds no version older than a version of the same user key in the inputs |
| CompactionInputs.NextLevelAround | macos/Pods/leveldb-library/db/version_set.cc:1380-1439 | a next-level file that is not chosen lies wholly before or wholly after all inputs and shares no user key with those of the level |
| CompactionInputs.ChainOfRun | macos/Pods/leveldb-library/db/version_set.cc:1355-1378 | on a sorted level the boundary files are the neighbours that follow the run of inputs |
| CompactionInputs.ChainOfClosed | macos/Pods/leveldb-library/db/version_set.cc:498-538 | a range closed under overlap on level 0 already holds every boundary file |
| Compaction.CompactionJob.IsBaseLevelForKey | macos/Pods/leveldb-library/db/version_set.cc:1510-1529 | with level pointers that only move forward the answer is right for ascending keys: true if and only if no deeper file covers the user key |
| Compaction.CompactionJob.ShouldStopBefore | macos/Pods/leveldb-library/db/version_set.cc:1531-1553 | the grandparent pointer moves forward to the first file that does not end before the key; true if and only if the files passed since the last stop, or since the first key, are over the limit together |
| Compaction.CompactionJob.ShouldDrop | macos/Pods/leveldb-library/db/db_impl.cc:939-973 | an entry is dropped exactly if a newer one of its user key is visible to the oldest snapshot, or it is a deletion at or below that snapshot with no deeper file covering the key |
| Compaction.CompactionJob.DoCompactionWork | macos/Pods/leveldb-library/db/db_impl.cc:887-1046 | the output tables together are the entries that survive the two drop rules, in input order, none empty; no table goes on after it has reached the maximum size or past an input key at which the grandparents passed since the last stop are too many, and each but the last ends for one of these two reasons |
| CompactionCuts.CutsUnique | macos/Pods/leveldb-library/db/db_impl.cc:930-1006 | the surviving entries, the stops and the sizes leave one way to cut the output into tables |
| CompactionEffect.DropsAreRemovable | macos/Pods/leveldb-library/db/db_impl.cc:939-973 | what the loop drops is hidden at every snapshot in use or is a deletion with nothing older in deeper levels |
| CompactionEffect.RemovesDropped | macos/Pods/leveldb-library/db/db_impl.cc:869-885 | installing the outputs removes exactly the dropped entries from the tree |
| CompactionEffect.InvisibleExactlyWhen | macos/Pods/leveldb-library/db/db_impl.cc:887-1046 | every read at a snapshot in use answers as before the compaction if and only if no dropped deletion leaves an older value of its user key behind in the next level |
| CompactionEffect.ClosedBelowSuffices | macos/Pods/leveldb-library/db/version_set.cc:1384-1388 | if no unselected next-level file goes on with the last user key of the next-level inputs, no read changes |
| CompactionEffect.ResurfacesExactlyWhen | macos/Pods/leveldb-library/db/version_set.cc:1384-1388 | if such a file exists, a deleted key comes back if and only if the first of those files begins with a value, which its bounds tell, no deeper file covers the user key, and what the oldest snapshot reads of it is a deletion marker among the inputs |
| CompactionEffect.ReadUnchanged | macos/Pods/leveldb-library/db/db_impl.cc:887-1046 | a read that changes is one of a user key whose deletion was dropped while an older value stayed behind |
| CompactionEffect.ReadChanged | macos/Pods/leveldb-library/db/db_impl.cc:887-1046 | and such a key does read differently at the oldest snapshot |
| CompactionLimits.MarkerLost | macos/Pods/leveldb-library/db/version_set.cc:1384-1388 | a run of the state machine to a tree where a compaction may start that drops a deletion marker while the next-level file behind its inputs has the old value; once installed, the deleted key reads as a value again |
| CompactionLimits.FlushInterleaves | macos/Pods/leveldb-library/db/db_impl.cc:530-532 | a run to a state with a compaction at work in which level 2, its output level, is picked for a memtable between the keys of one output; once installed the level is not disjoint and the search for the key just written stops at a file without it |
| TreeInvariant.InstallKeepsLevels | macos/Pods/leveldb-library/db/db_impl.cc:869-885 | installing a compaction keeps level 0 numbered by age, deeper levels disjoint and every level newer than the ones below |
| TreeInvariant.PickedLevelFits | macos/Pods/leveldb-library/db/version_set.cc:470-495 | a memtable written to the level picked for it keeps that level disjoint |
| TreeInvariant.FlushKeepsLevels | macos/Pods/leveldb-library/db/db_impl.cc:500-542 | a memtable written to level p keeps the tree fit for lookups if and only if no file of p interleaves with it |
| Install.WriteLevel0Table | macos/Pods/leveldb-library/db/db_impl.cc:500-542 | the new version is the old one with the table of the memtable added at the level the picker gives |
| Install.InstallCompactionResults | macos/Pods/leveldb-library/db/db_impl.cc:869-885 | the new version lacks exactly the inputs and has exactly the outputs more, on the next level |
| Lsm.StepKeeps | macos/Pods/leveldb-library/db/db_impl.cc:697-776 | every step of writers, groups that fail, flushes, compactions, moves and snapshots that meets its condition keeps the tree fit for lookups and faithful to the history |
| Lsm.RunsAreFaithful | macos/Pods/leveldb-library/db/db_impl.cc:1110-1155 | in every reachable state a read at a snapshot in use returns what the whole history of writes says |
| Lsm.StepIsExact | macos/Pods/leveldb-library/db/db_impl.cc:697-776 | of the steps the code may take, two conditions it does not check included or not, exactly those that meet the conditions keep the invariant |
| Lsm.RunsAreExact | macos/Pods/leveldb-library/db/db_impl.cc:697-776 | over any run of the code: all its states are fit for lookups and faithful to the history if and only if every flush during a compaction was clear of the outputs and no compaction let a deleted key come back |
| Lsm.SnapshotStable | macos/Pods/leveldb-library/db/db_impl.cc:1110-1155 | a snapshot reads the same at any two moments of a run while it is in use |
| Lsm.HistoryOnlyGrows | macos/Pods/leveldb-library/db/write_batch.cc:132-148 | later writes take later sequence numbers and leave what was written as it was |
| Lsm.ReadsBatch | macos/Pods/leveldb-library/db/write_batch.cc:132-148 | after a batch each user key reads as its last operation in the batch says, others as before |
| Lsm.FlushDuringCompaction | macos/Pods/leveldb-library/db/db_impl.cc:917-926 | a memtable flushed while a compaction runs leaves a valid tree after the compaction if and only if it is clear of the outputs |
| Lsm.FitsAfter | macos/Pods/leveldb-library/db/version_set.cc:470-495 | the level picked for a memtable still fits after the running compaction if and only if no output interleaves with it |
| Lsm.FlushKeeps | macos/Pods/leveldb-library/db/db_impl.cc:544-575 | replacing the immutable memtable by its table keeps the invariant, during a compaction too |
| Lsm.StartKeeps | macos/Pods/leveldb-library/db/db_impl.cc:887-1046 | a compaction that may start will, when installed, leave a valid and faithful tree |
| Lsm.MoveKeeps | macos/Pods/leveldb-library/db/db_impl.cc:727-742 | the trivial move of one file keeps the invariant |
| WriteBatch.Batch.AddPut | macos/Pods/leveldb-library/db/write_batch.cc:98-103 | the batch then stands for one more put, and its count and bytes agree |
| WriteBatch.Batch.AddDelete | macos/Pods/leveldb-library/db/write_batch.cc:105-109 | the batch then stands for one more delete |
| WriteBatch.Batch.Append | macos/Pods/leveldb-library/db/write_batch.cc:144-148 | the operations of the other batch follow those of this one; the sequence number stays |
| WriteBatch.Batch.SetSequence | macos/Pods/leveldb-library/db/write_batch.cc:94-96 | the sequence number changes and the operations do not |
| WriteBatch.Batch.Count | macos/Pods/leveldb-library/db/write_batch.cc:82-84 | the number in the header is the number of operations |
| WriteBatch.HandsOnAll | macos/Pods/leveldb-library/db/write_batch.cc:42-80 | the operations of a batch are handed to the handler in order, whatever bytes follow them |
| WriteBatch.IterateWholeOrFail | macos/Pods/leveldb-library/db/write_batch.cc:42-80 | iteration of a prefix of a batch succeeds if and only if it is the whole batch; otherwise at most a strict prefix of the operations is handed on |
| WriteBatch.CutHandsOnFewer | macos/Pods/leveldb-library/db/write_batch.cc:42-80 | a cut inside the operations loses at least one and invents none |
| WriteBatch.UnknownTagStops | macos/Pods/leveldb-library/db/write_batch.cc:55-75 | a tag that is neither that of a put nor that of a delete stops the iteration, after all operations before it were handed on |
| WriteBatch.WrongCountIsNoticed | macos/Pods/leveldb-library/db/write_batch.cc:74-79 | a batch is refused if and only if its header counts another number of operations; they are handed on in either case |
| WriteBatch.InsertInto | macos/Pods/leveldb-library/db/write_batch.cc:132-137 | on any bytes the table gets what precedes the first error, numbered consecutively from the sequence number of the batch |
| WriteQueue.BuildBatchGroup | macos/Pods/leveldb-library/db/db_impl.cc:1268-1316 | the result holds the operations of the group of the first writer, and a group of several is built in the scratch batch, leaving the batches of the callers alone |
| WriteQueue.BuildsTheGroup | macos/Pods/leveldb-library/db/db_impl.cc:1268-1316 | the group is the longest run from the head of the queue in which no sync request joins a non-sync leader and the size limit holds; its operations follow queue order |
| WriteQueue.AnswerGroup | macos/Pods/leveldb-library/db/db_impl.cc:1249-1258 | every other member of the group leaves the queue done and with the status of the leader |
| WriteQueue.StepKeeps | macos/Pods/leveldb-library/db/db_impl.cc:1195-1266 | every step of queueing, logging, failing to log, syncing, inserting and answering, in any interleaving, keeps the invariant |
| WriteQueue.StepDamage | macos/Pods/leveldb-library/db/db_impl.cc:1220-1244 | every step keeps this: an accepted request lies behind a failed append in its log exactly if an earlier one got an error there |
| WriteQueue.GroupChains | macos/Pods/leveldb-library/db/db_impl.cc:1212-1247 | a group takes consecutive sequence numbers right after the last one |
| WriteQueue.GroupApplies | macos/Pods/leveldb-library/db/db_impl.cc:1219-1247 | an accepted group adds exactly its operations, numbered in order, to what was applied |
| WriteQueue.ExactlyOnce | macos/Pods/leveldb-library/db/db_impl.cc:1195-1266 | in every reachable state answers follow queue order with disjoint number ranges, and up to the last sequence the memtable holds exactly the operations of accepted requests, once each |
| WriteQueue.NoPartialBatch | macos/Pods/leveldb-library/db/db_impl.cc:1207-1240 | a reader at LastSequence sees, then and ever after, exactly the accepted batches, each in full |
| WriteQueue.CrashKeepsWhole | macos/Pods/leveldb-library/db/db_impl.cc:1220-1240 | after a crash each request is replayed in full or not at all; an accepted sync request in full if no earlier request got an error while its log file was in use, a refused one not at all |
| WriteQueue.SyncedSurvives | macos/Pods/leveldb-library/db/db_impl.cc:1220-1244 | over every set of records behind a failed append that the model lets a crash lose: an accepted sync request survives all of them if and only if no earlier request got an error while the same log file was in use (whether the bytes behind a failure can be read is up to what landed, LogReader.AppendAfterFailure) |
| WriteQueue.LoggedExactlyOnce | macos/Pods/leveldb-library/db/db_impl.cc:1219-1240 | an accepted batch, synced or not, is in one record of all the logs, at the numbers it took, and no other record has any of those numbers |
| WriteQueue.ReplaysOnlyRequests | macos/Pods/leveldb-library/db/db_impl.cc:380-440 | every replayed entry is an operation of a request that survives or of the group at work |
| Recovery.StepKeeps | macos/Pods/leveldb-library/db/db_impl.cc:222-575 | every step of writing, flushing, compacting, moving a table down, deleting, crashing and recovering, with appends and manifest writes that fail and work that goes on after them, keeps the invariant of logs, tables and manifest |
| Recovery.NeverLost | macos/Pods/leveldb-library/db/db_impl.cc:289-378 | a write that is safe once is readable whenever the database is open from then on, over any run with any number of failed appends, failed manifest writes and crashes, also during recovery |
| Recovery.SyncedIsSafe | macos/Pods/leveldb-library/db/db_impl.cc:1220-1244 | a batch that was appended, synced and accepted is safe if and only if no append failed before it in its log |
| Recovery.SafeIsExact | macos/Pods/leveldb-library/db/db_impl.cc:289-378 | a readable write survives every crash the environment allows if and only if it is in a table of the firm part of the manifest, or in a firm log record of its memtable or of the one last set aside |
| Recovery.CrashDecides | macos/Pods/leveldb-library/db/version_set.cc:862-987 | a write is stored after every possible crash if and only if every manifest a crash may leave has it in a table or calls for a firm log record of it |
| Recovery.FlushedIsSafe | macos/Pods/leveldb-library/db/db_impl.cc:544-575 | what the version in use has in tables is safe as long as no edit was written after a failed one, in particular without a background error |
| RecoveryLimits.LostBehindTornAppend | macos/Pods/leveldb-library/db/log_writer.cc:82-108 | a run in which an append fails and a later write, accepted and synced, is gone after a crash |
| RecoveryLimits.LostAfterFailedSave | macos/Pods/leveldb-library/db/db_impl.cc:917-926 | a run in which, inside a compaction of a flushed table, the memtable set aside is flushed, writing the edit fails, the compaction flushes it again with success, and a crash loses what was flushed |
| Recovery.StepSafe | macos/Pods/leveldb-library/db/db_impl.cc:222-575 | no single step, a crash included, takes a safe write |
| Recovery.RecoversExactly | macos/Pods/leveldb-library/db/db_impl.cc:289-378 | opening restores exactly the tables of the manifest and the records of the logs from LogNumber on, and LastSequence covers all of it |
| Recovery.SequenceCovers | macos/Pods/leveldb-library/db/db_impl.cc:371-375 | no readable write has a sequence number beyond LastSequence |
| Recovery.OnlyGarbageIsDeleted | macos/Pods/leveldb-library/db/db_impl.cc:222-287 | when a file is deleted no edit is in doubt; a deleted log is older than LogNumber; a deleted table is in no live version, not pending, not an input or output of a compaction, and not named by the manifest |
| Recovery.GarbageGoes | macos/Pods/leveldb-library/db/db_impl.cc:222-287 | once the files chosen are deleted, whatever writers and readers did meanwhile, the tables on disk are exactly those that a live version names or that were being built; of the logs there were, exactly those from LogNumber on are left, the one in use alone if no memtable waits |
| Recovery.NeededFilesExist | macos/Pods/leveldb-library/db/db_impl.cc:325-352 | every table of a live version and of every manifest that a crash may leave is on disk, and all of memory is in logs numbered from the firm LogNumber on |
| Recovery.ReadersUndisturbed | macos/Pods/leveldb-library/db/db_impl.cc:544-575 | no step but an accepted write or a crash changes what readers find |
| Recovery.CommitFlushKeeps | macos/Pods/leveldb-library/db/db_impl.cc:556-571 | taking the flushed version into use and dropping the immutable memtable keeps the invariant, whether the edit is firm or lies behind a failed one |
| Recovery.SaveCompactionEdit | macos/Pods/leveldb-library/db/version_set.cc:777-797 | the edit of a compaction names the data of the version it replaces, and does no harm to any manifest a crash may leave before it |
| Recovery.AllRead | macos/Pods/leveldb-library/db/db_impl.cc:354-369 | once every log is read, old and new tables hold exactly what was stored |
| Recovery.CreateLogKeeps | macos/Pods/leveldb-library/db/db_impl.cc:1486-1500 | the new log gets a number no log on disk has, so creating it loses nothing |
| WritePath.StepMirrored | macos/Pods/leveldb-library/db/db_impl.cc:1195-1266 | every step of the writers is these appends, syncs and memtable steps on the files, failed ones included, after which the log files, the sequence numbers, the error state and what readers find are those of the queue again |
| WritePath.TreeMirrored | macos/Pods/leveldb-library/db/db_impl.cc:1195-1266 | and it is at most one step of the tree, after which the history of the tree is what the queue accepted |
| WritePath.RunAgrees | macos/Pods/leveldb-library/db/db_impl.cc:1195-1266 | in every run of writers, background work on the files and steps of the tree, in any order, the three agree |
| WritePath.OneStore | macos/Pods/leveldb-library/db/db_impl.cc:1110-1155 | in every such run the files hold for readers exactly what the queue accepted, and every read of the tree at a snapshot in use returns what the accepted operations say |
| WritePath.SyncedIsKept | macos/Pods/leveldb-library/db/db_impl.cc:1220-1244 | a write of a group whose sync succeeded is safe on disk, once accepted, if and only if no request got an error before in the queue while the same log file was in use |
| WritePath.KeptForEver | macos/Pods/leveldb-library/db/db_impl.cc:289-378 | and then it is readable whenever the database is open, after any further work, failures, crashes and recoveries |
| ManifestEdit.VersionEdit.EncodeTo | macos/Pods/leveldb-library/db/version_edit.cc:41-84 | read into any edit, the bytes give this edit behind the compaction pointers that were there |
| ManifestEdit.VersionEdit.DecodeFrom | macos/Pods/leveldb-library/db/version_edit.cc:105-203 | on any bytes the edit is cleared but for its pointers, and the fields before the first problem are set |
| ManifestEdit.RoundTrip | macos/Pods/leveldb-library/db/version_edit.cc:26-203 | writing and reading gives the same edit if and only if the edit read into had no compaction pointers |
| ManifestEdit.DecodesItems | macos/Pods/leveldb-library/db/version_edit.cc:105-203 | fields written one after the other are read back and applied in that order |
| ManifestEdit.TakesNewFile | macos/Pods/leveldb-library/db/version_edit.cc:75-83 | a new-file field is read back with its level, number, size and keys |
| ManifestFields.TakenExactlyWhen | macos/Pods/leveldb-library/db/version_edit.cc:86-203 | a field as it is written is taken if and only if its level exists and its keys are not empty, and otherwise refused as a problem of that field |
| ManifestFields.OutOfBoundsStops | macos/Pods/leveldb-library/db/version_edit.cc:105-203 | the first field that is out of bounds stops the decoding, those before it being set, whatever follows |
| ManifestFields.UnknownTagStops | macos/Pods/leveldb-library/db/version_edit.cc:188-197 | a tag that no field has stops it in the same way |
| ManifestFields.CutRecord | macos/Pods/leveldb-library/db/version_edit.cc:105-203 | of a record cut at any byte the fields wholly in it are set, and an error is returned if and only if the cut is not between two fields |
| ManifestFields.DecodedInBounds | macos/Pods/leveldb-library/db/version_edit.cc:86-203 | whatever the bytes, the edit read from them names real levels and keys that are not empty |
| DbIter.ViewIsRead | macos/Pods/leveldb-library/db/db_iter.cc:141-308 | a key is in the view with a value exactly if a read at the snapshot returns that value |
| DbIter.ViewAscends | macos/Pods/leveldb-library/db/db_iter.cc:141-308 | the view lists every live user key once, ascending |
| DbIter.DBIter.Next | macos/Pods/leveldb-library/db/db_iter.cc:141-175 | moves one place down the view, whatever the direction before; invalid exactly after the last |
| DbIter.DBIter.Prev | macos/Pods/leveldb-library/db/db_iter.cc:209-234 | moves one place up the view, whatever the direction before; invalid exactly before the first |
| DbIter.DBIter.Seek | macos/Pods/leveldb-library/db/db_iter.cc:278-290 | lands on the first pair of the view at or after the target |
| DbIter.DBIter.SeekToFirst | macos/Pods/leveldb-library/db/db_iter.cc:292-301 | lands on the first pair of the view |
| DbIter.DBIter.SeekToLast | macos/Pods/leveldb-library/db/db_iter.cc:303-308 | lands on the last pair of the view |
| DbIter.DBIter.Key | macos/Pods/leveldb-library/db/db_iter.cc:63-66 | the user key of the place in the view, in both directions |
| DbIter.DBIter.Value | macos/Pods/leveldb-library/db/db_iter.cc:67-70 | the value of the place in the view, in both directions |
| DbIter.DBIter.FindNextUserEntry | macos/Pods/leveldb-library/db/db_iter.cc:177-207 | stops at the next live entry from where the inner cursor is, past hidden, deleted and too new ones |
| DbIter.DBIter.FindPrevUserEntry | macos/Pods/leveldb-library/db/db_iter.cc:236-276 | saves the last live pair before the inner cursor, and everything between it and the cursor is invisible |
| Merger.MergeExists | macos/Pods/leveldb-library/table/merger.cc:148-176 | children with distinct keys have a sorted union |
| Merger.MergeUnique | macos/Pods/leveldb-library/table/merger.cc:148-176 | and only one |
| Merger.SmallestLands | macos/Pods/leveldb-library/table/merger.cc:148-161 | the smallest of the current entries is the next of the union |
| Merger.LargestLands | macos/Pods/leveldb-library/table/merger.cc:163-176 | the largest of the current entries is the previous of the union |
| Merger.MergingIterator.Next | macos/Pods/leveldb-library/table/merger.cc:55-79 | one place down the sorted union, with a change of direction or without |
| Merger.MergingIterator.Prev | macos/Pods/leveldb-library/table/merger.cc:81-108 | one place up the sorted union, with a change of direction or without |
| Merger.MergingIterator.Seek | macos/Pods/leveldb-library/table/merger.cc:47-53 | lands where a seek in the union would |
| Merger.MergingIterator.SeekToFirst | macos/Pods/leveldb-library/table/merger.cc:31-37 | lands on the first entry of the union |
| Merger.MergingIterator.SeekToLast | macos/Pods/leveldb-library/table/merger.cc:39-45 | lands on the last entry of the union |
| Merger.MergingIterator.Current | macos/Pods/leveldb-library/table/merger.cc:110-118 | the entry of the union at the place of the cursor |
| TwoLevelIterator.Cursor.Seek | macos/Pods/leveldb-library/table/two_level_iterator.cc:82-87 | lands where a seek in the concatenation of the blocks would, empty blocks included |
| TwoLevelIterator.Cursor.SeekToFirst | macos/Pods/leveldb-library/table/two_level_iterator.cc:89-94 | lands on the first entry of the concatenation |
| TwoLevelIterator.Cursor.SeekToLast | macos/Pods/leveldb-library/table/two_level_iterator.cc:96-101 | lands on the last entry of the concatenation |
| TwoLevelIterator.Cursor.Next | macos/Pods/leveldb-library/table/two_level_iterator.cc:103-107 | one place down the concatenation, skipping empty blocks |
| TwoLevelIterator.Cursor.Prev | macos/Pods/leveldb-library/table/two_level_iterator.cc:109-113 | one place up the concatenation, skipping empty blocks |
| TwoLevelIterator.Cursor.SkipEmptyDataBlocksForward | macos/Pods/leveldb-library/table/two_level_iterator.cc:115-126 | from the end of a block to the first entry of the next block that has one |
| TwoLevelIterator.Cursor.SkipEmptyDataBlocksBackward | macos/Pods/leveldb-library/table/two_level_iterator.cc:128-139 | from before a block to the last entry of the block before it that has one |
| Table.TableBuilder.Add | macos/Pods/leveldb-library/table/table_builder.cc:94-123 | one more entry; the index entry of the finished block is chosen with this key in hand; the block is closed if and only if it is full |
| Table.TableBuilder.Flush | macos/Pods/leveldb-library/table/table_builder.cc:125-139 | the data block is closed, full or not, and nothing added or lost |
| Table.TableBuilder.Finish | macos/Pods/leveldb-library/table/table_builder.cc:198-253 | the blocks hold exactly what was added, in order, and the index keys separate them; no block goes on after it was full, and none but the last and those closed by Flush ends before |
| Table.BlocksUnique | macos/Pods/leveldb-library/table/table_builder.cc:119-122 | if only the last block may be closed before it is full, the entries leave one way to cut them into blocks |
| Table.IndexSeparates | macos/Pods/leveldb-library/table/table_builder.cc:102-109 | every index key is at or after the last key of its block and before the first key of the next |
| Table.InternalGet | macos/Pods/leveldb-library/table/table.cc:214-242 | looking into the one block the index names, if the filter does not rule it out, finds the newest visible version of the user key whenever one exists |
| Table.SeekInBlock | macos/Pods/leveldb-library/table/table.cc:220-235 | a seek inside that block lands where a seek in the flat sequence lands, or past its end |
| Table.BlockHolds | macos/Pods/leveldb-library/db/dbformat.cc:65-82 | past the end of that block the user key has no visible version, since a shortened separator has a strictly greater user key |
| Comparator.RankOrders | macos/Pods/leveldb-library/util/comparator.cc:27-29 | bytewise comparison is the order of the ranks, real numbers |
| Comparator.RankedOrders | macos/Pods/leveldb-library/db/dbformat.cc:47-63 | comparison of internal keys as bytes is the internal order over ranks |
| Comparator.FindShortestSeparator | macos/Pods/leveldb-library/util/comparator.cc:31-55 | the result is at or after the start and before the limit; it is shortened, to the common prefix and one raised byte, if and only if such a byte lies below that of the limit, and otherwise is the start |
| Table.BytewiseSeparates | macos/Pods/leveldb-library/db/dbformat.cc:65-97 | the separator and successor of the bytewise comparator, as those methods compute them, are what the table builder requires |
| Comparator.FindShortSuccessor | macos/Pods/leveldb-library/util/comparator.cc:57-68 | the result is at or after the key: its bytes up to the first that can be raised, with that one raised; the key itself if and only if there is none |
| Comparator.InternalSeparator | macos/Pods/leveldb-library/db/dbformat.cc:65-82 | the start itself or the first possible key of a user key strictly between it and the limit; the latter whenever the separator of the user keys is shorter than the start |
| Comparator.InternalSuccessor | macos/Pods/leveldb-library/db/dbformat.cc:84-97 | the key itself or the first possible key of a strictly later user key; the latter whenever the successor of the user key is shorter |
| Block.BlockBuilder.Add | macos/Pods/leveldb-library/table/block_builder.cc:71-105 | the buffer is the image of the entries so far, with a restart point every so many entries, and between them every key without the longest prefix it shares with the one before |
| Block.BlockBuilder.Finish | macos/Pods/leveldb-library/table/block_builder.cc:61-69 | the entries, the restart points and their number, in this order |
| Block.CompressedUnique | macos/Pods/leveldb-library/table/block_builder.cc:71-105 | entries and interval leave one way to compress the keys and to place the restart points |
| Block.OpensAgain | macos/Pods/leveldb-library/table/block.cc:20-40 | a finished block opens to the same image and restart points |
| Block.DecodesEntry | macos/Pods/leveldb-library/table/block.cc:55-76 | decoding an entry, by the fast path or the slow one, finds the lengths and bytes that were written |
| Block.ImageAt | macos/Pods/leveldb-library/table/block_builder.cc:87-104 | the image from the offset of an entry on begins with that entry |
| BlockIter.FinishedRepresents | macos/Pods/leveldb-library/table/block_builder.cc:61-105 | an iterator over what the builder finished is one over the entries that were added |
| BlockIter.Iter.ParseNextKey | macos/Pods/leveldb-library/table/block.cc:225-252 | moves to the next entry with its full key, or past the end |
| BlockIter.Iter.Next | macos/Pods/leveldb-library/table/block.cc:138-141 | one entry on |
| BlockIter.Iter.Prev | macos/Pods/leveldb-library/table/block.cc:143-162 | one entry back, by way of a restart point |
| BlockIter.Iter.Seek | macos/Pods/leveldb-library/table/block.cc:164-202 | lands on the first entry whose key is not before the target |
| BlockIter.Iter.SearchRestarts | macos/Pods/leveldb-library/table/block.cc:166-195 | the binary search ends at the last restart point whose key is before the target, or the first |
| BlockIter.Iter.SeekToFirst | macos/Pods/leveldb-library/table/block.cc:204-207 | lands on the first entry |
| BlockIter.Iter.SeekToLast | macos/Pods/leveldb-library/table/block.cc:209-214 | lands on the last entry |
| Log.Writer.AddRecord | macos/Pods/leveldb-library/db/log_writer.cc:34-80 | without an error the file grows by exactly the fragments of the record, over as many blocks as it takes; an error after any number of bytes leaves that prefix of them, and the writer goes on from a position past it |
| Log.Writer.EmitPhysicalRecord | macos/Pods/leveldb-library/db/log_writer.cc:82-108 | zeros still pending, header with masked checksum, length and type, and payload get into the file up to an error; the block offset moves on in any case |
| Log.Writer.Flush | macos/Pods/leveldb-library/util/env_posix.cc:306-345 | what the file does not take before an error is forgotten |
| LogReader.Reader.ReadPhysicalRecord | macos/Pods/leveldb-library/db/log_reader.cc:189-271 | on any bytes: a fragment that is returned is there, under a right checksum if that is verified; one with a wrong checksum, or one that claims more than its block, gives one report and the rest of the block is dropped, filler is dropped without; what the end of the file cuts is the end, without a report |
| LogReader.Reader.ReadRecord | macos/Pods/leveldb-library/db/log_reader.cc:56-174 | on any bytes: the record of the first complete group of fragments that the reader comes by, first to last one right after the other, or none if there is none; every loss on the way is reported; the next record of a writer is such a group, and of a torn one nothing is returned or reported |
| LogReader.WriteAll | macos/Pods/leveldb-library/db/log_writer.cc:34-80 | records written one by one leave the image of the list |
| LogReader.ReadAll | macos/Pods/leveldb-library/db/log_reader.cc:56-271 | from any prefix of a written log, cut at any byte, exactly the records wholly inside it are read and nothing is reported |
| LogReader.WriteSomeAndRead | macos/Pods/leveldb-library/db/log_writer.cc:34-108 | whatever appends fail after how many bytes, the records added before the first failure are read first and in order |
| LogReader.ReadLog | macos/Pods/leveldb-library/db/log_reader.cc:56-271 | on any bytes: exactly the records of the complete groups of fragments that the reader comes by, in order, and no loss without a report; a file that begins with a log yields its records first; if a torn fragment follows just these and nothing is reported, if one with a wrong checksum in the last block just these and one report |
| LogChain.ReadingIsDetermined | macos/Pods/leveldb-library/db/log_reader.cc:56-271 | any bytes leave one list of records to be read |
| LogChain.LaterBlocksSurvive | macos/Pods/leveldb-library/db/log_reader.cc:222-257 | however damaged what comes before is, a record that starts with a block is returned, unless a fragment with the type code that the reader uses for the end of the file came first |
| LogReader.AppendAfterFailure | macos/Pods/leveldb-library/db/log_writer.cc:82-108 | after a failed append another record is appended without an error: what was in the log before is read in any case; if none of the failed record got into the file the other one is read too; if its header and any part of its data did, and the file stays shorter than the header claims, the other one is not, silently |
| LogReader.Crc32cIsSound | macos/Pods/leveldb-library/util/crc32c.h:17-38 | the masked checksum used by the log has the two properties the round trip needs |
| Crc32c.Extend | macos/Pods/leveldb-library/util/crc32c.cc:276-377 | the four-stride computation equals the register fed byte by byte, for every length and alignment |
| Crc32c.SwathStep | macos/Pods/leveldb-library/util/crc32c.cc:283-309 | one swath of sixteen bytes over four strides is sixteen steps of the register |
| Crc32c.TurnStep | macos/Pods/leveldb-library/util/crc32c.cc:346-356 | one word with the strides taking turns is four steps of the register |
| Crc32c.ExtendTwice | macos/Pods/leveldb-library/util/crc32c.h:17-23 | extending by a concatenation is extending twice |
| Crc32c.RegisterWord | macos/Pods/leveldb-library/util/crc32c.cc:296-309 | bytes may be fed in at once, as one little-endian word |
| Crc32c.UnmaskMask | macos/Pods/leveldb-library/util/crc32c.h:27-38 | unmasking inverts masking |
| Crc32c.MaskUnmask | macos/Pods/leveldb-library/util/crc32c.h:27-38 | and masking inverts unmasking |
| Coding.EncodeFixed | macos/Pods/leveldb-library/util/coding.h:54-79 | the bytes at the place given become the little-endian number, all others stay |
| Coding.FixedRoundTrip | macos/Pods/leveldb-library/util/coding.h:81-105 | decoding inverts encoding for every number that fits |
| Coding.EncodeVarint32 | macos/Pods/leveldb-library/util/coding.cc:21-47 | the case by length gives the base-128 form |
| Coding.EncodeVarint64 | macos/Pods/leveldb-library/util/coding.cc:55-64 | the loop gives the base-128 form |
| Coding.GetVarint | macos/Pods/leveldb-library/util/coding.cc:86-131 | the number at the head, cut to the width of the result, and its length; nothing for an unterminated one |
| Coding.VarintRoundTrip | macos/Pods/leveldb-library/util/coding.cc:55-131 | reading back what was written, whatever follows |
| Coding.VarintPrefix | macos/Pods/leveldb-library/util/coding.cc:86-131 | no strict prefix of a varint reads as one |
| Coding.VarintReadsExactly | macos/Pods/leveldb-library/util/coding.cc:86-131 | on any bytes: a varint ends at the first byte with a clear high bit, which must be among the first five or ten, and its value is that of the seven-bit groups up to there |
| Coding.LengthPrefixedRoundTrip | macos/Pods/leveldb-library/util/coding.cc:72-164 | a length-prefixed string reads back, with what follows it |
| Coding.InternalKeyRoundTrip | macos/Pods/leveldb-library/db/dbformat.h:171-181 | an internal key parses to what was encoded |
| Coding.InternalKeyOnto | macos/Pods/leveldb-library/db/dbformat.h:171-181 | bytes that parse are the encoding of what they parse to |
| HandleTable.Table.Lookup | macos/Pods/leveldb-library/util/cache.cc:75-77 | exactly what the table maps the key to |
| HandleTable.Table.Insert | macos/Pods/leveldb-library/util/cache.cc:79-93 | the map changes at the key alone, and the entry replaced is returned; resizing changes nothing |
| HandleTable.Table.Remove | macos/Pods/leveldb-library/util/cache.cc:95-103 | the key leaves the map and its entry is returned |
| HandleTable.Table.Resize | macos/Pods/leveldb-library/util/cache.cc:123-147 | the map is the same over at least as many buckets as elements |
| LruCache.RefKeeps | macos/Pods/leveldb-library/util/cache.cc:218-224 | taking a reference keeps the invariant of lists, table, usage and references |
| LruCache.UnrefKeeps | macos/Pods/leveldb-library/util/cache.cc:226-238 | giving one back keeps it, an entry being deleted exactly at its last reference |
| LruCache.EraseKeeps | macos/Pods/leveldb-library/util/cache.cc:308-322 | erasing a cached entry keeps it |
| LruCache.InsertKeeps | macos/Pods/leveldb-library/util/cache.cc:267-293 | inserting, with the replacement of an entry of the same key, keeps it |
| LruCache.EvictIs | macos/Pods/leveldb-library/util/cache.cc:294-303 | eviction takes the least recently used entries first, in order, until usage fits or no idle entry is left |
| LruCache.EvictIsTight | macos/Pods/leveldb-library/util/cache.cc:294-303 | without the last eviction usage would not have fitted |
| LruCache.EvictByAge | macos/Pods/leveldb-library/util/cache.cc:294-303 | on the history of calls: an entry that is evicted was released for the last time before every idle entry that stays |
| LruCache.UnrefByAge | macos/Pods/leveldb-library/util/cache.cc:233-237 | an entry that becomes idle is the one released last |
| LruHistory.LastReleaseIs | macos/Pods/leveldb-library/util/cache.cc:262-265 | the time an entry is ordered by is that of the last call that released it |
| LruHistory.ByAgeUnique | macos/Pods/leveldb-library/util/cache.cc:226-238 | the history of calls leaves one order for the idle entries |
| LruCache.LRUCache.Lookup | macos/Pods/leveldb-library/util/cache.cc:253-260 | finds exactly what is cached, taking one reference |
| LruCache.LRUCache.Release | macos/Pods/leveldb-library/util/cache.cc:262-265 | gives one reference back; the idle entries then stand in the order of their last releases, oldest first |
| LruCache.LRUCache.Insert | macos/Pods/leveldb-library/util/cache.cc:267-306 | the new state is insertion followed by eviction; of the idle entries there were, those released longest ago went; usage is at most the capacity or every cached entry is in use |
| LruCache.LRUCache.Erase | macos/Pods/leveldb-library/util/cache.cc:319-322 | the key is no longer cached and the state changes as erasing says |
| LruCache.LRUCache.Prune | macos/Pods/leveldb-library/util/cache.cc:324-334 | every idle entry goes and no other |
| SkipList.StepKeeps | macos/Pods/leveldb-library/db/skiplist.h:260-368 | each single load or store of a writer and any readers, in any order, keeps every level a sorted sublist of the one below; a search that ends - for a key, for what comes before a key, for the end, or for the next node - returns what it looks for in the list of that moment |
| SkipList.BottomStep | macos/Pods/leveldb-library/db/skiplist.h:360-367 | the bottom level changes at one store of an insertion only, by the new node alone |
| SkipList.ReadStepKeeps | macos/Pods/leveldb-library/db/skiplist.h:209-322 | a turn of a reader of any of the four kinds keeps its invariant, and the answer is right for the list at that moment |
| SkipList.PublishKeeps | macos/Pods/leveldb-library/db/skiplist.h:360-367 | publishing bottom-up keeps every level within the one below |
| SkipList.List.FindGreaterOrEqual | macos/Pods/leveldb-library/db/skiplist.h:260-281 | the first node at or after the key, and the last one before it on every level |
| SkipList.List.FindLessThan | macos/Pods/leveldb-library/db/skiplist.h:283-303 | the last node before the key, or the head |
| SkipList.List.FindLast | macos/Pods/leveldb-library/db/skiplist.h:305-322 | the last node, or the head |
| SkipList.List.Contains | macos/Pods/leveldb-library/db/skiplist.h:370-378 | true if and only if the key is in the bottom list |
| SkipList.List.Insert | macos/Pods/leveldb-library/db/skiplist.h:336-368 | the bottom list has the one new node, in its place |
| Bloom.BloomFilterPolicy.CreateFilter | macos/Pods/leveldb-library/util/bloom.cc:28-54 | the bits set are exactly those that the keys call for, so that every key it was made from is accepted and, of the others, exactly those all of whose bits some of these keys share |
| Bloom.BloomFilterPolicy.KeyMayMatch | macos/Pods/leveldb-library/util/bloom.cc:56-80 | accepts exactly when all probed bits are set, with short and reserved filters as in the source |
| Bloom.ExactAccepts | macos/Pods/leveldb-library/util/bloom.cc:56-80 | a key is accepted by a filter made from keys if and only if each of its bits is one of theirs |
| FilterBlock.FilterBlockBuilder.StartBlock | macos/Pods/leveldb-library/table/filter_block.cc:21-27 | one filter for every range passed, empty ones included |
| FilterBlock.FilterBlockBuilder.Finish | macos/Pods/leveldb-library/table/filter_block.cc:35-49 | for every key and every block offset the reader answers as the filter made from exactly the keys added for blocks of that range does; beyond the last filter it accepts; so every key is accepted at the offset of its block |
| FilterBlock.ContentsMatch | macos/Pods/leveldb-library/table/filter_block.cc:77-104 | the reader accepts a key at an offset if and only if the filter of that range accepts it, or the offset is beyond the last filter |
| FilterBlock.ContentsOpen | macos/Pods/leveldb-library/table/filter_block.cc:77-88 | a finished filter block opens to its filters and offsets |
| NanopbWire.EncodeVarint | macos/Pods/nanopb/pb_encode.c:608-628 | the base-128 form, in at most ten bytes |
| NanopbWire.ReadsVarint | macos/Pods/nanopb/pb_decode.c:255-276 | the 64-bit reader gives back every 64-bit value, whatever follows |
| NanopbWire.ReadsVarint32 | macos/Pods/nanopb/pb_decode.c:187-247 | the 32-bit reader gives back every 32-bit value that was written, whatever follows |
| NanopbWire.ReadVarint32 | macos/Pods/nanopb/pb_decode.c:187-247 | the loop over bytes computes the recursive reader, overflow and sign-extension checks included |
| NanopbWire.SignedRoundTrip | macos/Pods/nanopb/pb_decode.c:1345-1380 | a signed value of 1, 2, 4 or 8 bytes survives the 64-bit complement and the cast back |
| NanopbWire.ZigZagRoundTrip | macos/Pods/nanopb/pb_encode.c:630-639 | zigzag coding inverts |
| NanopbBounds.LargeTakenExactlyWhen | macos/Pods/nanopb/pb_decode.c:187-247 | of a number beyond 32 bits the 32-bit reader takes exactly one that looks like the sign extension of a negative one: bit 31 and the top bit set, the groups of seven bits between all ones or all zeros, bits 32 to 34 not looked at |
| Nanopb.ReadsInt | macos/Pods/nanopb/pb_encode.c:769-850 | every in-range number of every numeric type is read back |
| Nanopb.ReadsRaw | macos/Pods/nanopb/pb_encode.c:852-910 | byte strings, strings and fixed-length bytes within bounds are read back |
| NanopbBounds.IntTakenExactlyWhen | macos/Pods/nanopb/pb_decode.c:1345-1428 | of any varint: an unsigned or zigzag field takes the number if and only if it is in range; a signed one takes the number in range that agrees with it modulo 2^32, or 2^64 for eight bytes, and refuses it if there is none |
| NanopbBounds.RawTakenExactlyWhen | macos/Pods/nanopb/pb_decode.c:1447-1570 | of any bytes behind their length: taken if and only if they fit the field; a string then ends at its first zero byte, and no bytes stand for a fixed length of zeros |
| Nanopb.StringReadsBackExactlyWhen | macos/Pods/nanopb/pb_decode.c:1487-1523 | a string reads back if and only if it leaves room for its terminator |
| Nanopb.FullStringLost | macos/Pods/nanopb/pb_decode.c:1514-1518 | one letter in an array of one is encoded and not decoded |
| NanopbRoundTrip.RoundTrip | macos/Pods/nanopb/pb_decode.c:934-1096 | decoding what was encoded restores every field that was there and leaves every other at its default: required, optional, repeated, packed, fixed-count and union fields, nested to any depth |
| NanopbRoundTrip.TidyRoundTrip | macos/Pods/nanopb/pb_decode.c:934-1096 | a message whose absent fields are at their defaults comes back as it was |
| NanopbRoundTrip.LoopStep | macos/Pods/nanopb/pb_decode.c:956-1016 | one key and value of the input changes the message by one field |
| NanopbRoundTrip.ReadsPacked | macos/Pods/nanopb/pb_decode.c:424-452 | a packed array is read back item by item until its substream is used up |
| NanopbRoundTrip.ZeroIsDefault | macos/Pods/nanopb/pb_encode.c:240-337 | what the proto3 check calls zero is what decoding leaves when nothing is written |
| NanopbOmitted.OmittedExactlyWhen | macos/Pods/nanopb/pb_encode.c:240-426 | a field is left out if and only if it holds what decoding puts there by itself, but for required fields, arrays without a count and fields without a has-flag whose zero the check does not recognize, which are written in any case |
| NanopbOmitted.ZeroExactlyWhen | macos/Pods/nanopb/pb_encode.c:240-337 | what the proto3 check calls zero, at any depth: the default, unless the type has bytes of a fixed length or a submessage with fields that are never left out |
| NanopbOmitted.EmptyExactlyWhen | macos/Pods/nanopb/pb_encode.c:528-550 | a message is encoded as nothing if and only if all its fields are left out |
| NanopbEncode.OStream.Write | macos/Pods/nanopb/pb_encode.c:103-127 | written in full if it fits, otherwise nothing; a counting stream counts and writes nothing |
| NanopbEncode.PutVarint | macos/Pods/nanopb/pb_encode.c:608-628 | the varint in full or a full stream |
| NanopbEncode.PutInt | macos/Pods/nanopb/pb_encode.c:769-850 | the encoding of the number in full or a full stream |
| NanopbEncode.PutValue | macos/Pods/nanopb/pb_encode.c:852-910 | the encoding of the value if it may be encoded and fits, an error otherwise |
| NanopbEncode.PutSubmessage | macos/Pods/nanopb/pb_encode.c:717-765 | the second pass writes exactly what the first counted; the error that the size changed cannot arise |
| NanopbEncode.PutArray | macos/Pods/nanopb/pb_encode.c:147-236 | one packed record or one record an item, with the size counted first |
| NanopbEncode.PutItems | macos/Pods/nanopb/pb_encode.c:181-204 | counting and writing the items of a packed array agree |
| NanopbEncode.PutField | macos/Pods/nanopb/pb_encode.c:341-426 | what the field rules say is written, and nothing for an absent field |
| NanopbEncode.PutMessage | macos/Pods/nanopb/pb_encode.c:528-550 | done if and only if everything may be encoded and fits; then the encoding of the message, in field order |
| NanopbEncode.GetEncodedSize | macos/Pods/nanopb/pb_encode.c:567-577 | the length of the encoding |
| NanopbEncode.EncodeToBuffer | macos/Pods/nanopb/pb_encode.c:528-550 | encoding into a buffer succeeds if and only if the message fits, and what is in the buffer decodes to the message |
| NanopbDecode.FieldIter.Next | macos/Pods/nanopb/pb_common.c:29-85 | one field on, around to the first, counting required fields |
| NanopbDecode.FieldIter.FindTag | macos/Pods/nanopb/pb_common.c:87-104 | one turn from any position finds the tag if and only if the descriptor has it, or has no fields and the tag is zero, and otherwise ends where it began |
| NanopbDecode.SeenFields.Mark | macos/Pods/nanopb/pb_decode.c:1021-1026 | setting the bit of a field adds it to the set |
| NanopbDecode.SeenFields.Complete | macos/Pods/nanopb/pb_decode.c:1058-1078 | comparing words is checking that every one of the first fields was seen |
| NanopbDecode.AcceptedExactlyWhen | macos/Pods/nanopb/pb_decode.c:934-1082 | an input is accepted if and only if all its fields can be read, the key of each of the first 64 required fields is among its keys, and the fixed-count array that comes last in it has all its items |
| NanopbDecode.WalkSees | macos/Pods/nanopb/pb_decode.c:1021-1026 | the bit of a required field is set at the end exactly if its key is in the input |
| NanopbDecode.CutIsAccepted | macos/Pods/nanopb/pb_decode.c:1032-1080 | of the encoding of any message the part up to its 64th required field or beyond is accepted on its own |
| NanopbDecode.LastRequiredMissed | macos/Pods/nanopb/pb_decode.c:1021-1026 | the encoding of 64 of 65 required fields has no key of the last and decodes |
| NanopbDecode.CountRequired | macos/Pods/nanopb/pb_decode.c:1041-1056 | running the iterator to the end counts all required fields |
| NanopbDecode.DecodeNoinit | macos/Pods/nanopb/pb_decode.c:934-1082 | for any descriptor, one without fields included, and any input the loop with its iterator and bitmap computes the recursive decoder |
| NanopbUnknown.UnknownPassed | macos/Pods/nanopb/pb_decode.c:966-995 | a field with a tag that the descriptor does not have, and a value of any of the four wire types in use, leaves everything as it is, and what follows is read on |
| NanopbUnknown.UnknownRefused | macos/Pods/nanopb/pb_decode.c:321-334 | the other four wire types are refused under such a tag |
| NanopbUnknown.UnknownCut | macos/Pods/nanopb/pb_decode.c:289-334 | a value under such a tag that the input is too short for is refused |
| NanopbUnknown.FieldPassed | macos/Pods/nanopb/pb_decode.c:966-995 | a field of any type written by a sender that knows it is passed over by a receiver that does not |
| NanopbUnknown.NewerIsRead | macos/Pods/nanopb/pb_decode.c:934-1096 | a message with fields of any types added anywhere is read as the message without them |
| NanopbUnknown.FieldTaken | macos/Pods/nanopb/pb_decode.c:406-488 | wherever the field of a plain value stands in the input, the value takes its place, and unsets the other members of its union |
| NanopbUnknown.LastIsKept | macos/Pods/nanopb/pb_decode.c:406-488 | of a plain field that comes twice the value that comes last is kept |
| NanopbMerge.ItemTaken | macos/Pods/nanopb/pb_decode.c:457-467 | one more item of an array joins it, packable or not, or all is refused if there is no room |
| NanopbMerge.RunTaken | macos/Pods/nanopb/pb_decode.c:423-456 | a packed run joins what is there in full, or all is refused |
| NanopbMerge.PackingDoesNotMatter | macos/Pods/nanopb/pb_decode.c:423-467 | numbers sent packed and one by one, in runs of any length, give the same message or the same refusal |
| NanopbMerge.SubmessageMerges | macos/Pods/nanopb/pb_decode.c:1525-1547 | a submessage of plain fields that comes again is merged: what it has written replaces, the rest stays |
| NanopbBounds.DecodedFits | macos/Pods/nanopb/pb_decode.c:934-1096 | whatever the input, a message that is accepted is within the bounds of its descriptor |

## Left out

What the repository does that is not modelled:

- The Flutter runners, plugin registrants and umbrella headers: they have no algorithm.
- BoringSSL: only wrappers, tables and processor detection are present, no cryptography.
- The operating-system layer (`env_posix.cc`), threads, clocks, file locks and loggers: a file is a byte sequence that may stop growing at any byte, the mutex is the boundary of an atomic step.
- Snappy: blocks are uncompressed.
- `repair.cc`: best-effort salvage promises nothing exact.
- Compaction scoring, seek charging, read sampling and write delays: they choose when to work, not what reads return.
- `reuse_logs` and `initial_offset > 0` in the log reader: off by default.
- `paranoid_checks`: off, so that what a log reader reports is passed over and opening goes on.
- The sharded wrapper of the cache and the hash function, which is a parameter.
- nanopb callbacks, extensions, pointer fields and custom field defaults: a message is a list of field contents instead of a C structure at offsets.
- The nanopb input stream as a callback: the input is a byte sequence, so reads fail only at its end.
- C++ memory orders: publication in the skip list is one atomic store after another, in program order.

What the model states in a narrower form:

- Lsm.RunsAreFaithful: a compaction may start only if nothing resurfaces, and a flush only if it is clear of the outputs of a running compaction; the code checks neither, which is what the two counterexamples are about. Lsm.RunsAreExact is about the runs without these conditions.
- Lsm.StepKeeps: the same two conditions are part of the steps; Lsm.StepIsExact is about the steps without them.
- Lsm.SnapshotStable: the same two conditions are part of the steps.
- Compaction.CompactionJob.DoCompactionWork: error returns, shutdown and corrupted keys inside the loop are not modelled; the flush it gives way to is a step of Lsm; the size of an unfinished table file is a function of its entries, given as a parameter.
- CompactionInputs.SetupOtherInputs: what the caller picks on level 0 is closed under overlap and above it a run of neighbours, as PickCompaction and CompactRange pick it; how they choose is scheduling.
- Recovery.NeverLost: of the edits behind a failed manifest write a crash leaves those up to some point, without any number of those whose own write failed; a manifest in which the reader reports corruption is not opened, and that is no step; a torn header that happens to read as an empty record of type zero is not modelled. A deleted file does not come back.
- RecoveryLimits.LostAfterFailedSave: the manifest written anew when the database is opened is one step, and becomes the current one or not.
- Recovery.SafeIsExact: the write is in one log record at most, as each takes a sequence number of its own (WriteQueue.LoggedExactlyOnce).
- Recovery.RecoversExactly: a table stands for the writes whose effect it carries, and a manifest for the result of replaying it; VersionBuilder, ManifestReplay and Lsm are about those.
- WritePath.OneStore: the run begins with a new database and has no crash, which is what WritePath.KeptForEver adds; flushing and compacting are separate steps of the files and of the tree, tied to each other by what readers find.
- WritePath.StepMirrored: a log is switched only when no memtable waits; MakeRoomForWrite waits for that.
- WriteQueue.CrashKeepsWhole: a record is whole or missing after a crash; LogReader.ReadAll and LogReader.WriteSomeAndRead show that this is what the file gives up to the first failed append. Behind it a crash may leave any set of records.
- LogReader.AppendAfterFailure: both records lie within one block. Of a failed append that left part of a header, or of one behind which the file reaches as far as its header claims, only what came before is followed to the reader; what the torn bytes themselves read as depends on the checksums of arbitrary bytes, so that no condition at the bytes is both necessary and sufficient.
- WriteQueue.SyncedSurvives: a crash may lose any set of records behind a failed append, while the bytes of some failures do read back.
- ManifestReplay.Reopen: the tables on disk are a catalog by number that the files of the edits are in; the switch of CURRENT to a new manifest is a step of Recovery.
- CompactionLimits.FlushInterleaves: the wrong lookup is shown as the place where the search of the level stops, since Version.Get is defined on disjoint levels only.
- SkipList.ReadStepKeeps: an iterator steps on from a node that an earlier search of some reader returned.
- VersionBuilder.Builder.SaveTo: files are compared by smallest key and number as in the source, but the sanity check that aborts on overlap is left out.
- Merger.MergingIterator.Next: the children have distinct keys, as internal keys of one store do.
- Block.BlockBuilder.Add: keys ascend and the block stays below 4 GiB, as the source asserts or assumes.
- BlockIter.Iter.Seek: blocks are well formed; the corruption branches are not modelled.
- Table.TableBuilder.Finish: when a block is full is a parameter, a condition on its entries.
- Table.InternalGet: blocks and index are sequences of entries; reading, caching and checking blocks is not modelled.
- Crc32c.Extend: each table is defined as steps of the register; the literal tables of the source are not transcribed.
- HandleTable.Table.Resize: chains are sequences in place of linked nodes, and reference counts and charges are unbounded.
- LruCache.LRUCache.Insert: the two doubly linked lists are sequences of handles; removing and appending keep their order, the pointer surgery is not modelled.
- SkipList.List.Insert: the random height is a parameter.
- FilterBlock.FilterBlockBuilder.Finish: the contents stay below 4 GiB, as the 32-bit offsets of the source assume.
- Bloom.BloomFilterPolicy.CreateFilter: the factor 0.69 is an exact fraction and the hash of a key is a parameter.
- LogReader.ReadAll: the reader starts at offset zero, with or without checksums.
- LogReader.ReadLog: of the reports beyond one for each loss only those at the end of a log are counted.
- MemTable.MemTable.Add: the list is a sequence; its links are in SkipList.
- ManifestEdit.VersionEdit.EncodeTo: the set of deleted files is walked in some order, the result being the same in any.
- NanopbWire.ReadVarint32: the 8-bit bit position of the source, which wraps on varints of more than 36 bytes, is unbounded.
- NanopbEncode.PutMessage: sizes stay below 2^64, so that size_t does not wrap; output bytes are a sequence in place of a buffer written through a pointer.
- NanopbMerge.SubmessageMerges: the submessage has required and optional fields of plain values; one with arrays, unions or submessages of its own is decoded in the same place, but what it is merged to is not stated.
- NanopbDecode.DecodeNoinit: tags are distinct. In a message type without fields the source reads a field of tag number zero as a boolean; that it stores the boolean where the message has no member is not modelled.
