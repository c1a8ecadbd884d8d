# A verified model of the LSM tree

This project models `cardano-lsm`, a log-structured merge tree written in Rust,
and proves properties of the model with Dafny 4.11. `dafny verify
dfyconfig.toml` checks all of it.

A tree has a memtable with tombstones, seven levels of immutable sorted runs, a
run-number counter and a generation counter. A compactor merges a level into
the next one in a round that is cut in three by its locks: it reads the
generation and clones the levels; it takes a run number and merges without any
lock; and it rechecks the generation, removes the merged runs by index and
pushes the output. Writes, flushes, in-memory snapshots and rollbacks run in
between. The repository has a plain map as reference (`runReferenceModel` in
`conformance-generator/src/ConformanceGen.hs`); the central theorem,
`Conformance.ConformsFromEmpty`, says that no interleaving can be told from
that map, under guards that are exact: a step breaks the agreement if and only if
it is not guarded (`Conformance.GuardsAreExact`).

## How it is put together

| modules | about |
|---|---|
| `Wrappers`, `ByteStrings`, `Keys`, `Sorting`, `Entries` | byte strings, the order of keys, stable sorting, sorted entries and the tables they define |
| `BloomFilter`, `SsTableFormat`, `SsTable`, `DamagedFiles`, `PointLookup` | the bytes of a run, its writer and parser, what the parser makes of other bytes, the bloom filter, the point lookup |
| `MemTables` | the write buffer and its size accounting |
| `StoredTree` | `get` and `range` of a tree from the bytes of its runs |
| `Levels`, `RunOrder`, `Compaction`, `CompactionView`, `LevelInvariant`, `CompactionProgress` | runs in levels, merging one level into the next, what readers see of it, and why it ends |
| `TreeState`, `TreeOperations`, `Reading`, `Holders`, `LsmTree` | the tree as a value, what each operation does to its parts, `range` and `get` on it, the runs they take their answers from, and the class whose methods update it in place |
| `Reference`, `Interleaving`, `InterleavingStructure`, `LevelTags`, `Conformance` | the reference map, all interleavings of a caller with a compactor, the invariants, and agreement with the map |
| `CompactAllView`, `SecondRound`, `StaleRound` | exactly when `compact_all`, and a write-back that another round has overtaken, go wrong |
| `CompactAllRace`, `EmptyBottomMerge`, `StaleRoundRuns`, `Witnesses` | runs of a new tree, and trees, on which each guard is needed |
| `Snapshots`, `ReopenView`, `VectorOrder`, `ReopenedTree` | persistent snapshots, and trees opened from them |
| `Handles`, `TreeHandles`, `TreeLiveness`, `SavedLiveness` | the shared reference count and the life of files, for calls on handles, for the tree that makes them, and for saving and opening |
| `Merkle`, `MerkleRebuild`, `MerkleProofs`, `MerkleCapacity` | the incremental Merkle tree |
| `Checksum`, `ChecksumRoundTrip`, `ChecksumText` | the checksum file, and its text character by character |

Objects that the source updates in place are classes (`SsTableWriter`,
`MemTable`, `LsmTree`, `HandleTable`, `IncrementalMerkleTree`); each method is
tied to a function on values by its `ensures`, and the theorems are about those
functions and about runs of them. Source loops are loops with invariants. Hash
functions (BLAKE3, CRC) are parameters, so every theorem holds for any hash
function; the comments in the source say CRC-32C, the code calls `crc32fast`.

The structural invariant `Interleaving.StateOk` holds after every sequence of
steps, `compact_all` among them. Run numbers are distinct and below the counter,
runs are sorted, and the bottom level has at most one run, without tombstones.
Which level a run is tagged with matters only when a snapshot is opened, and is
an invariant of its own (`LevelTags.TagsOk`): `compact_all` leaves a tag of 0 at
the bottom.

The steps of `Interleaving` are the sections between the locks of the levels.
A caller's operation takes the memtable's lock and the levels' lock one after
the other, but the compactor never touches the memtable, so its steps commute
with all but the section that holds the levels' lock; a flush is two steps,
because the compactor can take a run number or write back between the flush
taking its number and pushing its run. Taking a number and merging is one step,
since the merge reads only immutable runs.

## The guards, and what happens without them

The code keeps less than its documentation promises in these cases. Each has an
exact condition or a concrete run.

- A merge into the bottom level that leaves nothing does not clear the old
  bottom run, so a deleted key comes back. `Conformance.WriteBackView` and
  `Conformance.RoundView` say exactly when this happens
  (`CompactionView.Resurrects`); `EmptyBottomMerge.BottomMergeResurrects` is a
  family of runs of a new tree on which it does.
- `get` treats a tombstone in a run like a missing key and searches older runs,
  and it relies on vector order. It agrees with `range` on a key exactly when the
  run it stops at answers as the one readers take (`Holders.GetAgreesKeyByKey`).
  In number order that means that the newest entry on disk is not a tombstone
  hiding an older value (`Reading.GetAgreesExactly`,
  `Reading.GetReturnsDeletedValue`).
- Compaction reads keys up to 256 bytes of 0xFF only. Keys of at most 256 bytes
  qualify (`Keys.ShortKeysBelowTop`); any other key can be lost
  (`Witnesses.LongKeyIsLost`).
- Nothing excludes `compact` or `compact_all` while the background thread has a
  round under way, and only rollback changes the generation. What readers see of
  a write-back that was overtaken stays the same exactly when, for every key that
  nothing newer hides, the pushed run and the levels under it answer as the runs
  taken off and the levels under them did (`StaleRound.StaleWriteBackExactly`,
  `StaleRound.StaleRoundExactly`; in terms of the copied runs,
  `StaleRound.StaleTieringExactly`). There are two ways to fail. The removal takes
  as many runs off the front of its level as were copied, whatever they are
  (`SecondRound.WriteBackTakes`, `SecondRound.TwoRoundsOnL0`), so a flushed run can
  be lost (`Witnesses.TwoCompactorsLoseARun`). And a removal that takes nothing
  away is not harmless: the stale output is pushed all the same and can hide a
  newer value (`StaleRoundRuns.CompactInTheMiddle`,
  `StaleRoundRuns.CompactAllInTheMiddle`).
- `compact_all` merges by run number over all levels. It is invisible exactly
  when, for every key not in the memtable, the highest-numbered run holding it answers as the
  one readers take (`CompactAllView.CompactAllExactly`). A run flushed during a
  merge can break that, and an old value comes back
  (`CompactAllRace.CompactAllBringsBackOldValue`).
- `compact_all` writes its output with level tag 0 and keeps it at the bottom.
  Saving and opening puts runs by tag, so this run goes to L0. Readers see the
  same exactly when none of its keys, outside the other runs of L0, has another
  answer on the levels in between (`ReopenView.ReopenExactly`,
  `ReopenedTree.SavedAfterCompactAll`).
- `open_snapshot` sorts a level's vector by smallest key. `get` finds it in
  number order exactly when smallest keys rise with run numbers
  (`VectorOrder.SortedByMinKeyInOrder`, `ReopenedTree.GetAfterReopenIsStale`).
- A Merkle tree past its capacity still inserts, and its root is then the last
  leaf's topmost ancestor. A proof under the same ancestor is accepted
  (`MerkleCapacity.AcceptedUnderTop`). Any other is accepted if its ancestor's
  subtree has the same leaf bytes as the last one, and otherwise only with
  evidence against the hash function (`MerkleCapacity.AcceptedElsewhere`,
  `MerkleCapacity.RejectedMember`).
- The bytes hashed for a Merkle leaf determine the pair only for keys of equal
  length or without a colon (`MerkleProofs.LeafBytesInjective`,
  `MerkleProofs.PlainKeysInjective`, `MerkleProofs.ColonMovesBoundary`).
- On an operation byte other than 0 and 1, which the writer never writes, a scan
  reads a tombstone and a lookup an insert (`DamagedFiles.OtherOperation`,
  `PointLookup.OtherOperationIsInsert`).
- `SsTableWriter::add` is documented to write values to the blobs file at once;
  the code buffers entries and writes everything in `finish`, as here.
- A linked handle that outlives the handle it was linked from takes the
  snapshot's files with it (`Handles.LinkOutlivesLender`). Creating a snapshot
  never lets it, because the linked handle is dropped inside the borrow.

## Model

| member | source | states |
|---|---|---|
| `BloomFilter.FromKeys` | src/sstable.rs:681-704 | the filter built has set exactly the bits its keys hash to |
| `BloomFilter.MightContainLoop` | src/sstable.rs:706-716 | the early exit decides whether all seven bits of the key are set |
| `BloomFilter.NoFalseNegatives` | src/sstable.rs:706-716 | a key the filter was built from is never reported absent, for any hash function |
| `BloomFilter.ReportedExactly` | src/sstable.rs:706-716 | a key is reported present exactly when each of its seven bits is one that a key of the filter hashes to |
| `BloomFilter.HashedBytes` | src/sstable.rs:718-724 | what is hashed is the seed in four little-endian bytes, then the key |
| `BloomFilter.BitSetIsShift` | src/sstable.rs:695-713 | bits are counted from the low end of each byte |
| `BloomFilter.FilterSize` | src/sstable.rs:681-690 | ten bits a key, seven hashes, and as many bytes as the bits need |
| `ByteStrings.LittleEndianRoundTrip` | src/sstable.rs:154-171 | a number that fits a field is read back from its little-endian bytes |
| `ByteStrings.LittleEndianDigit` | src/sstable.rs:154-171 | byte i of a field is the digit of 256 to the power i |
| `ByteStrings.BytesRoundTrip` | src/sstable.rs:394-421 | any bytes read as a number are written back the same |
| `SsTable.SsTableWriter.Add` | src/sstable.rs:116-125 | an entry is appended to the buffered ones and nothing is written yet |
| `SsTable.SsTableWriter.WriteEntry` | src/sstable.rs:151-186 | one entry's bytes go to keyops with the running blob offset, its value to blobs, and the offset advances by the value's length |
| `SsTable.SsTableWriter.Finish` | src/sstable.rs:133-246 | an empty table is the only error; otherwise the files hold the sorted entries, every indexed offset is the size of all entries before it, the bounds are the first and last key, and the filter covers all keys |
| `SsTable.SortDistinct` | src/sstable.rs:141-141 | distinct keys come out strictly ascending and no entry is lost |
| `Sorting.SortByStable` | src/sstable.rs:141-141 | sorting is stable: elements of one rank keep their order |
| `SsTable.ParseKeyOps` | src/sstable.rs:473-520 | the cursor loop collects one placeholder per entry in range and one blob request per insert, and fails exactly when the bytes are cut short |
| `SsTable.ReadBatch` | src/sstable.rs:522-535 | the positioned reads fail exactly when one of them passes the end of the file |
| `SsTable.RangeWithTombstones` | src/sstable.rs:467-538 | parsing, batched reading and back-filling equal the declarative scan, for any bytes, malformed ones included |
| `SsTableFormat.ScanWritten` | src/sstable.rs:133-187 | round trip: scanning the written bytes for a range gives exactly the entries in that range, tombstones included, in order |
| `SsTable.ScanStored` | src/sstable.rs:467-538 | the same for a whole stored table |
| `SsTableFormat.EncodedFields` | src/sstable.rs:151-186 | the fields of an entry in order: key length, key, operation 1 or 0, blob position, value length |
| `DamagedFiles.FewBytesIgnored` | src/sstable.rs:480-485 | fewer than four bytes behind the last entry are ignored |
| `DamagedFiles.CutFileFails` | src/sstable.rs:487-514 | a file cut off inside an entry, past its length field, cannot be scanned |
| `DamagedFiles.ValueRead` | src/sstable.rs:506-531 | a value is the bytes its reference spans: an empty one may lie anywhere, any other must lie inside the blobs file |
| `DamagedFiles.OtherOperation` | src/sstable.rs:504-519 | a scan takes every operation but 1 for a tombstone |
| `PointLookup.BinarySearchFinds` | src/sstable.rs:385-392 | on ascending keys the search misses a key only when it is not there |
| `PointLookup.ReadStoredEntry` | src/sstable.rs:394-421 | the positioned reads at an indexed offset give the entry's value or its tombstone |
| `PointLookup.GetAgreesWithScan` | src/sstable.rs:377-430 | for every key, present or absent, the lookup through filter, index and reads equals a scan of the whole file and what the entries define |
| `PointLookup.WithoutOffsets` | src/sstable.rs:423-429 | a run whose index has no offsets is scanned instead, and every lookup gives the same answer |
| `PointLookup.OtherOperationIsInsert` | src/sstable.rs:403-421 | a lookup takes every operation but 0 for an insert and reads the bytes its reference spans, where a scan takes every one but 1 for a tombstone |
| `PointLookup.CutEntryFails` | src/sstable.rs:396-413 | a lookup whose reads reach beyond the file fails |
| `MemTables.MemTable.constructor` | src/lib.rs:371-377 | a new memtable is empty and accounts for no bytes |
| `MemTables.MemTable.Insert` | src/lib.rs:379-394 | the entry is replaced, and the size stays the bytes of all keys and live values, with no subtraction below zero |
| `MemTables.MemTable.Delete` | src/lib.rs:396-409 | a tombstone is left, its key still counted, and the same accounting holds |
| `MemTables.MemTable.Range` | src/lib.rs:427-438 | the buffered entries within the bounds, none for reversed bounds |
| `MemTables.SizeAfterPut` | src/lib.rs:379-409 | the size after a write is the size before it, plus the entry, minus the entry it replaces |
| `MemTables.SizeIsLengths` | src/lib.rs:379-409 | a table accounts for the lengths of all its keys and of all its live values |
| `MemTables.SizeOfWrite` | src/lib.rs:379-409 | a write adds its value and, for a new key, the key, and takes off the value it replaces |
| `Levels.MergeOnto` | src/lib.rs:991-1012 | inserting the runs' entries oldest first is laying their tables over one another, clipped to the range |
| `Levels.LevelTableSplit` | src/lib.rs:994-998 | a level of older runs followed by newer ones is the older table overlaid by the newer one |
| `Levels.LevelSizeAdds` | src/compaction.rs:86-87 | the size of a level is the number of entries of its runs added up |
| `TreeOperations.LastEntryCounts` | src/lib.rs:991-1012 | of several entries for a key the last one counts |
| `Compaction.SelectLevelCompaction` | src/compaction.rs:78-108 | the job is the first level over its target, with all its runs and the target level's runs |
| `Compaction.FirstOversizedIsFirst` | src/compaction.rs:85-107 | that level is larger than its target and every shallower one is not; without one no level is |
| `Compaction.LevelTargets` | src/compaction.rs:113-118 | the targets of levels 0 to 5 are 10,000, 40,000, 160,000, 640,000, 2,560,000 and 10,240,000 entries |
| `Compaction.OversizedComesFirst` | src/compaction.rs:348-371 | the shallowest oversized level is chosen, with all its runs and the runs of the next level, however many files L0 has |
| `Compaction.FilesComeSecond` | src/compaction.rs:348-371 | when no level is oversized, L0 is chosen exactly if it has files, and at least as many as the trigger |
| `Compaction.CompactLevels` | src/compaction.rs:125-205 | the output run holds the newest-wins merge: tombstones kept when tiering, dropped when the target is the bottom level, whose runs are merged underneath |
| `Compaction.Compact` | src/compaction.rs:208-281 | the merge by run number over all inputs, tombstones dropped only if every run is an input, tagged level 0 |
| `TreeOperations.FirstWinsIs` | src/compaction.rs:168-190 | of several target runs the first one that has a key decides |
| `Compaction.RemovesFirst` | src/compaction.rs:395-402 | on any level, removing indices below n in descending order takes off exactly the first n runs, or all of them if there are fewer |
| `Compaction.RemovesExactlyTheCopy` | src/compaction.rs:395-402 | so on a level that still begins with the copy it leaves exactly the runs pushed behind the copy |
| `CompactionView.TieringKeepsTable` | src/compaction.rs:156-205 | merging a level into a run on the next level keeps the whole newest-wins table, tombstones included |
| `CompactionView.LevelingKeepsView` | src/compaction.rs:156-205 | merging into the bottom level keeps what readers see, exactly when it does not resurrect a key |
| `CompactionView.CommitKeepsView` | src/compaction.rs:332-415 | the two cases together: a commit is invisible exactly when it does not resurrect a key |
| `CompactionView.ScannedAll` | src/compaction.rs:141-168 | compaction reads a whole table exactly when all its keys are within 256 bytes of 0xFF |
| `Keys.ShortKeysBelowTop` | src/compaction.rs:146-146 | every key of at most 256 bytes is within that bound |
| `Compaction.ReadKeys` | src/compaction.rs:146-146 | compaction reads a key exactly if it has at most 256 bytes or one of its first 256 bytes is not 0xFF |
| `Keys.FirstDifferenceDecides` | src/lib.rs:249-250 | the first different byte decides the order of keys, whatever follows it |
| `Keys.LeIsLexicographic` | src/lib.rs:249-250 | a key is at most another exactly if it is a prefix of it or has a smaller byte at the first difference |
| `LevelInvariant.CommitKeepsLevelsOk` | src/compaction.rs:373-412 | a commit keeps numbers distinct and below the counter, runs sorted, and the bottom level down to one run without tombstones |
| `LevelInvariant.PushKeepsLevelsOk` | src/lib.rs:1105-1109 | so does pushing a fresh run on L0 |
| `CompactionProgress.RoundDrops` | src/compaction.rs:348-412 | every round that finds work lowers the entries weighted by how many levels they may still sink |
| `CompactionProgress.IdleMeansAtRest` | src/compaction.rs:78-118 | a round finds no work exactly when each level above the bottom holds at most 10000 times 4 to its number entries and L0 has fewer files than the trigger |
| `CompactionProgress.ComesToRest` | src/compaction.rs:332-415 | without flushes, at most as many rounds as that weight bring the tree to rest |
| `LsmTree.LsmTree.Open` | src/lib.rs:495-655 | on an empty directory the new tree has an empty memtable, seven empty levels, and counts runs from 1 |
| `LsmTree.LsmTree.Insert` | src/lib.rs:836-853 | the write, followed by a flush when the buffer has reached its size |
| `LsmTree.LsmTree.Delete` | src/lib.rs:893-910 | the tombstone, followed by a flush when the buffer has reached its size |
| `LsmTree.LsmTree.FlushMemTable` | src/lib.rs:1071-1133 | the memtable becomes the newest run of L0 under the next number; an empty one changes nothing but is replaced |
| `TreeOperations.FlushMeaning` | src/lib.rs:1071-1109 | an empty memtable takes no number; any other becomes, under the next number and tag 0, the last run of L0 and defines the same table |
| `LsmTree.LsmTree.Get` | src/lib.rs:855-891 | memtable, then each level from the back of its vector, skipping runs whose bounds exclude the key |
| `LsmTree.LsmTree.Range` | src/lib.rs:984-1043 | the nested overwriting loops return the live entries of the layered newest-wins table within the bounds |
| `LsmTree.LsmTree.Snapshot` | src/lib.rs:1216-1228 | a copy of memtable, size and levels |
| `LsmTree.LsmTree.Rollback` | src/lib.rs:1230-1252 | memtable and levels are the snapshot's, the run counter stays, the generation advances |
| `TreeOperations.RollbackMeaning` | src/lib.rs:1216-1252 | rolling back to a snapshot gives its memtable and levels, keeps the run counter, and adds one to the generation |
| `LsmTree.LsmTree.ChooseRound` | src/compaction.rs:346-371 | the copy of the levels, and the job of `Compaction.OversizedComesFirst` and `Compaction.FilesComeSecond`, if there is one |
| `LsmTree.LsmTree.BuildRound` | src/compaction.rs:373-381 | takes a run number and merges the copy, changing nothing else |
| `LsmTree.LsmTree.WriteBackRound` | src/compaction.rs:383-414 | nothing if the generation moved on, else removal by index and the push that replaces the bottom level |
| `TreeOperations.WriteBackMeaning` | src/compaction.rs:385-411 | nothing under another generation; else no counter and only two levels change, and the target gets the output, alone if it is the bottom |
| `LsmTree.LsmTree.RunCompaction` | src/lib.rs:1142-1153 | one round with nothing in between |
| `LsmTree.LsmTree.CompactAll` | src/lib.rs:1155-1202 | one merge of all runs, alone on the bottom level |
| `TreeOperations.CompactAllMeaning` | src/lib.rs:1155-1202 | one number is taken if there is a run at all, and at most one run, under that number and tag 0, is left, at the bottom |
| `LsmTree.CollectRuns` | src/lib.rs:1157-1160 | the runs of all levels, L0 first |
| `TreeOperations.FlattenInOrder` | src/lib.rs:1157-1160 | each run stands behind those of all shallower levels, in the order of its vector |
| `Reading.RangeMeaning` | src/lib.rs:984-1043 | a pair is in the result exactly when its key is at least the first and at most the second bound and it is a live entry; keys are strictly ascending; reversed bounds give nothing |
| `Reading.RangeIsReferenceRange` | conformance-generator/src/ConformanceGen.hs:407-411 | that result is the reference model's list comprehension over the sorted map |
| `Reference.WritesAreSeen` | conformance-generator/src/ConformanceGen.hs:396-430 | in the reference model a write is seen under its key and nowhere else, and `compact` changes no answer |
| `Reference.RollbackAnswers` | conformance-generator/src/ConformanceGen.hs:412-425 | a rollback answers as at the snapshot |
| `Reference.UnknownSnapshot` | conformance-generator/src/ConformanceGen.hs:412-425 | a rollback to a name never used changes nothing and says so |
| `Reference.ResultsInOrder` | conformance-generator/src/ConformanceGen.hs:389-395 | result i is that of operation i on what the operations before it leave |
| `StoredTree.WriteRun` | src/sstable.rs:116-246 | ascending entries added one by one and finished are stored unchanged, since sorting them again changes nothing |
| `StoredTree.FlushToDisk` | src/lib.rs:1071-1100 | a flushed memtable is stored as the run of its entries |
| `StoredTree.ReadRunAnswers` | src/sstable.rs:377-430 | reading a stored run for a key never fails and answers as the run does |
| `StoredTree.Get` | src/lib.rs:855-891 | on the bytes of every run in the levels, `get` never fails and gives the answer of the tree as a value |
| `StoredTree.Range` | src/lib.rs:984-1043 | on the bytes, `range` gives the live entries in range of the layered table the levels define |
| `Reading.GetAgreesExactly` | src/lib.rs:855-891 | with vectors in number order, the lookup agrees with the view exactly when no flushed tombstone hides an older value |
| `Holders.TakenAnswers` | src/lib.rs:984-1043 | what readers see on disk for a key is the entry of the highest-numbered run on the topmost level holding it, and nothing when no run does |
| `Holders.HighestAnswers` | src/compaction.rs:220-270 | a merge by number over any runs answers for a key as the highest-numbered run holding it |
| `Holders.TakenIs` | src/lib.rs:984-1043 | that run holds the key on a level with no holder above it and none of a higher number beside it; without one no run holds the key |
| `Holders.StopIs` | src/lib.rs:855-891 | `get` stops at the rearmost run with a live entry on the topmost level that has one, tombstones passed over |
| `Holders.GetAgreesKeyByKey` | src/lib.rs:855-891 | whatever the order of the vectors, `get` agrees with the view on a key exactly when the run it stops at and the run readers take give the same live answer, or the memtable has the key |
| `Reading.GetReturnsDeletedValue` | src/sstable.rs:403-405 | two runs on L0 of a tree of seven levels: a deleted key is still found |
| `Witnesses.DeletedAfterFlushHappens` | src/lib.rs:1071-1133 | that tree is what insert, flush, delete and flush make of a new one |
| `Interleaving.NextKeepsShape` | src/compaction.rs:332-415 | every step is defined on the result of every other |
| `Interleaving.ExecOneMore` | src/compaction.rs:332-415 | a step at the end of a run happens exactly if it is possible there, and a call is answered then |
| `Interleaving.NobodyElseWaits` | src/compaction.rs:332-415 | the compactor never waits for the caller; the caller waits for its own flush only, and with a compaction for a round under way |
| `InterleavingStructure.WriteBackIsCommit` | src/compaction.rs:385-415 | while the generation is current, writing back is committing the merge of the copy to the live levels |
| `InterleavingStructure.CompactedIsCommit` | src/lib.rs:1142-1153 | a round run in one go commits the chosen level under the next run number |
| `InterleavingStructure.NextOk` | src/lib.rs:1071-1252 | every step of caller and compactor, `compact_all` included, keeps the structural invariant, guarded or not, for keys compaction can read |
| `InterleavingStructure.AlwaysStateOk` | src/lib.rs:1071-1252 | so every reachable state, `compact_all` among the steps, has distinct run numbers below the counter and a bottom level of at most one run without tombstones |
| `InterleavingStructure.ReadyIsExact` | src/compaction.rs:385-411 | the write-back of a finished round removes exactly the merged runs, or changes nothing if the generation moved on |
| `InterleavingStructure.RoundUnderWay` | src/compaction.rs:344-411 | in every interleaving, before and after the merge, the copy of L0 is a prefix of L0 and all deeper levels are untouched as long as the generation is current, and the write-back to come removes exactly the merged runs |
| `InterleavingStructure.AlwaysOrdered` | src/lib.rs:1104-1109 | starting in order, every vector stays in run-number order across flush, compaction, `compact_all` and rollback |
| `LevelTags.NextTagsOk` | src/sstable.rs:133-246 | every step keeps each run above the bottom tagged with its level, and the bottom run tagged with the bottom level or, once `compact_all` may have been called, with 0 under a number below all of L0 |
| `LevelTags.AlwaysTagsOk` | src/sstable.rs:133-246 | so this holds after every interleaving, for the levels, the snapshots and the rounds under way |
| `LevelTags.TagsRightWithoutCompactAll` | src/sstable.rs:133-246 | without `compact_all` every run of every reachable tree is tagged with its level |
| `Conformance.StartFlushView` | src/lib.rs:1071-1100 | taking the memtable out for a flush is invisible |
| `Conformance.FinishFlushView` | src/lib.rs:1105-1109 | pushing the flushed run is invisible |
| `Conformance.WriteBackView` | src/compaction.rs:385-415 | a write-back in any sound state is invisible exactly when it is stale or does not resurrect a key |
| `Conformance.RoundView` | src/lib.rs:1142-1153 | a round run in one go is invisible exactly when it does not resurrect a key |
| `Conformance.CompactView` | src/lib.rs:1142-1153 | the same for `compact` called between other steps |
| `Conformance.CompactAllInvisible` | src/lib.rs:1155-1202 | `compact_all` between other steps is invisible when numbers answer as readers do |
| `Conformance.CallAgrees` | conformance-generator/src/ConformanceGen.hs:396-430 | each operation of the caller gets the reference model's answer and leaves the reference model's map |
| `Conformance.StepConforms` | src/compaction.rs:332-415 | one guarded step, `compact_all` included, keeps the invariant and the agreement |
| `Conformance.GuardsAreExact` | src/compaction.rs:332-415 | every guard is exact: in a sound state that agrees with the model, a possible step with a readable key keeps the agreement and gets the model's answer if and only if it is guarded |
| `Conformance.Conforms` | conformance-generator/src/ConformanceGen.hs:389-430 | from any sound state, every guarded interleaving answers as the reference model does |
| `Conformance.ConformsInOrder` | conformance-generator/src/ConformanceGen.hs:389-430 | the same from a sound state with vectors in number order, where a lookup needs only that no flushed tombstone hides an older value |
| `Conformance.ConformsFromEmpty` | conformance-generator/src/ConformanceGen.hs:389-430 | every such interleaving of a new tree gives `runReferenceModel`'s results, and every range of the final tree is the model's |
| `RunOrder.SortIgnoresOrder` | src/compaction.rs:220-221 | sorting by distinct run numbers forgets the order runs were collected in |
| `CompactAllView.SortIsLayered` | src/compaction.rs:220-221 | sorting all runs by number gives the readers' order exactly when numbers fall with depth |
| `CompactAllView.CompactedAllTable` | src/lib.rs:1155-1202 | the levels then define the merge by number without its tombstones, in at most one run |
| `CompactAllView.CompactAllExactly` | src/lib.rs:1155-1202 | `compact_all` is invisible exactly when, for every key outside the memtable, the highest-numbered run holding it and the run readers take give the same live answer |
| `CompactAllView.CompactAllKeepsView` | src/lib.rs:1155-1202 | it is invisible if, among the runs that hold a key, numbers fall with depth |
| `CompactAllView.LayeredNumbersKeepView` | src/lib.rs:1155-1202 | in particular whenever numbers fall with depth, which is when the merge goes in the readers' order |
| `CompactAllView.CompactedAllOk` | src/lib.rs:1155-1202 | its result satisfies the structural invariant again, guarded or not |
| `CompactAllRace.RaceIsGuarded` | src/compaction.rs:332-415 | a flush during a merge breaks none of the guards |
| `CompactAllRace.CompactAllBringsBackOldValue` | src/lib.rs:1155-1202 | after that run of a new tree, `compact_all` replaces the newer value by the older one |
| `EmptyBottomMerge.BottomMergeResurrects` | src/compaction.rs:174-181 | for any more than 10,240,000 distinct readable keys: a new tree, the keys written, flushed and compacted to the bottom, all deleted, flushed and compacted five times shows nothing; the sixth `compact` brings every key back with its value |
| `EmptyBottomMerge.FourByteKeysResurrect` | src/compaction.rs:174-181 | 10,240,001 keys of four bytes are such keys |
| `Witnesses.LongKeyIsLost` | src/compaction.rs:146-146 | inserted and flushed in a new tree, any key above the bound disappears with the first round |
| `Witnesses.SuchAKeyExists` | src/compaction.rs:146-146 | 257 bytes of 0xFF are such a key |
| `Witnesses.TwoCompactorsLoseARun` | src/lib.rs:1142-1153 | a background round and `compact` at once: the second write-back removes a run flushed in between |
| `SecondRound.WriteBackTakes` | src/compaction.rs:395-402 | a write-back under the current generation takes off the front of whatever level it finds as many runs as its copy has, and nothing else |
| `SecondRound.SecondRoundExactly` | src/compaction.rs:395-402 | on the removal alone: if others took runs off the front of the level and pushed more behind, it takes only runs it merged exactly when they took none, pushed none, or took everything |
| `SecondRound.TwoRoundsOnL0` | src/lib.rs:1142-1153 | on the removal alone: L0 is copied, flushed onto, taken whole by `compact`, flushed onto again and written back; runs that were never merged go exactly when something was flushed after `compact` |
| `StaleRound.StaleWriteBackExactly` | src/compaction.rs:373-412 | for any copy and any levels, out of date or not, keys above the bound included: a write-back is invisible exactly when, for every key nothing newer hides, the levels from the target down answer after the push as they did under the runs taken off |
| `StaleRound.StaleWriteBackAnyOrder` | src/compaction.rs:373-412 | the same for a source level that is not in number order, as in a reopened tree |
| `StaleRound.TieredAnswers` | src/compaction.rs:156-205 | above the bottom the copied runs then answer for a readable key unless a later number on the target level holds it; otherwise the target level and those below answer as they were |
| `StaleRound.BottomAnswers` | src/compaction.rs:168-205 | at the bottom the copied runs answer, or the live bottom run if nothing of them is left |
| `StaleRound.StaleTieringExactly` | src/compaction.rs:373-412 | so above the bottom a write-back is invisible exactly when, for every key nothing newer hides, this answer is the one readers had: a condition on the copied and the live runs alone |
| `StaleRound.StaleRoundExactly` | src/compaction.rs:385-412 | the exact condition in any state, with a flush under way or not, for the write-back of any round under the current generation |
| `StaleRoundRuns.CompactInTheMiddle` | src/lib.rs:1142-1153 | a run of a new tree: `compact` in the middle of a background round; its write-back takes nothing away and brings the older value back |
| `StaleRoundRuns.CompactAllInTheMiddle` | src/lib.rs:1155-1202 | the same with `compact_all` in the middle |
| `Snapshots.Create` | src/snapshot.rs:66-108 | fails for an existing name or two runs with one number, else makes the record of every run, in order |
| `Snapshots.RecordMeaning` | src/snapshot.rs:101-107 | a record has the least and the greatest key of the run, and the number of its entries, under its own number and tag |
| `Snapshots.SaveSnapshot` | src/lib.rs:1291-1313 | flushes, then records every run of the flushed tree, L0 first; fails after the flush for an existing name |
| `Snapshots.OpenHandles` | src/lib.rs:723-745 | opens every recorded run under its number and tag, and finds the highest number |
| `Snapshots.Distribute` | src/lib.rs:752-769 | runs go to the level of their tag, each level sorted by smallest key |
| `Snapshots.OpenSnapshot` | src/lib.rs:661-832 | the tree opened has those levels and a counter above every restored number |
| `Snapshots.PlacedByTag` | src/lib.rs:752-764 | a run is on a level exactly if it was recorded with that tag |
| `Snapshots.SortedByLeastKey` | src/lib.rs:766-769 | within a level least keys do not fall, and runs with the same one keep the order of the records |
| `Snapshots.CounterAfterOpening` | src/lib.rs:747-748 | the counter starts one above the highest number restored, at 1 if there is none |
| `Snapshots.RoundTripKeepsLevels` | src/snapshot.rs:86-108 | saving and opening puts every run back on its level exactly when every run is tagged with its level |
| `ReopenView.ReopenKeepsTable` | src/lib.rs:720-769 | then the reopened tree defines the same table |
| `ReopenView.ReopenExactly` | src/lib.rs:720-769 | for any tree the interleavings reach, saving and opening keeps what readers see exactly when no key of a bottom run tagged 0, outside the other runs of L0, has a different live answer on the levels in between |
| `ReopenView.ReopenKeepsLevelsOk` | src/lib.rs:747-769 | the reopened tree satisfies the structural invariant, every later run number being above all restored ones |
| `VectorOrder.SortedByMinKeyInOrder` | src/lib.rs:766-769 | a vector sorted by smallest key is in number order exactly when, for every two runs, the one in front has the smaller number just if its smallest key is not the greater one |
| `ReopenedTree.OpenedStateOk` | src/lib.rs:661-832 | a reopened tree is a sound state, and agrees with the saved map exactly under that condition |
| `ReopenedTree.OpenedTagsOk` | src/lib.rs:752-769 | every run of a reopened tree is tagged with its level, so the same conditions apply to the next save |
| `ReopenedTree.OpenedInOrder` | src/lib.rs:766-769 | its vectors are in number order exactly when smallest keys follow numbers on each saved level, the bottom run counted with L0 if tagged 0 |
| `ReopenedTree.ReopenedConforms` | src/lib.rs:661-832 | save, open, go on: where the save keeps what readers see, every guarded interleaving on the reopened tree answers as the reference model going on from the saved map |
| `ReopenedTree.ReopenedConformsInOrder` | src/lib.rs:661-832 | and if smallest keys follow numbers, with the lookup guard of a new tree only |
| `ReopenedTree.GetAfterReopenIsStale` | src/lib.rs:766-769 | two runs saved and opened: `get` answers with the older value |
| `ReopenedTree.HowItHappens` | src/lib.rs:1155-1202 | insert, flush, `compact_all`, insert, flush and `compact` lead to a bottom run tagged level 0 |
| `ReopenedTree.SavedAfterCompactAll` | src/lib.rs:756-769 | saved and opened, that run hides the newer one |
| `Handles.HandleTable.constructor` | src/sstable.rs:257-270 | a process starts with no handles and whatever files snapshots have |
| `Handles.HandleTable.Publish` | src/sstable.rs:236-246 | a finished run has its files and one handle with a counter of one |
| `Handles.HandleTable.Clone` | src/sstable.rs:654-669 | one more handle, the shared counter one higher |
| `Handles.HandleTable.LinkNames` | src/sstable.rs:562-580 | the five files are linked in order; the first taken name ends it, the names before it stay |
| `Handles.NamesBefore` | src/sstable.rs:561-580 | which names are left when one is taken: those before it of keyops, blobs, filter, index, checksums |
| `Handles.HandleTable.HardLinkTo` | src/sstable.rs:556-596 | new names for all files and a handle on the same counter; or, if a name is taken, only the names before it and no handle |
| `Handles.HandleTable.Drop` | src/sstable.rs:641-652 | the counter one lower, never below zero, and the handle's own files gone exactly if it was the last |
| `Handles.HandleTable.LinkAll` | src/snapshot.rs:93-108 | the loop links each run and drops the linked handle at once, stopping at the first failure |
| `Handles.LinkedOnceAddsFiles` | src/snapshot.rs:93-108 | one turn of that loop changes no handle and no counter and only adds files |
| `Handles.SaveLinksEveryRun` | src/snapshot.rs:84-108 | in a new directory it succeeds exactly when numbers are distinct, and adds precisely the files of every run |
| `Handles.NextSound` | src/sstable.rs:641-670 | every call keeps counters equal to the handles sharing them, held runs on disk, and no file of a run without a handle |
| `Handles.Liveness` | src/sstable.rs:556-670 | for every sequence of calls: the files of a run exist exactly while a handle on it lives, and every file of a snapshot remains |
| `TreeHandles.StepOwns` | src/lib.rs:1071-1252 | after every step of an interleaving, levels, snapshots, flush and round hold no handle that was not held before, published or cloned from one held; a published run takes the next number |
| `TreeHandles.ChosenHolds` | src/compaction.rs:346-371 | a round with a job holds the runs of the target level twice, all others of its copy once |
| `TreeHandles.ReadyHolds` | src/compaction.rs:373-381 | a round that has merged holds the runs of the source level twice, all others once, and its output |
| `TreeLiveness.StepCalls` | src/lib.rs:1071-1252 | so each step is a sequence of handle calls, each one allowed where it comes, that leaves the process with exactly the handles the state holds |
| `TreeLiveness.TraceCalls` | src/lib.rs:1071-1252 | and so is every interleaving |
| `TreeLiveness.HostedFilesMatch` | src/sstable.rs:641-670 | a process with exactly those handles has all files of every run held, and no others in `active/` |
| `TreeLiveness.TreeLiveness` | src/sstable.rs:556-670 | every interleaving of a new tree: the runs in the levels, in-memory snapshots, flush and round have their files, no other run has, and saved snapshots keep theirs |
| `SavedLiveness.SaveCalls` | src/snapshot.rs:84-108 | saving under a new name clones every handle, links and drops each run, and drops the clones: the process holds what it held, and precisely the files of every run are added |
| `SavedLiveness.SessionCalls` | src/lib.rs:1291-1313 | every mixture of steps and saves is a sequence of allowed handle calls |
| `SavedLiveness.NewSessionLiveness` | src/lib.rs:1291-1313 | for every such session of a new tree: runs in sight have their files, no other run has, and every snapshot, found or saved on the way, is whole |
| `SavedLiveness.OpenCalls` | src/lib.rs:693-745 | opening publishes each recorded run in a new process |
| `SavedLiveness.OpenedSessionLiveness` | src/lib.rs:661-832 | the same for every session of a tree opened from a saved one: whatever it compacts or saves, the snapshot it came from and all others stay whole |
| `Handles.SnapshotFilesStay` | src/snapshot.rs:93-108 | files linked into a snapshot at any point are still there at any later one |
| `Handles.LinkOutlivesLender` | src/sstable.rs:556-596 | outside a borrow, dropping the original first deletes the linked files and leaves its own behind |
| `Merkle.IncrementalMerkleTree.constructor` | src/merkle.rs:116-126 | a new tree stores no node and its root is the empty hash |
| `Merkle.IncrementalMerkleTree.Insert` | src/merkle.rs:129-211 | the climb from the new leaf updates one path and yields the siblings met on the way |
| `Merkle.IncrementalMerkleTree.Prove` | src/merkle.rs:214-251 | the last value of an inserted key with the siblings of its leaf's path, none for other keys |
| `Merkle.IncrementalMerkleTree.VerifyProof` | src/merkle.rs:259-271 | accepts exactly when folding the siblings onto the leaf gives the root |
| `Merkle.IncrementalMerkleTree.Verify` | src/merkle.rs:274-285 | the same against the tree's own root |
| `Merkle.IncrementalMerkleTree.Diff` | src/merkle.rs:287-312 | no paths if the roots agree; else a path is in the result exactly if it is stored in one tree only or with another hash |
| `Merkle.IncrementalMerkleTree.Rollback` | src/merkle.rs:327-335 | the whole tree is the snapshot's |
| `Merkle.DifferentExactly` | src/merkle.rs:287-312 | the same of the function the proofs are about |
| `Merkle.LeafLayout` | src/merkle.rs:30-37 | what is hashed for a leaf: `leaf:`, key, colon, value, byte by byte |
| `Merkle.NodeLayout` | src/merkle.rs:39-46 | what is hashed for a node: `node:`, left hash, colon, right hash, byte by byte |
| `Merkle.EmptyIsZero` | src/merkle.rs:26-28 | the empty hash is 32 zero bytes |
| `MerkleProofs.SiblingsAre` | src/merkle.rs:222-243 | on every level a proof has the node beside the leaf's ancestor, marked left exactly if the ancestor is a right child |
| `MerkleProofs.TwoLeaves` | src/merkle.rs:129-251 | root and both proofs of a tree with two leaves, written out |
| `MerkleRebuild.OccupiedExactly` | src/merkle.rs:143-206 | a path within the width of its level is one with a leaf below it, and no other |
| `MerkleRebuild.WidthRoundsUp` | src/merkle.rs:348-350 | a level is as wide as the number of leaves over 2 to the level, rounded up |
| `MerkleRebuild.InsertIsRebuild` | src/merkle.rs:129-211 | for any leaves, updating one path gives the tree that a rebuild from all leaves gives, and the siblings of the finished tree |
| `MerkleRebuild.RootIsTopNode` | src/merkle.rs:204-206 | within capacity and once a leaf is there, the root is the stored node at the top |
| `MerkleRebuild.NodeCount` | src/merkle.rs:348-350 | the stored nodes number the widths of all levels added up |
| `MerkleProofs.LastInsertion` | src/merkle.rs:133-139 | a key is found at its last insertion with the value given there |
| `MerkleProofs.ProofOfMember` | src/merkle.rs:214-251 | a key has a proof exactly when it was inserted; it is accepted exactly when the leaf's topmost ancestor hashes to the root |
| `MerkleCapacity.AcceptedUnderTop` | src/merkle.rs:214-271 | a key whose leaf shares its topmost ancestor with the last leaf has an accepted proof, at any size |
| `MerkleCapacity.AcceptedElsewhere` | src/merkle.rs:214-271 | any other key has one if its subtree and the last one hold the same leaf bytes, and only then unless comparing the two yields explicit evidence against the hash function |
| `MerkleCapacity.CompareIsGenuine` | src/merkle.rs:30-46 | walking down two subtrees of equal hash yields a genuine collision or empty preimage, or shows them equal leaf by leaf |
| `MerkleCapacity.SameLeaves` | src/merkle.rs:30-46 | equal subtrees have the same leaf bytes at each position |
| `MerkleCapacity.RejectedMember` | src/merkle.rs:204-271 | a hash function and two insertions into a tree of height 0 after which the first key is inserted, proved and rejected |
| `MerkleProofs.InsertProves` | src/merkle.rs:204-211 | `insert` returns the proof `prove` gives right after it, and it is accepted even past capacity |
| `MerkleProofs.RunIsRebuild` | src/merkle.rs:129-335 | after any run of inserts, snapshots and rollbacks the tree is the rebuild of the current history |
| `MerkleProofs.CompleteOverRuns` | src/merkle.rs:214-285 | within capacity every key of the current history has an accepted proof of its last value |
| `MerkleProofs.DiffDecidesEquality` | src/merkle.rs:287-312 | for trees from any two runs, of any heights, `diff` is empty exactly when the roots are equal |
| `MerkleProofs.ExtractIsGenuine` | src/merkle.rs:30-46 | walking an accepted proof and the tree down together yields a genuine collision or empty preimage, or shows the leaf |
| `MerkleProofs.Sound` | src/merkle.rs:259-271 | an accepted proof against the root of a non-empty tree has one sibling per level and the bytes of the leaf its directions spell, or yields explicit evidence against the hash function |
| `MerkleProofs.LeafBytesInjective` | src/merkle.rs:30-37 | equal leaf bytes mean the same pair exactly when the keys are equally long |
| `MerkleProofs.PlainKeysInjective` | src/merkle.rs:30-37 | for keys without a colon, leaf bytes determine the pair |
| `MerkleProofs.ColonMovesBoundary` | src/merkle.rs:30-37 | two different pairs with the same leaf bytes |
| `Checksum.ParseChecksumsFile` | src/checksum.rs:93-115 | the loop gives the entries of all lines, the last one of a name winning, or the first line that is wrong and why |
| `Checksum.FormatChecksumsFile` | src/checksum.rs:166-175 | one line per entry, sorted by name |
| `ChecksumText.PrintedFile` | src/checksum.rs:162-175 | a file of two entries, character by character |
| `ChecksumText.LineText` | src/checksum.rs:162-175 | every line, from name and digits |
| `ChecksumText.DigitAt` | src/checksum.rs:61-63 | each digit is the lower-case one of its four bits |
| `ChecksumText.FirstDifferenceDecides` | src/checksum.rs:167-168 | the first different character decides the order of names, whatever follows it |
| `ChecksumText.PrefixFirst` | src/checksum.rs:167-168 | a name comes before its extensions |
| `ChecksumText.NumbersAccepted` | src/checksum.rs:66-70 | a plus sign, capitals and short numbers are accepted; an empty number, a minus sign, other letters and overflow are not |
| `ChecksumText.DigitValues` | src/checksum.rs:66-70 | the digits of either case, and no other character |
| `ChecksumText.TrimMeaning` | src/checksum.rs:97-97 | trimming takes white space, and nothing else, from both ends until none is left there |
| `ChecksumText.LineByLine` | src/checksum.rs:96-96 | a newline ends a line, be it empty; what follows the last newline is a line only if there is something |
| `ChecksumText.OneReturn` | src/checksum.rs:96-96 | one carriage return before the newline goes with it |
| `ChecksumText.PartsOfLine` | src/checksum.rs:118-161 | every outcome for a line with the prefix and a closing parenthesis, from the name and what follows |
| `ChecksumText.OtherLines` | src/checksum.rs:121-135 | any other line is refused, and why |
| `ChecksumText.OneLineMore` | src/checksum.rs:96-112 | blank lines are skipped, the later of two lines for a name counts, and a problem carries the number of its line |
| `ChecksumRoundTrip.HexRoundTrip` | src/checksum.rs:61-70 | every 32-bit value is eight digits that parse back to it |
| `ChecksumRoundTrip.LineParses` | src/checksum.rs:118-161 | a printed line parses to its name and digits |
| `ChecksumRoundTrip.ParsedNamesAreGood` | src/checksum.rs:138-142 | no parsed name has a parenthesis or a newline |
| `ChecksumRoundTrip.FileRoundTrip` | src/checksum.rs:93-175 | parsing the printed file of any map, iterated in any order, gives the map back exactly when no name has a parenthesis or a newline |
| `ChecksumRoundTrip.OutputIsDeterministic` | src/checksum.rs:162-175 | the printed file does not depend on the order the map is iterated in |

## Left out

- `insert_batch`, `get_batch`, `delete_batch`, `scan_prefix`, `iter`, `LsmSnapshot::get` and `LsmSnapshot::iter`: loops over, or variations of, the operations modelled; `LsmSnapshot::iter` keeps the oldest value on disk and skips tombstones, and the upper bound of `scan_prefix` is inclusive, so neither is the tree's own view.
- `src/monoidal.rs`: folds over `range`, which would only add easy members.
- Real files, `fsync`, atomic rename, `io_uring`, I/O errors and their texts: a file is a byte sequence, or a member of the set of files that exist. Serialisation by bincode, CBOR and JSON is library code.
- Crash recovery in `LsmTree::open`, which files every run it finds under level 0, and the session lock.
- Threads: back-pressure, credits, condition variables and the wait loops of a flush. What is kept is every interleaving of the sections between locks.
- Word sizes of counters, offsets and generations: they are unbounded here. The field widths of the file format are modelled (`SsTableFormat.Encodable`), and `u32` in the checksum file.
- `immutable_memtables`, which nothing is pushed to, the sequence number, which never advances, statistics, configuration, and the strategy parameters that the compactor ignores.
- `delete_snapshot`: it removes the directory, not through a handle.
- Interleaving.Enabled: `compact` and `compact_all` are steps only while no other round is under way; what a write-back does when they are not is `StaleRound`, for one write-back at a time.
- LsmTree.LsmTree.Open: models opening an empty directory; the runs that crash recovery would find in one are not part of this model.
- TreeLiveness.TreeLiveness: has no saves and starts at a new tree; `SavedLiveness` adds both. A save there comes right after its flush, and no other thread takes a step between its calls.
- SavedLiveness.OpenCalls: opens the runs level by level, not in the order of the records; the links from the snapshot into `active/` are part of publishing.
- SecondRound.SecondRoundExactly: is about the removal alone; what readers see is `StaleRound.StaleWriteBackExactly`.
- SecondRound.TwoRoundsOnL0: is about the removal alone, for a `compact` that takes L0; any other mixture of rounds is covered by `StaleRound.StaleRoundExactly`.
- Merkle.IncrementalMerkleTree.Diff: returns the differing paths as a set; the source's vector has them in the order of a hash map.
- Checksum.ParseChecksumsFile: gives the line and the kind of an error, not its text.
