# TimberDB in Dafny

A model of TimberDB's storage engine and proofs about it. TimberDB is a single-process LSM store: records go to a
write-ahead log, then to a sorted memtable per time window, then to immutable SSTables that scans merge and a compactor
rewrites. Each layer has a simple reading (a multiset of records, filtered and sorted) which the code must match. Four
layers are modelled.

**The storage protocol.** `Protocol` is a step machine over a disk (WAL segments, SSTables, manifest edits) and a memory
(memtables, appends between log and memtable, flush snapshot, open readers, program points of flusher and compactor).
Appenders, flusher and compactor interleave freely, a crash may come after any step, and `Open` is itself made of steps.
`Effects` says what whole flushes, merges, retirements and appends do, in terms of the labels of a run alone.
`Structure` proves the invariant every step keeps; `CrashSafety` proves that recovery is exact throughout a run if and
only if every step meets a guard that can be read off the state; `Discipline` turns the guards into rules about the
workload; `Conservation` follows the records in memory; `Witnesses` exhibits runs that lose, repeat or bring back
records. `Recovery` proves the loops of `Open` on reader lists and memtable histories, and `Reopen` the memtables they
rebuild.

**SSTables.** `Blocks` has the row and columnar codecs, `TableFormat` and `TableFile` the file layout and `NewReader`,
`Writer` the writer, `Scans` what a scan must deliver and where it starts, `RowScan` the row iterator with the block
cache and the reused decompression buffer on the heap, `ScanPool` any number of such iterators over one cache, `ColScan`
the columnar iterator, `Caching` the LRU cache, `Tables` the composition. CRC32, the compression libraries and JSON are
function parameters; compression and JSON have an assumed left inverse, the checksum has no assumption at all.

**Merging and reading.** `Heap` and `Merge` are the array heap and the k-way merge, `LiveMerge` runs it over live row
iterators that share one cache, `Compaction` uses it to write a merged table, `Memtable`, `Router` and `Windows` are the
in-memory side, `EngineScan` and `Aggregate` put everything together, and `EndToEnd` joins the scan with the step
machine. In `Merge` an iterator is the list it will deliver; that each iterator does deliver that list is what
`RowScan`, `ColScan` and `Memtable` prove.

**Logs.** `Framing`, `Wal` and `Manifest` are the two logs over bytes, cut at any byte or damaged anywhere.

## Findings

Statements that are not true of the code in general, each with the exact condition or a concrete run:

- Flushing one window deletes the WAL segment that all windows share (`Witnesses.SharedSegmentLosesRecords`); the guard of
  that step is the exact condition.
- A record at or below its window's flushed maximum that arrives after the flush is skipped by replay
  (`Witnesses.LateRecordIsLost`). A missing maximum reads as 0, so a flush whose maximum is 0 or less is replayed again on
  top of its file (`Witnesses.ZeroMaximumRepeatsRecords`). Retiring a file uncovers records that are still logged
  (`Witnesses.RetiredRecordReturns`). All three are in the guards of `CrashSafety.CrashSafetyIff`.
- `compactSeq` starts again at 0 after a restart, so the name of a merge output can be reused while the file is live
  (`Witnesses.ReusedNameLosesRecords`). Reusing the name of a dead output truncates nothing, but the early return of
  `Open` can then leave the file with two readers, so that a scan reads its records twice
  (`Witnesses.ReusedNameOpensTwice`); `Recovery.ListsAreSetIff` is the exact condition on the manifest. `Structure.Fresh`
  excludes both.
- A flush takes its file name from `walSeq`, which `Open` recomputes from the WAL files it finds. When `Open` dies after
  removing the newest segment as covered and before it creates the next one, the numbers start again and a flush truncates
  a live SSTable (`Witnesses.RestartedNumbersLoseRecords`). Flush names are fresh in every run in which `Open` finds its
  newest segment numbered no lower than the flush files of the manifest (`Structure.FlushNamesAreFresh`), and only a crash
  inside `Open` can bring about the other case (`Structure.CrashesOutsideOpen`).
- A WAL or manifest cut exactly after an 8-byte frame header makes replay, and so `Open`, fail (`Wal.PrefixRecovery`,
  `Manifest.ReopenTorn`); a body over 10 MiB silently ends replay (`Wal.FullReplay`).
- `Reader.Scan` starts at the last block whose first timestamp is at most `start` and misses matching records stamped
  exactly `start` in earlier blocks (`Scans.StartBlockExactIff`). docs/src/architecture.md:68 describes another rule; the
  model follows the code. `Aggregate`'s columnar path reads every block and so can disagree with the row path
  (`Aggregate.PathsAgreeIff`).
- `MaxInt64` is an exclusive end in `Freeze` and `Merge` (`Compaction.MergedContent`, `Memtable.Memtable.Freeze`).
- A memtable filters by an empty but non-nil source, an SSTable does not (`EngineScan.ReadingsAgree`).
- `Memtable.Scan` panics for some ranges with `start > end` (`Memtable.Memtable.Scan`).
- A headerless file whose first block has 0x42524D54 records can be taken for a later version
  (`TableFormat.HeaderlessDetected`).
- `Aggregate` panics, or makes no bucket at all, when range plus width overflows int64 (`Aggregate.BucketCountIff`).
- A late-arrival window so long that a window's end plus it overflows int64 makes `SealExpired` close the window while
  on-time records can still arrive for it (`Router.SealedIsLateIff`).
- A window bound that overflows int64 no longer holds its timestamp (`Windows.WindowHoldsTimestamp`).

## Model

| member | source | states |
|---|---|---|
| `CrashSafety.CrashSafetyIff` | internal/engine/engine.go:96-217 | Crash safety over whole runs of the 26-step machine (Append, the flusher, the compactor, retention, Open, a crash after any step) that reuse no merge output name and whose Opens find the newest segment numbers: at every point of the run Open would recover exactly the written and not retired records, once each, if and only if every step met its guard |
| `CrashSafety.GuardedStep` | internal/engine/engine.go:379-484 | Every guarded step of every kind keeps "recovery is exact" together with the accounting of memtables, snapshot and pending appends |
| `CrashSafety.UnguardedStep` | internal/engine/engine.go:459-463 | Every step that breaks its guard (a flush that drops a segment with an uncovered record, an append below a flushed maximum, a publish over late arrivals, a removal that uncovers records) leaves a state from which recovery is not exact |
| `CrashSafety.FlushPublishRecovery` | internal/engine/engine.go:434-457 | Publishing a flush moves exactly the snapshot from the log to the live files |
| `CrashSafety.CompactPublishExact` | internal/compaction/merge.go:120-151 | Publishing a merge changes neither what is recovered nor what the replay filter covers |
| `Discipline.DisciplinedRunsAreSafe` | internal/engine/engine.go:183-200 | With retention off, timestamps of at least 1 that strictly increase within a window, no append in progress at the memtable swap, no unflushed record of another window in a dropped segment, fresh merge names and found segment numbers, every run recovers every logged record exactly once and nothing else, at every point |
| `Witnesses.SharedSegmentLosesRecords` | internal/engine/engine.go:459-463 | A concrete run in which flushing window 0 deletes the shared WAL segment: the record of window 10 is written and nothing of that window is recovered |
| `Witnesses.LateRecordIsLost` | internal/engine/engine.go:187-191 | A concrete run in which a late record below the flushed maximum is written and not among the recovered ones |
| `Witnesses.ZeroMaximumRepeatsRecords` | internal/engine/engine.go:106-108 | A concrete run in which a flush with maximum 0 covers nothing: a record written once is recovered twice |
| `Witnesses.RetiredRecordReturns` | internal/engine/engine.go:187-191 | A concrete run in which a record appended between rotation and swap is flushed, stays in the new segment and is recovered again after its file was retired |
| `Witnesses.ReusedNameLosesRecords` | internal/engine/engine.go:559-563 | A concrete run in which compactSeq, not restored by Open, reuses a live merge output name: a written record is lost |
| `Witnesses.ReusedNameOpensTwice` | internal/engine/engine.go:97-125 | A concrete run in which a restarted compactSeq reuses the name of a dead merge output: the recovered file set is right, but the reader list that Open builds holds the file twice |
| `Witnesses.RestartedNumbersLoseRecords` | internal/engine/engine.go:167-224 | A concrete run in which Open dies after removing the newest segment, the next Open numbers from 1 again and a flush truncates a live SSTable: a written record is lost |
| `Conservation.HeldStep` | internal/engine/engine.go:239-269 | What each kind of step does to memtables, pending appends, flush snapshot and open readers of a window: only an accepted append adds and only retention removes, even when a flush registers a file during a merge |
| `Conservation.SessionConserves` | internal/engine/engine.go:529-619 | Between any two points of one session, held records plus retired ones equal the earlier held records plus those appended, as multisets |
| `Conservation.MemoryAgreesWithDisk` | internal/engine/engine.go:413-476 | In every guarded run the records held in memory are, as multisets, the written ones plus those of files being retired |
| `Effects.FlushCreates` | internal/engine/engine.go:379-408 | In any run, told from the labels: the file that the flush started by FlushTake(w) creates is named after w and the segment that this flush switches to |
| `Effects.FlushRotates` | internal/engine/engine.go:383-396 | The log of that run moves on to a new, empty segment with that number |
| `Effects.FlushSwaps` | internal/engine/engine.go:413-415 | The swap empties the memtable of w and leaves every other one as it was |
| `Effects.FlushWrites` | internal/engine/engine.go:415-431 | The finished file, under that name, holds exactly what the memtable of w held at the swap |
| `Effects.FlushDiscards` | internal/engine/engine.go:425-437 | When that was nothing, the file is removed and no edit is written |
| `Effects.FlushPublishes` | internal/engine/engine.go:434-457 | The manifest edit adds that file, with the maximum the flush recorded, and deletes nothing |
| `Effects.FlushDrops` | internal/engine/engine.go:459-463 | The segment deleted is the one that was active when the flush began |
| `Effects.FlushRegisters` | internal/engine/engine.go:465-476 | Registering adds to the open readers exactly that file, with what the memtable of w held at the swap |
| `Effects.MergeWrites` | internal/compaction/merge.go:45-118 | The file of the merge started by CompactPick(w, inputs) is named after w and the next merge number and holds exactly what the inputs hold |
| `Effects.MergePublishes` | internal/compaction/merge.go:132-144 | One edit adds that file with its maximum and deletes exactly the picked inputs |
| `Effects.MergeRemoves` | internal/compaction/merge.go:145-151 | Only picked inputs are removed from the directory |
| `Effects.MergeSwapsIn` | internal/engine/engine.go:585-619 | The swap-in takes exactly the picked inputs out of the open readers and puts the output, with all they hold, in |
| `Effects.RetirePublishes` | internal/engine/engine.go:665-733 | Retirement logs exactly the picked files and lets exactly their records go, of their window alone |
| `Effects.RetireSwapsOut` | internal/engine/engine.go:665-733 | The swap-out takes exactly the picked files out of the open readers |
| `Effects.SegmentHoldsAppends` | internal/wal/wal.go:91-108 | While a segment is active it grows by exactly the appended records, in the order of their appends |
| `Effects.OpenCompletes` | internal/engine/engine.go:135-224 | From every state of Open the removals can be carried out to its last step, and leave exactly the opened files and the segments that bring something new |
| `Structure.StepKeeps` | internal/compaction/merge.go:120-151 | Every step keeps the structural invariant of disk, manifest, numbering and memory, if a merge creates its output under a new name and Open finds the newest segment number, with no other hypothesis |
| `Structure.FlushNamesAreFresh` | internal/engine/engine.go:396-402 | In every run with fresh merge names in which no Open finds its newest segment numbered below a flush file of the manifest, no flush creates its file under a name the manifest knows |
| `Structure.CrashesOutsideOpen` | internal/engine/engine.go:167-173 | When no crash falls inside Open, every Open finds the newest segment number |
| `Structure.Reachable` | internal/engine/engine.go:68-236 | The invariant holds in every state of every run with fresh merge names and found segment numbers |
| `Structure.RecoveredFileSet` | internal/engine/engine.go:97-126 | In every reachable state the replayed file set equals the manifest fold, and an edit whose added file is missing has all its deleted files missing, so the early return never leaves a superseded file open |
| `Structure.OrphansAreDead` | internal/engine/engine.go:135-155 | While Open runs, a file on disk is an orphan exactly when it is not live; when none is left the directory is the manifest fold |
| `DiskFacts.ReplayOpensLive` | internal/engine/engine.go:97-126 | Under the early-return condition, replay opens the live paths that are present |
| `DiskFacts.SkippedIsCovered` | internal/engine/engine.go:187-191 | The replay filter with its default of 0 skips a record exactly when some present published file of its window has a positive maximum at or above it |
| `DiskFacts.PublishKeepsDiskOk` | internal/compaction/merge.go:132-144 | Publishing an edit keeps the disk invariant and changes the live set by exactly the edit |
| `Recovery.Recoverer.ReplayEdit` | internal/engine/engine.go:97-125 | The two loops of the manifest callback, with the early return, on per-window reader lists, for every edit and directory |
| `Recovery.Recoverer.ReplayManifest` | internal/engine/engine.go:97-131 | Replaying any manifest over any directory gives the folded reader lists and flushed maxima |
| `Recovery.ListsAreSetIff` | internal/engine/engine.go:97-125 | Over any manifest, every window list holds exactly one reader per path of the step machine's file set after every edit if and only if no edit opens a path that is open already |
| `Recovery.MaximaAgree` | internal/engine/engine.go:105-107 | The flushed maxima of the loops are the step machine's for every manifest and directory |
| `Recovery.ReachableManifestsReplay` | internal/engine/engine.go:97-131 | In every state of every run with fresh merge names and found segment numbers, Open leaves one reader per live file, in the list of its window, and no other |
| `Recovery.Recoverer.ReplayRecord` | internal/engine/engine.go:185-202 | A logged record is skipped exactly when its window has a flushed maximum at or above it; otherwise it goes behind what its memtable was sent before, and no other memtable changes |
| `Recovery.Recoverer.ReplaySegment` | internal/engine/engine.go:175-216 | Every memtable is sent, behind what it had, the unskipped records of its window in log order; the segment is kept exactly when it had one |
| `Recovery.Recoverer.ReplayWals` | internal/engine/engine.go:158-217 | All segments in the order of their names: every memtable is sent the unskipped records of its window in that order, and exactly the segments without one are covered |
| `Recovery.KeptIsRebuilt` | internal/engine/engine.go:183-202 | As a multiset, what the segments send to a memtable is what the step machine rebuilds |
| `Reopen.RebuildWindow` | internal/engine/engine.go:158-217 | The memtable rebuilt for a window is sorted, has records of equal key in reverse log order, and holds exactly what the step machine rebuilds |
| `Reopen.SameBuffer` | internal/memtable/memtable.go:28-38 | A memtable none of whose logged records is flushed is rebuilt record for record as it was before the restart |
| `Recovery.RemovePath` | internal/engine/engine.go:114-124 | The loop takes out the first reader of the path and nothing else |
| `Recovery.CountRemoved` | internal/engine/engine.go:114-124 | Taking out the first reader of a path leaves one reader fewer of it and the others as they were, also when the list holds the path twice |
| `Wal.BodyRoundTrip` | internal/wal/wal.go:219-270 | decodeBody inverts appendEncodeRecord when lengths fit 32 bits |
| `Wal.BodyDecodeIff` | internal/wal/wal.go:245-270 | On any bytes, decodeBody yields r exactly when the body is r's encoding with lengths that fit 32 bits |
| `Wal.PrefixRecovery` | internal/wal/wal.go:111-168 | For every record list and every byte cut of the log, replay delivers exactly the records whose frames lie wholly in the prefix (up to the first oversized one), and fails exactly when the cut falls right after a header |
| `Wal.FullReplay` | internal/wal/wal.go:131-166 | The uncut log replays completely if and only if no body exceeds 10 MiB |
| `Wal.WAL.Append` | internal/wal/wal.go:91-108 | The log grows by exactly the record's frame |
| `Wal.WAL.Replay` | internal/wal/wal.go:111-168 | On any bytes, the records delivered are those whose frames lie at the front of the file, whole, with the right checksum and no larger than 10 MiB; behind them lies no such frame, and the replay fails exactly when the file ends there in a bare header |
| `Wal.ReplayIff` | internal/wal/wal.go:111-168 | That description determines the result: replay delivers rs if and only if it holds of rs |
| `Framing.ReadWholeFrame` | internal/wal/wal.go:131-166 | Where a whole frame lies the reader returns its body, unless it is oversized |
| `Framing.ScanIff` | internal/wal/wal.go:131-166 | On any bytes and for any checksum function, scanning yields the bodies whose acceptable frames with the right checksum lie one after the other at the front, up to the first place where none lies, and an error exactly for a bare header at the end |
| `Framing.NoFrameIff` | internal/wal/wal.go:131-158 | Where no frame lies there are too few bytes for a header, an oversized length, a body cut short, or a checksum that does not match |
| `Framing.ReadCutFrame` | internal/wal/wal.go:131-150 | A torn frame ends the log, except that a cut exactly after the header is a read error |
| `Manifest.CutManifest` | internal/manifest/manifest.go:110-181 | Replay of a log cut anywhere delivers the whole frames before the cut |
| `Manifest.Manifest.Append` | internal/manifest/manifest.go:70-103 | Append writes one frame numbered one above the last |
| `Manifest.Manifest.Replay` | internal/manifest/manifest.go:110-181 | On any bytes, the edits delivered are those of the frames that lie at the front of the file, whole, with the right checksum, within the cap and decodable; the file is truncated to exactly these frames, and the sequence number is their greatest; on a read error neither happens |
| `Manifest.ReplayIff` | internal/manifest/manifest.go:110-181 | That description determines the edits, the length of the valid prefix and the error |
| `Manifest.ReopenTorn` | internal/manifest/manifest.go:125-181 | Reopening after a torn append drops exactly the torn edit and fails exactly when the tear is right after the header |
| `Manifest.Sessions` | internal/manifest/manifest.go:70-181 | Over any history of appends, torn appends and reopenings (no tear right after a header, no edit over the size cap), the file is the log of the surviving edits, which are numbered 1..n and include every edit whose Append returned |
| `Heap.RootIsLeast` | internal/engine/merge.go:23-29 | The heap order makes the root a least item |
| `Heap.MinHeap.Push` | internal/engine/merge.go:30-33 | Keeps the heap order and adds exactly the item |
| `Heap.MinHeap.Pop` | internal/engine/merge.go:35-42 | Removes a least item, keeps the heap order and the other items |
| `Heap.MinHeap.Init` | internal/engine/merge.go:44-49 | Establishes the heap order on any contents |
| `Heap.MinHeap.Up` | internal/engine/merge.go:51-60 | Repairs the heap order above a hole and terminates, including at index 0 where Go division gives 0 |
| `Heap.MinHeap.Down` | internal/engine/merge.go:62-80 | Repairs the heap order under a hole, touching nothing from n on |
| `Merge.MergeIterator.Next` | internal/engine/merge.go:107-126 | Each true gives out the next record and leaves the state steady; false without an error means that no input failed and that the output interleaves all inputs; after an error every call is false |
| `Merge.MergeIterator.constructor` | internal/engine/merge.go:93-105 | Priming every iterator establishes the invariant, in which every failure met so far is in err; an input that fails before its first record sets err |
| `Merge.Drain` | internal/engine/merge.go:93-126 | Over any number of sorted inputs, some of them failing: draining ends without an error if and only if none fails, and then gives an interleaving, each input in its own order, nothing lost or repeated; the output is ordered by timestamp and, among equal ones, by the bytes of the source |
| `Merge.InterleavedContent` | internal/engine/merge.go:82-91 | An interleaving holds exactly the multiset union of its inputs |
| `Merge.AdvanceKeeps` | internal/engine/merge.go:112-121 | Re-queueing the current iterator keeps order, balance and the heap |
| `Merge.EmitKeeps` | internal/engine/merge.go:122-126 | Giving out the least item keeps order, balance and the heap |
| `Blocks.RowDecodeIff` | internal/sstable/block.go:262-315 | On arbitrary bytes, row decode yields a list if and only if the checksum is right and the count and the list's encodings lie at the front |
| `Blocks.UnsealIff` | internal/sstable/block.go:68-80 | On any bytes and for any checksum function, exactly a long enough block that ends in the checksum of the rest is accepted |
| `Blocks.RowRoundTrip` | internal/sstable/block.go:31-64 | Row decode inverts row encode when lengths and count fit 32 bits |
| `Blocks.ParsedRecordIsThere` | internal/sstable/block.go:84-112 | Whatever parseRecordAt returns on arbitrary bytes is encoded there, and the offset advances past exactly that encoding |
| `Blocks.EncodedRecordParses` | internal/sstable/block.go:84-112 | parseRecordAt returns the record encoded at the offset |
| `Blocks.EncodeBlock` | internal/sstable/block.go:31-64 | The encoder's loop produces the row block |
| `Blocks.DecodeBlock` | internal/sstable/block.go:262-315 | The decoder's loop agrees with the decode specification on arbitrary bytes |
| `Blocks.ValidateBlock` | internal/sstable/block.go:68-80 | Accepts exactly blocks of at least 8 bytes with the right checksum |
| `Blocks.ColDecodeIff` | internal/sstable/block.go:169-231 | On arbitrary bytes, columnar decode yields a list if and only if the checksum is right and the three columns lie where the header puts them |
| `Blocks.ColRoundTrip` | internal/sstable/block.go:127-165 | Columnar decode inverts columnar encode when lengths, count and the source column fit 32 bits |
| `Blocks.TimesAreProjection` | internal/sstable/block.go:235-258 | On arbitrary bytes, the timestamps-only decode is the projection of the full decode |
| `Blocks.EncodeColBlock` | internal/sstable/block.go:127-165 | The encoder's loops produce the columnar block |
| `Blocks.DecodeColumnar` | internal/sstable/block.go:169-231 | The decoder's loops agree with the decode specification on arbitrary bytes |
| `Blocks.DecodeTimestamps` | internal/sstable/block.go:235-258 | The timestamp loop agrees with its specification on arbitrary bytes |
| `TableFormat.LoadStored` | internal/sstable/compress.go:42-73 | A stored block of either layout, compressed or not, loads back as its records |
| `TableFormat.HeaderDetected` | internal/sstable/writer.go:157-174 | Every v1 and v2 header is recognised with its version and compression |
| `TableFormat.HeaderlessDetected` | internal/sstable/reader.go:95-114 | A headerless file begins with headerMagic if and only if its first block holds 0x42524D54 records and its first timestamp ends in 0x31524448 |
| `TableFormat.FooterRoundTrip` | internal/sstable/writer.go:315-327 | NewReader reads back the ten footer words |
| `TableFormat.ParseFooterIff` | internal/sstable/reader.go:57-92 | On any eighty bytes, the footer parses as m exactly when the bytes are m's footer, magic included |
| `TableFormat.ParseTimeIndexIff` | internal/sstable/reader.go:261-280 | On any bytes, the time index is the list whose encoding lies at the front with less than one entry left over |
| `TableFormat.ParseSrcIndexIff` | internal/sstable/reader.go:283-311 | On any bytes, the source index parses exactly when the bytes are a list of whole entries, and is the map they leave |
| `TableFormat.TimeIndexRoundTrip` | internal/sstable/reader.go:261-280 | The time index reads back entry by entry |
| `TableFormat.SrcIndexRoundTrip` | internal/sstable/reader.go:283-311 | The source index reads back as the writer's map |
| `TableFile.VersionWritten` | internal/sstable/reader.go:95-114 | A finished file that is versioned, empty or unambiguous is detected with its own layout and compression |
| `TableFile.OpenWritten` | internal/sstable/reader.go:35-121 | NewReader on a finished file recovers metadata, both indexes and version |
| `TableFile.WrittenBlock` | internal/sstable/reader.go:212-258 | Every block of a finished file reads back as the records that went in |
| `TableFile.WrittenRepresents` | internal/sstable/reader.go:22-31 | The reader of a finished file satisfies everything the scans rely on |
| `TableFile.LoadTimeIndex` | internal/sstable/reader.go:261-280 | The loader's loop parses the index or reports the failed read |
| `TableFile.LoadSrcIndex` | internal/sstable/reader.go:283-311 | The loader's loop agrees with the parse on arbitrary bytes |
| `TableFile.NewReader` | internal/sstable/reader.go:35-121 | Opens or refuses arbitrary bytes; an opened file ends in the footer, magic included, and both indexes lie where it says |
| `TableFile.OpenedIff` | internal/sstable/reader.go:35-121 | On arbitrary bytes, a file is opened as rd if and only if it ends in rd's footer, with its magic number, both indexes lie where the footer says as rd has them, and rd's version and compression are those of the header, if there is one |
| `TableFile.InvalidMagicIff` | internal/sstable/reader.go:52-75 | A bad magic number is reported exactly for a file without such a footer |
| `Writer.Writer.constructor` | internal/sstable/writer.go:141-176 | An empty valid writer with the default block size filled in |
| `Writer.Writer.Add` | internal/sstable/writer.go:180-212 | ErrOutOfOrder exactly for a record before the last one by timestamp and source bytes, with nothing changed; otherwise the record is appended to the contents |
| `Writer.Writer.FlushBlock` | internal/sstable/writer.go:215-254 | Closes the pending records as one block and keeps the contents |
| `Writer.Writer.Finish` | internal/sstable/writer.go:259-357 | The finished bytes are the image of the added records: every block but the last full, offsets, both indexes with counts and first blocks, and a footer with their count and range |
| `Writer.BlockCountBound` | internal/sstable/writer.go:206-210 | At most ceil(blockSize / 16) records share a block |
| `Writer.SizeIsEncoding` | internal/sstable/writer.go:206-210 | The size that closes a block is that of its records' row encoding |
| `Writer.SmallBlocksUnambiguous` | internal/sstable/writer.go:26-46 | With a block size of at most 16 * (0x42524D54 - 1) no headerless file looks versioned |
| `Writer.SortedKeys` | internal/sstable/writer.go:292-297 | The source index is written in strictly increasing byte order of the keys and covers every key |
| `Records.LexIsByteOrder` | internal/memtable/memtable.go:109-116 | The source comparison holds exactly for a proper prefix or a smaller byte at the first difference |
| `Records.SortedIsByteOrder` | internal/engine/merge.go:23-29 | Sorted means: by timestamp, and byte by byte by source among equal timestamps |
| `Scans.ScannedIsSelected` | internal/sstable/reader.go:140-193 | A scan delivers the filtered list but for matching records stamped exactly start in blocks before the start block; it is exact if and only if there are none |
| `Scans.StartBlockExactIff` | internal/sstable/reader.go:152-159 | Starting at the chosen block is exact if and only if no earlier block holds a wanted record stamped start |
| `Scans.ExactAcrossStrictBoundaries` | internal/sstable/reader.go:152-159 | Nothing is missed when timestamps grow strictly across block boundaries |
| `Scans.RangeSkipSound` | internal/sstable/reader.go:141-143 | Skipping a file by its minimum and maximum drops nothing wanted |
| `Scans.SourceSkipSound` | internal/sstable/reader.go:145-150 | Skipping a file by its source index drops nothing wanted |
| `Scans.Locate` | internal/sstable/reader.go:140-159 | The skip tests and the binary search choose the specified start block, or the empty iterator only when the scan is empty |
| `Scans.SortSearch` | internal/sstable/reader.go:154-156 | Binary search finds the first index at which a monotone test holds |
| `Caching.BlockCache.Get` | internal/sstable/blockcache.go:38-47 | A hit returns the stored array and moves its key to the front; a miss changes nothing |
| `Caching.LeastRecentlyUsedLast` | internal/sstable/blockcache.go:38-76 | After any calls of Get and Put the entries stand in the order of their last use, so that what eviction takes from the back was used longest ago |
| `Caching.BlockCache.Put` | internal/sstable/blockcache.go:49-76 | A present key is left alone; a new one is copied to the front and the survivors are the specified prefix, every old entry keeping its array; map, recency list and usedBytes stay consistent |
| `Caching.BlockCache.Evict` | internal/sstable/blockcache.go:63-75 | The eviction loop leaves the specified prefix |
| `Caching.FitIsLongest` | internal/sstable/blockcache.go:63-75 | The survivors are the longest most-recent prefix that fits maxBytes |
| `Caching.OversizedEmpties` | internal/sstable/blockcache.go:60-75 | An entry larger than maxBytes empties the cache |
| `RowScan.ReadBlockRaw` | internal/sstable/reader.go:212-258 | Whatever the cache holds and whatever buffer is reused, the payload is the file's, cached arrays keep their contents and stay true to their files, and the returned buffer is not owned by the cache |
| `RowScan.ScanIterator.Next` | internal/sstable/reader.go:336-378 | Gives out the next wanted record of what is unread, or reports that nothing wanted is left, with the zero-copy view still in the block |
| `ScanPool.Advance` | internal/engine/merge.go:9-19 | Advancing one of any number of iterators over one cache keeps all of them valid and pairwise apart; every other one has the same records to come and its zero-copy view intact, so a queued source still equals its iterator's current one |
| `ScanPool.OpenAll` | internal/engine/engine.go:78-99 | Iterators opened in turn over one shared cache are pairwise apart, and each will deliver the scan of its table; a table without an iterator has nothing to deliver |
| `ScanPool.Interleave` | internal/engine/merge.go:107-126 | Pulled in any order, each iterator delivers the front of its own list |
| `LiveMerge.Next` | internal/engine/merge.go:107-126 | One call over live iterators: the record given out is the one its iterator still shows, every queued item still equals its iterator's current record, and false means that all of them are drained and interleaved |
| `LiveMerge.Merge` | internal/engine/merge.go:93-126 | Over any pool of live iterators that share one cache, draining the merge gives an interleaving of what each would deliver on its own, by timestamp and source bytes |
| `LiveMerge.ScanAll` | internal/engine/engine.go:287-315 | Opening a scan on every row table and merging them live gives a list in timestamp and source byte order that is, as a multiset, exactly what the scans of the tables deliver |
| `RowScan.OpenScan` | internal/sstable/reader.go:140-193 | Opens an iterator that will deliver the specified scan, with a buffer of its own; the cache stays valid and true to every file, and no cached array is overwritten |
| `RowScan.DrainRows` | internal/sstable/reader.go:336-378 | Draining a row scan with any faithful cache delivers exactly the specified scan and leaves the cache valid and faithful |
| `ColScan.ColScanIterator.Next` | internal/sstable/reader.go:493-527 | Gives out the next wanted record of what is unread, or reports that nothing wanted is left |
| `ColScan.DrainColumns` | internal/sstable/reader.go:493-527 | Draining a columnar scan delivers exactly the specified scan |
| `Tables.WriteThenRead` | internal/sstable/reader.go:140-193 | Write/read refinement for every finished file and query: it opens, and the scan is the filtered list minus only records stamped start before the start block, exact across strict block boundaries |
| `Tables.WriteTable` | internal/engine/engine.go:415-431 | Adding any sorted list never meets ErrOutOfOrder and finishes a file that holds exactly that list, unambiguous for every block size up to 16 * (0x42524D54 - 1), the default included |
| `Tables.ScanTable` | internal/sstable/reader.go:140-193 | Scanning a table of either layout gives the specified list, sorted, and leaves the cache serving every reader |
| `Tables.StoredApart` | internal/sstable/reader.go:224-230 | Blocks of a finished file have distinct cache keys when none is stored in zero bytes |
| `Compaction.MergeStreams` | internal/compaction/merge.go:45-118 | Over any sorted iterators the merge never meets ErrOutOfOrder, and an iterator that fails ends it with an error |
| `Compaction.MergeTables` | internal/compaction/merge.go:45-118 | Through the shared cache, the finished output interleaves the full-range scans of the inputs; for timestamps strictly inside int64 it holds exactly their multiset union, with its count, minimum and maximum |
| `Compaction.MergePreserves` | internal/compaction/merge.go:45-144 | For timestamps strictly inside int64 a finished interleaving of the scans is the multiset union of the inputs, with its count, minimum and maximum in the footer |
| `Compaction.MergedContent` | internal/compaction/merge.go:45-118 | Output plus lost records equal the inputs as multisets; the output holds exactly the inputs if and only if no input loses a record |
| `Compaction.NothingLost` | internal/compaction/merge.go:45-54 | Timestamps strictly between the int64 extremes lose nothing |
| `Compaction.FullScanLoses` | internal/compaction/merge.go:45-54 | A full-range scan loses exactly the records stamped MaxInt64 and those stamped MinInt64 before the start block |
| `Compaction.MergedSummary` | internal/compaction/merge.go:120-144 | Count, minimum and maximum of the output are the sum, least and greatest over the non-empty inputs |
| `Memtable.Memtable.Append` | internal/memtable/memtable.go:30-38 | After any append sequence the buffer reflects the history; one append adds 8 plus the lengths of source and payload to sizeBytes |
| `Memtable.InsertReflects` | internal/memtable/memtable.go:109-116 | Inserting at the insertion point keeps: sorted, a permutation of the history, equal keys in reverse arrival order |
| `Memtable.BufferDeterminedByHistory` | internal/memtable/memtable.go:28-38 | Those three properties leave only one possible buffer |
| `Memtable.InsertionPoint` | internal/memtable/memtable.go:109-116 | Behind exactly the records that precede by timestamp and source bytes, in front of the equal ones |
| `Memtable.Memtable.Scan` | internal/memtable/memtable.go:51-59 | Panics exactly when some record lies in [end, start); otherwise the iterator delivers the filter of the current buffer |
| `Memtable.Memtable.Freeze` | internal/memtable/memtable.go:71-73 | The snapshot delivers every record stamped before MaxInt64 |
| `Memtable.Iterator.Next` | internal/memtable/memtable.go:84-100 | Gives out the next matching record of what is unread, or reports that nothing is left |
| `Windows.FloorDivIsFloor` | internal/partition/router.go:142-148 | floorDiv is the floor for negative timestamps too |
| `Bytes.GoDivTruncates` | internal/partition/router.go:142-148 | The quotient truncates toward zero: the remainder has the dividend's sign and is smaller than the divisor, for divisors of either sign |
| `Windows.WindowHoldsTimestamp` | internal/partition/router.go:133-137 | The computed window holds its timestamp if and only if neither bound overflows int64 |
| `Windows.WindowsTile` | internal/partition/router.go:133-137 | Two timestamps share a window or their windows are disjoint |
| `Windows.OverlapsIff` | internal/partition/partition.go:30-32 | Two non-empty intervals overlap exactly when some timestamp lies in both |
| `Windows.WindowKey` | internal/partition/router.go:133-137 | The start identifies the window for every timestamp and duration, also where the int64 arithmetic wraps around |
| `Router.Router.Route` | internal/partition/router.go:53-76 | ErrLateArrival exactly for a late timestamp in Strict mode; a window keeps its partition for good and a new one is open and empty |
| `Router.Router.Insert` | internal/engine/engine.go:250-257 | One partition grows by the record, the others keep theirs; refused only by a partition that is no longer open |
| `Router.GrownInside` | internal/partition/router.go:53-76 | Inserting keeps every record inside its partition's window when the window does not overflow |
| `Router.RouteByWindow` | internal/partition/router.go:133-137 | Two timestamps are routed together exactly when each lies in the other's window |
| `Router.Router.SealExpired` | internal/partition/router.go:92-104 | Seals exactly the open partitions with now past the window's end plus the late-arrival window, in int64 arithmetic; every window keeps its partition and memtable and the router stays valid |
| `Router.Router.InsertAfterSeal` | internal/partition/router.go:53-104 | A record on time at a later now is never refused by a partition that sealing closed, when its window and late-arrival window fit into int64 |
| `Router.SealedIsLateIff` | internal/partition/partition.go:116-118 | A window is sealed only when no on-time record can fall into it any more, if and only if its end plus the late-arrival window does not overflow |
| `Router.TimePartition.Append` | internal/partition/partition.go:54-62 | ErrPartitionSealed exactly when the partition is no longer open |
| `Router.TimePartition.SwapMemtable` | internal/partition/partition.go:81-87 | Hands out the frozen buffer and leaves an empty one |
| `EngineScan.Engine.Overlapping` | internal/partition/router.go:79-89 | Returns exactly the overlapping windows, in whatever order the map is iterated |
| `EngineScan.Engine.Scan` | internal/engine/engine.go:275-316 | Through the shared block cache, the drained scan is in timestamp and source byte order and, with the missed records, is as a multiset what every window wants; it panics exactly when an overlapping memtable has a record in [end, start); the cache stays valid and true to every file |
| `EndToEnd.ScanReturnsWritten` | internal/engine/engine.go:275-316 | In every guarded run, at any moment with nothing in flight, a scan of a store that mirrors the run's memory and misses nothing returns exactly the written and not retired records in range and source, as often as they were written |
| `EndToEnd.ScanWritten` | internal/engine/engine.go:275-316 | Calling Engine.Scan in a guarded run with nothing in flight, over files with strict block boundaries that mirror the run's memory, gives exactly the written and not retired records in range and source, sorted, or the panic of a backwards range |
| `EngineScan.ScanRefines` | internal/engine/engine.go:287-315 | With a nil or non-empty source filter the result is exactly the held records in range and source if and only if no record is missed |
| `EngineScan.NothingMissed` | internal/sstable/reader.go:152-159 | Strict block boundaries in every file leave nothing missed |
| `EngineScan.WindowSkipSound` | internal/partition/partition.go:30-32 | A window that does not overlap the range holds nothing wanted |
| `EngineScan.ReadingsAgree` | internal/memtable/memtable.go:94-96 | Whether a record is wanted does not depend on its having been flushed if and only if the filter is not the empty, non-nil one or the range is empty |
| `EngineScan.SkippedWindows` | internal/partition/router.go:79-89 | Asking only the overlapping windows changes neither what is wanted nor what is missed |
| `Aggregate.BucketInRange` | internal/engine/engine.go:834-851 | The bucket index of a timestamp in range is in range and names the one bucket that holds it |
| `Aggregate.Aggregate` | internal/engine/engine.go:817-913 | The counts are the histogram of what the memtables, the columnar path and the row path deliver; the error, empty, panicking and bucketless results arise exactly for a non-positive width, an empty range and a bucket count that overflows |
| `Aggregate.BucketCountIff` | internal/engine/engine.go:834-836 | The int64 arithmetic gives the right number of buckets if and only if the sum of range and width does not overflow; otherwise it gives 0, or a negative number exactly when range plus twice the width is at most 2^64 + 1 |
| `Aggregate.BucketsCover` | internal/engine/engine.go:834-836 | There are as many buckets as it takes to cover the range, and no more |
| `Aggregate.AggregateRefines` | internal/engine/engine.go:817-913 | When every row-path file misses nothing, bucket i counts exactly the held records in its interval clipped to end, and the counts add up to the number of matching records |
| `Aggregate.PathsAgreeIff` | internal/engine/engine.go:875-894 | The columnar and the row path give a file the same counts if and only if the row path misses nothing |
| `Aggregate.ScanTimestamps` | internal/sstable/reader.go:433-463 | The timestamps-only block scan returns the stamps of the block's matching records |
| `Aggregate.TallyColumns` | internal/engine/engine.go:877-892 | Counting every block up to the first that starts past the end counts the whole filtered file |
| `Aggregate.HistogramSum` | internal/engine/engine.go:844-851 | The buckets of records in range add up to their number |

## Left out

- I/O errors, `SyncPeriodic` and `SyncNever`: every write succeeds and is durable when it returns, as under `SyncAlways`.
- Corrupted blocks during a scan: the iterators are proved over readable tables; an iterator that fails appears only in the merge. What the decoders make of damaged blocks is in `Blocks`.
- Data races inside a lock-protected region and callers that change slices after `Append`: regions are atomic steps, records are values.
- mmap and `ReadAt`: a block read is a slice of the file's bytes; an unfinished SSTable is taken to be one `NewReader` refuses.
- Strict late arrival and sealing in the step machine: a refused append is one whose second step never comes; replay routes as in Tolerant mode. `Router` models both.
- Retention's choice of files: any subset of a window's files may be retired; the exact condition under which a retired file's records stay gone is a guard of `CrashSafety.CrashSafetyIff`.
- CrashSafety.CrashSafetyIff: speaks of runs that reuse no merge output name and whose Opens find the newest segment numbers; `Witnesses` shows that reuse loses or repeats records, and flush names need no assumption of their own.
- Protocol.Enabled: appends exclude records stamped `MaxInt64`, which `Freeze` drops from the flush snapshot (`Memtable.Memtable.Freeze`); windows whose bounds overflow are included, since the start identifies the window (`Windows.WindowKey`).
- Discipline.DisciplinedRunsAreSafe: gives workload rules that suffice; the exact condition is the guarded one.
- The step machine's merge writes every record of its inputs; `Compaction.NothingLost` gives the timestamps for which the merge code does that.
- Recovery.ListsAreSetIff: for manifests in which no edit deletes a path twice, as none written by the engine does.
- TableFile.OpenWritten: for files whose lengths, offsets and counts fit their fields; larger ones are truncated silently by the writer.
- RowScan.ReadBlockRaw: with a cache, for files in which no two blocks share an offset; `Tables.StoredApart` gives it when no block is stored in zero bytes.
- ColScan.ReadColBlock: the reused buffer of the columnar path is not modelled, since decoding copies every field.
- TableFile.NewReader: an index size too large to allocate makes the source panic in `make`; here the read fails.
- EngineScan.Engine.Scan: drains each iterator before the merge; `LiveMerge.ScanAll` proves the merge of live iterators over the shared cache for row tables, not yet with columnar and memtable iterators among them.
- EndToEnd.ScanWritten: takes as given that the engine's memtables and files hold the step machine's memory (`EndToEnd.Mirrors`); each single operation is proved against its own specification, not as a refinement of one step.
- A flush in flight during a scan: `Scan` and `Aggregate` read memtables and registered files, so the snapshot being written is not among the held records of these theorems; `Conservation` accounts for it.
- The start and end times stored in a `Bucket`: only the counts are returned, for the intervals they denote.
- Aggregate.Aggregate: when the bucket count wraps to 0 the result is only marked as such; the source then returns no buckets, or panics on a record whose own index wraps below 0.
- The header fields `PartitionStart` and `PartitionEnd` are stored and returned but nothing is proved from them.
- Metrics, logging, tickers, `Partitions`, `Bucket.Rate`, cmd/timberdb and pkg/engine: they do not influence stored data.
- `FIFOStrategy`: a merge takes all files of its window, as it does; its thresholds only decide when.
