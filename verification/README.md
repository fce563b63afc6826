# A model of MjolnirVSS backups

MjolnirVSS copies a disk into a backup folder: the disk is cut into pieces, each
piece becomes a compressed chunk stored under its own digest, and a manifest
records which chunk lies where. Reading the folder back gives a byte addressable
disk again. A folder counts as a backup only once `completion.json` has appeared,
after a verification that read every chunk.

This project models that path in Dafny and proves what it is for:

* **Round trip.** After a run, the folder opens and any stream read by its manifest
  gives exactly the source's bytes where it was captured, from the snapshot below its
  length and from the disk past it, and zeros elsewhere (`Run`, `RoundTrip`, on top of
  `Capture`, `CaptureDisk`, `Writer`, `Store` and `Reader`).
* **Commit protocols.** Chunks under interleaved writers, sweeps, kills and power cuts
  (`TempNames`, `StoreProtocol`), and whole runs cut short anywhere (`RunProtocol`).
  The methods of `Store` and `Run` make the protocols' steps (`StoreProtocol.PutIsSteps`,
  `Traces`).
* **Checks.** Each linear check reports nothing exactly when a global statement holds
  (`Shapes`, `ManifestCheck`, `LayoutCheck`, `Overlaps`, `Verify`, `CrossCheck`,
  `BackupFolder`); what they decide, said again in plain fields and bytes
  (`DocumentRules`); what they add up to (`Acceptance`); and when what a capture writes
  passes them (`Producer`, `SmallRun`).
* **Failures.** Which plans can be captured (`Plans`), and what is left that can fail a
  run when nothing is in its way (`Undisturbed`).
* **Kernels.** The interval algebra (`Extents`, `ExtentOps`, `Splitting`), the calendar
  (`Calendar`) and the walk that extracts a directory (`ExtractTree`).

`dafny verify dfyconfig.toml` checks all of it.

## How it is modelled

Code that changes state is a class or a loop here too: the chunk store, the two
writers, the stream reader and its cache, the folder, the copy loops and the checks.
Each is proved against a specification on values, and the laws are proved about that.
Which chunk files and documents the device fails to read is part of the state of the
store and of the folder, and so is whether a sealed store is locked, so reading,
verifying and opening are exact about it. Whether the drive may fail to write, whether
a source may fail to be read and whether the operator may cancel is given; where it may,
it can happen at any place where the code can meet it, and where it may not, every
contract says what else a failure takes.
Integers are unbounded; every 64 or 32 bit value has a bounded type, so an addition the
code leaves unchecked has to be shown not to overflow, or wraps here too.

Assumptions, each a named predicate or a stated `requires`:

* `Store.Lawful`: decoding undoes encoding (compression, and sealing when the backup is
  encrypted; the stored bytes may differ each time), and names tell apart the byte
  strings in the set `known`. That set holds whatever the sources can yield
  (`CaptureDisk.SourcesKnown`) and, for the reader, whatever the store's files decode
  to (`Reader.StreamReader.Readable`), so a damaged chunk is not assumed away.
* `BackupFolder.DocumentsLawful`: parsing undoes writing a document, and no text is
  empty. Writing fails on a text longer than 64 bits can say.
* A source gives the same bytes each time it is opened.
* After a power cut the renames that survive are the first ones issued. The code syncs
  file contents before each rename, and never the directory.

The first two can be had, for every source and for all documents:
`Codecs.LawfulChunks`, `Codecs.LawfulDocuments`.

## Where the code and what is said about it differ

In each case the model follows the code; a lemma gives an input and another one says
exactly when the claim holds.

* `civil_from_days` is called exact for the whole range of 64 bit days
  (crates/mjolnir-core/src/timestamp.rs:112-116). Its first addition wraps on the last
  719468 days: `Calendar.ExactUnlessItWraps`. No timestamp gets there.
* The temporary names of two processes are said never to coincide
  (crates/mjolnir-image/src/store.rs:29-31). They can once a process has made 2^32
  calls, and then an empty file can be published: `TempNames.SuffixesUniqueIff`,
  `StoreProtocol.LongRunsAreNotSafe`, `StoreProtocol.RunsAreSafeIff`.
* A file with several names is said to be several files to write
  (crates/mjolnir-files/src/extract.rs:382-385). Names that read the same in two folders
  are taken for one: `ExtractTree.EveryNameIsCopiedIff`.
* The writer's own bound is a table of 2^32 chunks and the check allows one fewer
  (crates/mjolnir-image/src/writer.rs:214, crates/mjolnir-image/src/manifest.rs:655):
  `Producer.WrittenBackupIsAcceptedIff`, `Producer.FullTableIsRefused`.
* Opening a backup does not compare heads and tails with the partitions; only
  verification does: `Acceptance.AcceptedIsDisjointIff`,
  `SmallRun.OverlapIsOpened`.
* Verification before the completion marker does not compare the documents with each
  other; only opening does: `RunProtocol.CompletedRunOpensIff`. A run whose plan calls
  its disk by another name is marked complete and does not open, and such plans are the
  only ones: `SmallRun.CompletedRunCanBeRefused`, `SmallRun.CompletedRunOpensIffNamed`.
* Neighbour comparison misses an overlap behind an empty range:
  `Overlaps.EmptyRangeHidesOverlap`, `Overlaps.NeighboursDecideIff`. Both users of it
  check for empty ranges as well, and together they are complete:
  `LayoutCheck.ValidateDisk`, `Verify.VerifiedIsDisjoint`.

## Model

| member | source | states |
|---|---|---|
| `Arith.EnsureWithin` | crates/mjolnir-core/src/math.rs:121-131 | Succeeds exactly when `offset + length` is at most the limit, overflow included |
| `Arith.RoundUp` | crates/mjolnir-core/src/math.rs:234-248 | The least multiple at or above the value, within one granule of it; refused exactly when no multiple fits 64 bits |
| `Arith.RangesOverlap` | crates/mjolnir-core/src/math.rs:255-263 | Fails exactly when neither range is empty and an end overflows; otherwise says whether the two half open ranges share a byte |
| `Extents.FromUnsorted` | crates/mjolnir-core/src/extents.rs:55-83 | Fails exactly when a non-empty range overflows; otherwise returns a normal form covering exactly the union of the inputs |
| `Extents.MergeSorted` | crates/mjolnir-core/src/extents.rs:65-80 | The merging loop turns sorted ranges into a normal form with the same coverage |
| `Extents.UniqueNormalForm` | crates/mjolnir-core/src/extents.rs:36-45 | Two sorted, non-empty, non-touching lists with the same coverage are the same list |
| `Extents.EqualCoverageIffEqualLists` | crates/mjolnir-core/src/extents.rs:50-83 | Inputs give equal lists exactly when they cover the same bytes |
| `Extents.TotalBytes` | crates/mjolnir-core/src/extents.rs:106-112 | The sum is the exact number of covered bytes and never overflows |
| `Extents.SumCountsBytes` | crates/mjolnir-core/src/extents.rs:106-112 | The sum of the lengths of ascending ranges is the size of the set of covered bytes |
| `Extents.FullSumLeavesNoGap` | crates/mjolnir-image/src/manifest.rs:717-731 | Ascending ranges inside a limit whose lengths sum to it cover every byte below it, and only then |
| `ExtentOps.ClampTo` | crates/mjolnir-core/src/extents.rs:119-129 | A normal form covering exactly what lies below the limit |
| `ExtentOps.GapsWithin` | crates/mjolnir-core/src/extents.rs:177-193 | A normal form covering exactly what the list does not cover below the limit |
| `ExtentOps.GapsTwiceIsClamp` | crates/mjolnir-core/src/extents.rs:119-193 | Taking gaps twice gives back the clamped list |
| `ExtentOps.GapsAndClampPartition` | crates/mjolnir-core/src/extents.rs:119-193 | Gaps and clamped list cover each byte below the limit exactly once and sum to the limit |
| `ExtentOps.Contains` | crates/mjolnir-core/src/extents.rs:196-208 | Bisection finds a range exactly when the byte is covered |
| `Splitting.SplitChunks` | crates/mjolnir-core/src/extents.rs:155-171 | The loop never fails on a valid list and returns the pieces of the grid |
| `Splitting.SplitPieces` | crates/mjolnir-core/src/extents.rs:149-171 | Every piece lies in one range and in one granule |
| `Splitting.SplitCover` | crates/mjolnir-core/src/extents.rs:155-171 | The pieces cover exactly what the ranges cover |
| `Splitting.NormalisingUndoesSplitting` | crates/mjolnir-core/src/extents.rs:55-171 | Normalising the pieces gives back the list that was split |
| `Splitting.WholeGranuleIsOnePiece` | crates/mjolnir-core/src/extents.rs:149-171 | A fully covered granule is exactly one piece, whatever surrounds it |
| `Splitting.AlignOutward` | crates/mjolnir-core/src/extents.rs:136-147 | Covers exactly the granules touched, in normal form; refused exactly when a grown end does not fit 64 bits |
| `Splitting.AlignmentIsLeast` | crates/mjolnir-core/src/extents.rs:131-147 | The result is aligned, contains the list and lies inside every aligned list that does |
| `Splitting.AlignmentIsIdempotent` | crates/mjolnir-core/src/extents.rs:136-147 | Aligning an aligned list changes nothing |
| `Calendar.CivilIsValidAndInverts` | crates/mjolnir-core/src/timestamp.rs:117-133 | Every day gives a valid Gregorian date (section 5.7 and appendix C of RFC 3339), and the inverse conversion gives the day back |
| `Calendar.DaysInvertsCivil` | crates/mjolnir-core/src/timestamp.rs:117-133 | Every valid date is the date of the day it converts to |
| `Calendar.NextDayIsNextDate` | crates/mjolnir-core/src/timestamp.rs:117-133 | The next day has the successor date |
| `Calendar.CivilIsOrdered` | crates/mjolnir-core/src/timestamp.rs:117-133 | Later days have later dates |
| `Calendar.EpochIsFirstOfJanuary1970` | crates/mjolnir-core/src/timestamp.rs:117-133 | Day 0 is 1970-01-01 |
| `Calendar.DateTimeInverts` | crates/mjolnir-core/src/timestamp.rs:61-77 | The fields of a timestamp are in range and determine its second, before 1970 too |
| `Calendar.ExactUnlessItWraps` | crates/mjolnir-core/src/timestamp.rs:112-118 | In 64 bits the date is right exactly when the first addition does not wrap, that is on all but the last 719468 days |
| `Calendar.YearFits` | crates/mjolnir-core/src/timestamp.rs:119-127 | After the first addition the largest value, the year, stays inside 64 bits |
| `Calendar.SecondsNeverWrap` | crates/mjolnir-core/src/timestamp.rs:61-77 | No 64 bit timestamp reaches a day where it wraps |
| `ExtractTree.ExtractAll` | crates/mjolnir-files/src/extract.rs:373-436 | The worklist ends on any index, cyclic or not; nothing is dealt with twice and nothing that is not reachable; on success everything reachable was dealt with if all names of a record agree on what it is, with the outcome in that order and the byte total as 64 bits hold it; it fails only on being cancelled or as a copy does |
| `ExtractTree.EventsByFlags` | crates/mjolnir-files/src/extract.rs:397-432 | What is done with an entry goes by its own flags: a file is handed over, a junction passed over unless junctions are followed, a directory expanded otherwise |
| `ExtractTree.JunctionsAreSkipped` | crates/mjolnir-files/src/extract.rs:403-412 | Unless junctions are followed, none is entered and every one in reach is passed over |
| `ExtractTree.DirectoriesAreExpanded` | crates/mjolnir-files/src/extract.rs:397-416 | Every directory in reach that is no junction is expanded, and with junctions followed nothing is passed over |
| `ExtractTree.OneLineAJunction` | crates/mjolnir-files/src/extract.rs:403-412 | Where no copy reports anything as skipped, the report has one such line for each junction passed over |
| `ExtractTree.CopiesAreReported` | crates/mjolnir-files/src/extract.rs:417-436 | What each copy reports is in the outcome |
| `ExtractTree.EveryNameIsCopiedIff` | crates/mjolnir-files/src/extract.rs:382-432 | Every reachable name of a file is copied exactly when no two of them share record number and text |
| `ExtractTree.SameNameInTwoFoldersIsDropped` | crates/mjolnir-files/src/extract.rs:382-421 | One file linked under the same name in two folders: one of the two is never written |
| `Shapes.LooksLikeGuid` | crates/mjolnir-image/src/lib.rs:63-75 | Taking the text apart at its dashes accepts exactly 36 characters with dashes at four places and hexadecimal digits elsewhere |
| `DocumentRules.GuidsAre` | crates/mjolnir-image/src/lib.rs:63-75 | A GUID in plain characters: dashes at 8, 13, 18 and 23, digits of base 16 elsewhere, 36 in all |
| `DocumentRules.NamesAre` | crates/mjolnir-image/src/manifest.rs:864-885 | A name without a slash may be followed exactly when it is neither empty, nor a dot or two, nor past 256 characters, nor of other characters |
| `DocumentRules.PathsAre` | crates/mjolnir-image/src/manifest.rs:864-885 | A longer path may be followed exactly when what is before a slash and what is behind it may, within 256 characters |
| `Format.CheckFormat` | crates/mjolnir-image/src/version.rs:88-133 | No error exactly when this build reads that kind and version of document; one warning exactly for a newer one that it still reads |
| `Store.ChunkStore.Put` | crates/mjolnir-image/src/store.rs:145-194 | Refused at once exactly when the store is locked; after success the chunk is under its name and decodes to the data; a name already there is left alone; a failure changes no final file, and of a temporary file leaves nothing, what was there, or the beginning of the encoding |
| `Store.ChunkStore.WriteTemp` | crates/mjolnir-image/src/store.rs:197-251 | After success the temporary file decodes to the data; no other temporary file is touched |
| `Store.ChunkStore.Get` | crates/mjolnir-image/src/store.rs:268-347 | Succeeds exactly when the store is not locked and the file can be read and decodes to bytes of the asked size and name, and returns those |
| `Store.ChunkStore.SweepTempFiles` | crates/mjolnir-image/src/store.rs:362-402 | Removes all temporary files, counts them, and touches nothing else |
| `TempNames.SuffixIsXor` | crates/mjolnir-image/src/store.rs:27-32 | The suffix is the exclusive or of the shifted process id and the counter |
| `TempNames.SuffixesUniqueIff` | crates/mjolnir-image/src/store.rs:27-32 | The calls with counters below a bound all have different suffixes exactly when the bound is at most 2^32 |
| `TempNames.SuffixesDiffer` | crates/mjolnir-image/src/store.rs:27-32 | While counters stay below 2^32 a suffix determines process and call |
| `TempNames.LongRunningProcessesClash` | crates/mjolnir-image/src/store.rs:27-32 | Past 2^32 calls one process can take the suffix of another |
| `StoreProtocol.StepKeepsInvariant` | crates/mjolnir-image/src/store.rs:145-251 | Every step of every call, sweep, kill and power cut keeps the protocol invariant while no process has made more than 2^32 calls |
| `StoreProtocol.EveryRunIsSafe` | crates/mjolnir-image/src/store.rs:145-251 | In every run with at most 2^32 calls a process each final file decodes to bytes of its name, a successful call has its chunk there, and no two live calls share a temporary name |
| `StoreProtocol.LongRunsAreNotSafe` | crates/mjolnir-image/src/store.rs:27-194 | A run with one call more, at the end of which an empty file is under a final name |
| `StoreProtocol.RunsAreSafeIff` | crates/mjolnir-image/src/store.rs:27-251 | All runs in which no process makes more than n calls leave only whole chunks under final names exactly when n is at most 2^32 |
| `StoreProtocol.StoredChunksStay` | crates/mjolnir-image/src/store.rs:145-194 | Short of a power cut a stored chunk stays, whatever else happens |
| `StoreProtocol.UndisturbedPutStores` | crates/mjolnir-image/src/store.rs:145-251 | Undisturbed, the steps of one call run to the end, publish the chunk and leave no temporary file |
| `StoreProtocol.PutIsSteps` | crates/mjolnir-image/src/store.rs:145-194 | Whatever a call of the method does to the store, by whichever exit, is a sequence of steps of the protocol that touches no other call |
| `Format.CompleteSumCarriesEveryByte` | crates/mjolnir-image/src/writer.rs:402-427 | A stream whose sorted segments sum to its length has a segment over every byte, and only then |
| `Format.UncarriedIsZero` | crates/mjolnir-image/src/reader.rs:18-22 | A byte no segment covers means zero |
| `Format.CarriedIsSource` | crates/mjolnir-image/src/reader.rs:120-168 | A covered byte means the source's byte when each segment holds what the source had there |
| `Format.RequiredTargetBytes` | crates/mjolnir-image/src/disk_layout.rs:218-228 | The running maximum over the partitions plus the table reserve, or overflow |
| `Format.RequiredTargetHolds` | crates/mjolnir-image/src/disk_layout.rs:213-228 | A disk of that size holds every partition with whole sectors of room for a header and 16 KiB of entries, and wastes less than that again |
| `Format.RequiredTargetIff` | crates/mjolnir-image/src/disk_layout.rs:213-228 | There is such a size exactly when the highest end and the least whole sectors for a header and 16 KiB fit 64 bits together, and then it is their sum |
| `Format.UsualDiskHasTarget` | crates/mjolnir-image/src/disk_layout.rs:213-228 | A disk with sectors of 512 or 4096 bytes, its partitions inside it and 32 KiB to spare below 2^64 always has one, 16896 or 20480 bytes past the highest end |
| `Writer.BackupWriter.PutChunk` | crates/mjolnir-image/src/writer.rs:209-230 | Content met before gets its old position, new content the next one; the table only grows, stays free of duplicates, exactly inverted by its index and backed by the store |
| `Writer.NewDigestIsNewContent` | crates/mjolnir-image/src/writer.rs:205-214 | A digest is in the index exactly when the content is in the table |
| `Writer.InvertedTableIsDistinct` | crates/mjolnir-image/src/writer.rs:209-230 | An exactly inverted table lists no digest twice |
| `Writer.BackupWriter.constructor` | crates/mjolnir-image/src/writer.rs:127-165 | A new writer is valid over an empty table, without streams, volumes and unused chunks |
| `Writer.StreamWriter.constructor` | crates/mjolnir-image/src/writer.rs:239-268 | A new stream starts empty and valid against the table |
| `Writer.StreamWriter.WriteSegment` | crates/mjolnir-image/src/writer.rs:355-395 | Accepts exactly the pieces that fit, follow the last one and are no larger than a chunk; an accepted piece is added to what the stream carries, a refused one changes nothing |
| `Writer.StreamWriter.Finish` | crates/mjolnir-image/src/writer.rs:407-427 | Adds the stream exactly when it is complete or may be sparse |
| `Pieces.CopyIsSplitWithOneCut` | crates/mjolnir-backup/src/capture.rs:293-348 | What a copy reads is the result of `split_chunks` with the piece straddling the end of the snapshot cut there |
| `Pieces.AtMostOneCut` | crates/mjolnir-backup/src/capture.rs:316-319 | At most one piece is cut |
| `Pieces.CopyPiecesCover` | crates/mjolnir-backup/src/capture.rs:293-348 | The pieces cover exactly the bytes of the ranges |
| `Pieces.CopyPiecesSum` | crates/mjolnir-backup/src/capture.rs:293-348 | The pieces hold as many bytes as the ranges |
| `Pieces.GridIsSplit` | crates/mjolnir-backup/src/capture.rs:420-448 | A region copied from its start is cut exactly where `split_chunks` cuts it |
| `Capture.CopyPiece` | crates/mjolnir-backup/src/capture.rs:322-345 | Reads a piece from the snapshot or the disk, whichever holds it, and records the source's bytes |
| `Capture.CopyRanges` | crates/mjolnir-backup/src/capture.rs:293-348 | On success the stream holds exactly the grid's pieces with the source's bytes, all of them there and reported; a failure is one of the devices, the store, the table or the operator, or of a range out of reach |
| `Capture.CopyRange` | crates/mjolnir-backup/src/capture.rs:420-448 | On success the stream holds the whole region in chunks from its start, all of it reported |
| `CaptureDisk.TotalBytes` | crates/mjolnir-backup/src/capture.rs:99-106 | The exact planned sum, refused only on overflow |
| `CaptureDisk.StartPartition` | crates/mjolnir-backup/src/capture.rs:133-236 | The description of a partition's stream and the ranges to read, for the used block, fallback and whole capture alike |
| `CaptureDisk.CapturePartition` | crates/mjolnir-backup/src/capture.rs:133-246 | Adds one stream with that description and the pieces of the right source, which has all of them; bytes read and skipped are reported exactly, and a failure is outside the plan or a stated fault of it |
| `CaptureDisk.PartitionFailure` | crates/mjolnir-backup/src/capture.rs:165-178 | "No disk was opened" needs a plan past the planned bytes; a refused piece needs small chunks, or ranges outside the partition or past its sources |
| `CaptureDisk.CaptureTable` | crates/mjolnir-backup/src/capture.rs:354-414 | Adds the head and the tail in full, the tail ending where the disk ends; refused when the disk is smaller than the tail |
| `CaptureDisk.RegionIsCut` | crates/mjolnir-backup/src/capture.rs:420-448 | The pieces of head and tail start every 4 MiB, and only the last is shorter |
| `CaptureDisk.CaptureDisk` | crates/mjolnir-backup/src/capture.rs:114-248 | On success the manifest gains one stream a partition in table order, then head and tail, each with its source's bytes; no chunk is unused; what was reported as read and skipped is the planned total exactly when no plan is too large; it fails for nothing but the devices, the store, a full table, the operator or a stated fault of the plan |
| `CaptureDisk.ReportedIsTotal` | crates/mjolnir-backup/src/capture.rs:99-106 | Bytes read and skipped add up to the planned total exactly when no plan lists more than was planned |
| `CaptureDisk.PlanInsideIsNotTooLarge` | crates/mjolnir-backup/src/capture.rs:203-208 | A plan inside the planned bytes never lists more than was planned |
| `Plans.FitsIff` | crates/mjolnir-backup/src/capture.rs:133-348 | With chunks of the usual size nothing about a partition's plan makes its capture fail exactly when every byte taken lies in the partition and in the snapshot or, where that is opened, on the disk, and a stream that must be complete is planned for its length |
| `Plans.FeasibleIff` | crates/mjolnir-backup/src/capture.rs:114-414 | And nothing about a whole plan exactly when every partition fits and the disk has both its ends |
| `Plans.CapturedIsFeasible` | crates/mjolnir-backup/src/capture.rs:114-414 | A capture that has succeeded had such a plan |
| `Finalize.RecomputeStats` | crates/mjolnir-image/src/manifest.rs:555-575 | The totals counted in two loops are those of all segments and chunks, or overflow |
| `Finalize.StatsConserve` | crates/mjolnir-image/src/manifest.rs:555-575 | With no unused chunk, total segments are unique chunks plus deduplicated segments |
| `Producer.CapturedBytesAreTheRanges` | crates/mjolnir-image/src/manifest.rs:555-575 | The captured bytes recorded are the lengths of the ranges read and of the two ends of the disk, together |
| `Producer.StoredBytesAreTheFiles` | crates/mjolnir-image/src/manifest.rs:555-575 | The stored bytes recorded by a capture into an empty store are the lengths of all its chunk files together |
| `Finalize.ComputeRequiredRestoreBytes` | crates/mjolnir-image/src/writer.rs:312-318 | The largest requirement of any disk, or overflow |
| `Finalize.RequiredRestoreIsMax` | crates/mjolnir-image/src/writer.rs:312-318 | It covers every disk's requirement and is one of them |
| `Finalize.FinalizeBackup` | crates/mjolnir-image/src/writer.rs:279-285 | The manifest handed over is that of what was written, with its totals and required size, and the layout that of the same backup |
| `Reader.StreamReader.Chunk` | crates/mjolnir-image/src/reader.rs:71-97 | Never wrong bytes; fails only on a chunk whose file is locked, unreadable or damaged, or outside the table, and then keeps the cache |
| `Reader.HitKeepsMostRecent` | crates/mjolnir-image/src/reader.rs:72-77 | After a hit the cache still lists the most recently used chunks in order |
| `Reader.MissKeepsMostRecent` | crates/mjolnir-image/src/reader.rs:91-95 | After a miss too, the least recent one having made room |
| `Reader.CacheIsBoundedAndDistinct` | crates/mjolnir-image/src/reader.rs:40-48 | The cache holds at most eight chunks, none twice, and all of them while there are fewer |
| `Reader.PartitionPoint` | crates/mjolnir-image/src/reader.rs:131-136 | Bisection splits the segments into those ending by the offset and the others |
| `Reader.StreamReader.ReadExactAt` | crates/mjolnir-image/src/reader.rs:100-169 | On success the buffer holds the meaning of every byte asked for; out of range reads are refused exactly; otherwise a read fails only on a segment in its range whose chunk is locked, unreadable or damaged |
| `RoundTrip.PartitionReadsAs` | crates/mjolnir-backup/src/capture.rs:114-348 | A captured partition reads, where the capture took a byte, as the snapshot below its length and as the disk at the partition's offset behind it, and as zero elsewhere |
| `RoundTrip.ReadIsWhatIsTaken` | crates/mjolnir-backup/src/capture.rs:188-236 | As many bytes are read as the plan of used blocks lists where one is wanted and to be had, or as were planned otherwise |
| `RoundTrip.OverrunIsTaken` | crates/mjolnir-backup/src/capture.rs:165-178 | A plan overruns exactly when it takes a byte past what was planned for the partition |
| `RoundTrip.CaptureIsRecorded` | crates/mjolnir-backup/src/capture.rs:188-236 | The stream's description says which way it was captured, fallback included |
| `RoundTrip.FullPartitionReadsAsSource` | crates/mjolnir-backup/src/capture.rs:209-236 | One captured in full, by fallback or by choice, reads as snapshot and disk throughout |
| `RoundTrip.RegionReadsAsDisk` | crates/mjolnir-backup/src/capture.rs:354-414 | Head and tail read as the disk |
| `RoundTrip.WrittenHoldsDisk` | crates/mjolnir-backup/src/capture.rs:114-414 | So all streams together are the disk: every partition, the head and the tail, byte for byte |
| `RoundTrip.StreamIsTheDisk` | crates/mjolnir-backup/src/capture.rs:114-414 | If the snapshots are the disk's own bytes, a stream gives back the disk from its place on, and zeros where the capture took nothing |
| `Producer.DescriptionsAre` | crates/mjolnir-backup/src/capture.rs:133-414 | In plain fields: a stream a partition under the id planned for it, at its place and of its length, then head and tail with theirs |
| `RoundTrip.FallbackIsComplete` | crates/mjolnir-backup/src/capture.rs:209-223 | Exactly the partitions whose used blocks were wanted and not to be had are marked as fallen back; such a stream is never sparse and reads as its source throughout |
| `RoundTrip.ManifestIsReadable` | crates/mjolnir-image/src/verify.rs:131-182 | After a full verification the streams of a manifest can be read from the store alone, all but files that cannot be read |
| `RoundTrip.ReadStream` | crates/mjolnir-image/src/reader.rs:100-169 | From a verified manifest and the chunk files alone, any read inside any stream, head and tail included, gives the captured disk's bytes, and fails exactly if a chunk of the range cannot be read |
| `ManifestCheck.ValidateParameters` | crates/mjolnir-image/src/manifest.rs:591-652 | No finding exactly when chunk size, digest length, compression level, directory name, fanout, GUID and creation time are as they should be |
| `ManifestCheck.ValidateChunkTable` | crates/mjolnir-image/src/manifest.rs:654-689 | No finding exactly when every entry is sound, no digest is listed twice and the table is addressable |
| `ManifestCheck.ValidateSegments` | crates/mjolnir-image/src/manifest.rs:735-797 | Comparing neighbours finds nothing exactly when all segments fit, match their chunks and no two overlap |
| `ManifestCheck.ValidateStreams` | crates/mjolnir-image/src/manifest.rs:691-733 | No finding exactly when every stream is sound and no id comes twice |
| `ManifestCheck.ValidateVolumes` | crates/mjolnir-image/src/manifest.rs:799-832 | No finding exactly when every volume sits on a partition that a stream carries, with sound figures and path, and no id comes twice |
| `ManifestCheck.ValidateStats` | crates/mjolnir-image/src/manifest.rs:834-846 | No finding exactly when the recorded totals are the true ones |
| `ManifestCheck.ValidateManifest` | crates/mjolnir-image/src/manifest.rs:581-589 | No error exactly when all of these hold and the format is one this build reads; a warning exactly for a newer minor version |
| `DocumentRules.SoundStreamsAre` | crates/mjolnir-image/src/manifest.rs:691-797 | A sound stream, in bytes: its segments fit it and its chunks, come one behind the other and hold every byte unless it may be sparse |
| `DocumentRules.SoundManifestsAre` | crates/mjolnir-image/src/manifest.rs:581-846 | A sound manifest, in plain fields: format, parameters, table, streams, volumes and totals |
| `Overlaps.AdjacentSuffices` | crates/mjolnir-core/src/math.rs:255-263 | For ordered non-empty ranges, clear neighbours mean that no two ranges overlap |
| `Overlaps.ClearIsNoSharedByte` | crates/mjolnir-core/src/math.rs:250-263 | Two ranges are clear of each other exactly when they share no byte |
| `Overlaps.SortedCheckIsComplete` | crates/mjolnir-image/src/verify.rs:206-228 | Sorting and comparing neighbours decides for all pairs of non-empty ranges |
| `Overlaps.EmptyRangeHidesOverlap` | crates/mjolnir-core/src/math.rs:255-261 | With an empty range in between, neighbours are clear though two ranges overlap |
| `Overlaps.NeighboursDecideIff` | crates/mjolnir-core/src/math.rs:255-263 | Comparing neighbours finds every overlap of ordered ranges exactly when no empty one comes between two that are not |
| `LayoutCheck.ValidatePartitions` | crates/mjolnir-image/src/disk_layout.rs:359-421 | No finding exactly when every partition is sound, GUIDs included, and no number or id comes twice |
| `LayoutCheck.ValidateDisk` | crates/mjolnir-image/src/disk_layout.rs:294-447 | No finding exactly when the disk is sound: GUID and geometry, partitions inside, aligned, and pairwise disjoint |
| `LayoutCheck.ValidateLayout` | crates/mjolnir-image/src/disk_layout.rs:265-292 | No error exactly when format and GUID are right, there are disks, all are sound and no disk or partition id comes twice; a warning exactly for a newer minor version |
| `DocumentRules.SoundDisksAre` | crates/mjolnir-image/src/disk_layout.rs:294-447 | A sound disk, in bytes: partitions inside it, in whole sectors, none sharing a byte with another, and room behind them |
| `DocumentRules.SoundLayoutsAre` | crates/mjolnir-image/src/disk_layout.rs:265-447 | A sound layout: sound disks, and no id given to two disks or to two partitions of any of them |
| `Verify.CheckReconstruction` | crates/mjolnir-image/src/verify.rs:196-232 | No finding exactly when, on each disk, no stream overlaps the next one in order |
| `Verify.ReconstructionIsDisjointness` | crates/mjolnir-image/src/verify.rs:191-232 | For placed non-empty streams that means no two streams of a disk share a byte |
| `Verify.CountGaps` | crates/mjolnir-image/src/verify.rs:250-261 | Counts exactly the gaps of the interval algebra |
| `Verify.UncoveredIn` | crates/mjolnir-image/src/verify.rs:237-268 | Reports exactly the number and the bytes of the gaps of a sound sparse stream, and nothing when there are none |
| `Verify.CollectUncovered` | crates/mjolnir-image/src/verify.rs:235-269 | One summary for each stream that has gaps, in order, each of them right |
| `Verify.GapsAreReported` | crates/mjolnir-image/src/verify.rs:235-269 | A sparse stream with gaps is in the report, with their bytes and their number |
| `Verify.OnlyGapsAreReported` | crates/mjolnir-image/src/verify.rs:235-269 | And nothing else is |
| `Verify.GapsOfExtents` | crates/mjolnir-image/src/verify.rs:235-269 | These are the gaps `gaps_within` finds around the stream's extents |
| `Verify.VerifyChunks` | crates/mjolnir-image/src/verify.rs:131-182 | No finding exactly when every chunk can be read, unlocked where it has to be, and is sound at the depth asked for, with exact counts |
| `Verify.VerifyBackup` | crates/mjolnir-image/src/verify.rs:100-190 | A report passes exactly when the backup is sound throughout and every chunk can be read; verifying stops only when cancelled, or past 64 bits of sizes |
| `Verify.VerifiedIsDisjoint` | crates/mjolnir-image/src/verify.rs:191-232 | A verified backup restores no byte of a disk twice |
| `Verify.PassedHasFiles` | crates/mjolnir-image/src/verify.rs:131-157 | A backup that passes on sizes alone has a file of the recorded length for every chunk |
| `Verify.MissingChunkIsFound` | crates/mjolnir-image/src/verify.rs:131-147 | Once a listed chunk's file is gone nothing passes, at either depth |
| `Verify.ResizedChunkIsFound` | crates/mjolnir-image/src/verify.rs:147-157 | A chunk file of another length is found without reading it |
| `Verify.AlteredChunkIsFound` | crates/mjolnir-image/src/verify.rs:158-182 | A chunk file that decodes to other bytes, or not at all, is found by reading it |
| `CrossCheck.CheckPlacements` | crates/mjolnir-image/src/set.rs:358-391 | No finding exactly when every stream lies inside a known disk, and the index lists the streams naming each partition |
| `CrossCheck.CheckTableStreams` | crates/mjolnir-image/src/set.rs:394-454 | No finding exactly when the disk has one head at 0 and one tail ending at its size |
| `CrossCheck.CheckPartition` | crates/mjolnir-image/src/set.rs:457-525 | No finding exactly when one stream carries the partition, to its own place |
| `CrossCheck.CheckDocuments` | crates/mjolnir-image/src/set.rs:321-566 | No finding exactly when the documents are consistent, volumes included |
| `DocumentRules.AgreeingDocumentsAre` | crates/mjolnir-image/src/set.rs:321-566 | Sound documents are consistent exactly when they are of one backup, each disk has one head, one tail and one stream a partition, each in its place, no other stream is there, and the size required leaves room on every disk |
| `DocumentRules.AcceptedDocumentsAre` | crates/mjolnir-image/src/set.rs:82-118 | Documents are accepted exactly when manifest and layout are sound and all are of one backup, in plain fields and bytes |
| `Acceptance.PartitionHasOneStream` | crates/mjolnir-image/src/set.rs:457-525 | In accepted documents every partition has exactly one stream, with its disk, offset and length |
| `Acceptance.StreamHasOnePartition` | crates/mjolnir-image/src/set.rs:544-551 | And every partition stream carries exactly one partition |
| `Acceptance.DiskHasOneHeadAndTail` | crates/mjolnir-image/src/set.rs:394-454 | Every disk has exactly one head, at 0, and one tail, ending at its size |
| `Acceptance.EveryStreamHasADisk` | crates/mjolnir-image/src/set.rs:358-391 | There is no other stream, and each lies inside its disk |
| `Acceptance.PartitionStreamsAreDisjoint` | crates/mjolnir-image/src/set.rs:321-566 | Streams of different partitions share no byte |
| `Acceptance.AcceptedIsDisjointIff` | crates/mjolnir-image/src/set.rs:321-566 | No byte is restored twice exactly when head and tail keep clear of the partitions and of each other on every disk |
| `BackupFolder.OpenedStreamsCanOverlap` | crates/mjolnir-image/src/set.rs:45-118 | For every way of writing documents under which they fit there is a folder with a head over its partition that opens |
| `SmallRun.OverlapIsOpened` | crates/mjolnir-image/src/set.rs:45-118 | And there is such a way |
| `Producer.WrittenManifestIsSoundIff` | crates/mjolnir-image/src/manifest.rs:581-660 | With sound parameters and volumes, the manifest of a captured disk is sound exactly when it has fewer than 2^32 chunks |
| `Producer.WrittenDocumentsAgreeIff` | crates/mjolnir-image/src/set.rs:321-566 | The documents of a captured disk are consistent exactly when the plan called the disk and its partitions by their recorded names and its head fits the disk |
| `Producer.VerifiedDocumentsAgreeIff` | crates/mjolnir-image/src/set.rs:321-566 | For documents that pass a full verification the names alone decide |
| `Producer.WrittenBackupIsAcceptedIff` | crates/mjolnir-backup/src/capture.rs:114-414 | What capture and finalisation write is accepted, and restores no byte twice, exactly when it has fewer than 2^32 chunks |
| `Producer.WrittenBackupVerifiesIff` | crates/mjolnir-image/src/verify.rs:100-190 | And then a full verification has nothing against it |
| `Producer.WrittenBackupPassesStructure` | crates/mjolnir-image/src/verify.rs:131-157 | Nor has one that only looks at sizes |
| `Producer.TruncatedChunkIsFound` | crates/mjolnir-image/src/verify.rs:147-157 | But it has once a chunk file has been replaced by one of another length |
| `Producer.FullTableIsRefused` | crates/mjolnir-image/src/manifest.rs:654-660 | A table of 2^32 sound entries, which meets everything the writer keeps about its table and its size, is refused by the check |
| `BackupFolder.ValidateCompletion` | crates/mjolnir-image/src/completion.rs:144-208 | No finding exactly when the document is a readable one of a restorable backup, with GUID and time, and lists both documents, with sound entries |
| `DocumentRules.SoundCompletionsAre` | crates/mjolnir-image/src/completion.rs:133-208 | A sound completion document, in plain fields: complete, passed, both documents listed, every path safe to follow |
| `BackupFolder.CheckDocumentDigests` | crates/mjolnir-image/src/set.rs:276-318 | No finding exactly when every listed document can be read and has its recorded size and digest |
| `BackupFolder.Folder.Create` | crates/mjolnir-image/src/writer.rs:94-122 | Refuses exactly a folder that is already there; a new one is empty |
| `BackupFolder.Folder.WriteJsonAtomic` | crates/mjolnir-image/src/set.rs:224-260 | The document appears whole under its name, and the name and length returned are those of the text that is there; or nothing changes, which takes a faulty drive or a text past 64 bits |
| `BackupFolder.Folder.OpenUnchecked` | crates/mjolnir-image/src/set.rs:82-118 | Finds nothing exactly when everything opening demands holds and can be read, with or without a completion document |
| `BackupFolder.Folder.Open` | crates/mjolnir-image/src/set.rs:45-75 | Succeeds exactly on folders that hold everything opening demands in files that can be read |
| `DocumentRules.OpenFoldersAre` | crates/mjolnir-image/src/set.rs:45-118 | A folder with the three documents opens exactly when they are sound and of one backup, and every listed file is there with the length and the name listed |
| `DocumentRules.NothingElseOpens` | crates/mjolnir-image/src/set.rs:82-118 | And no folder without the three opens |
| `DocumentRules.WrongLayoutDoesNotOpen` | crates/mjolnir-image/src/set.rs:321-345 | With the layout of another backup, or one with a partition out of line with the sectors or out of its disk, no folder opens |
| `DocumentRules.WrongMarkerDoesNotOpen` | crates/mjolnir-image/src/set.rs:326-345 | Nor with a completion document of another backup or for another size |
| `BackupFolder.OpenedDocumentsAreRecorded` | crates/mjolnir-image/src/set.rs:276-318 | In a folder that opens each listed file is there, as long and of the name recorded |
| `BackupFolder.EditedDoesNotOpen` | crates/mjolnir-image/src/set.rs:276-318 | With another text in place of a listed document and the marker left alone no folder opens, if names tell the texts apart |
| `BackupFolder.RemovedDoesNotOpen` | crates/mjolnir-image/src/set.rs:276-318 | Nor does one that a listed document has gone from |
| `BackupFolder.MarkedOpensIff` | crates/mjolnir-image/src/set.rs:45-118 | With its marker a folder opens exactly when that tells of a passed run and the manifest and the layout are sound and consistent |
| `Codecs.LawfulDocuments` | crates/mjolnir-image/src/set.rs:198-260 | Documents can be written as text and read back: there is a codec that does so for all of them, and is short on any few |
| `Codecs.LawfulChunks` | crates/mjolnir-image/src/store.rs:109-118 | For every source there is a codec that names apart whatever can be read from it |
| `RunProtocol.StepKeeps` | crates/mjolnir-backup/src/run.rs:239-288 | Every step of a run, kill and power cut keeps the run invariant |
| `RunProtocol.OpenedFolderWasVerified` | crates/mjolnir-backup/src/run.rs:239-288 | If any first part of the renames of any run leaves a folder that opens, an earlier step of the run passed a full verification of just these documents and these renames end with the marker it wrote; each chunk reads back and no byte is restored twice |
| `RunProtocol.FailedMarkDoesNotOpen` | crates/mjolnir-image/src/writer.rs:492-498 | A run marked failed leaves a folder that does not open |
| `RunProtocol.InterruptedRunDoesNotOpen` | crates/mjolnir-image/src/writer.rs:465-511 | Cut short anywhere before its marker, a run leaves a folder that does not open |
| `RunProtocol.CompletedRunOpensIff` | crates/mjolnir-backup/src/run.rs:245-273 | A run marked complete opens exactly when manifest and layout are consistent |
| `Traces.ReachedIsClosedBefore` | crates/mjolnir-backup/src/run.rs:239-288 | Of the renames of a run that nothing cuts short, no first part but the whole leaves a folder that opens |
| `SmallRun.CompletedRunOpensIffNamed` | crates/mjolnir-backup/src/run.rs:194-273 | That is, exactly when its plan called the disk and its partitions by their recorded names |
| `SmallRun.ZeroRunOpensIff` | crates/mjolnir-backup/src/run.rs:194-273 | Under any name for the disk, a whole run over a disk of zeros passes its verification and is marked complete, and its folder opens exactly if the name is the recorded one |
| `SmallRun.CompletedRunCanBeRefused` | crates/mjolnir-backup/src/run.rs:194-273 | There are codecs and a run marked complete that does not open |
| `SmallRun.CompletedRunCanOpen` | crates/mjolnir-backup/src/run.rs:194-273 | There are codecs and a run marked complete that opens |
| `Run.DigestIndexes` | crates/mjolnir-image/src/writer.rs:287-301 | The digests of the volume indexes that may be followed, in order; fails only on one that is missing or unreadable |
| `Run.FinalizeInto` | crates/mjolnir-image/src/writer.rs:279-310 | Both documents are in the folder, theirs and the volume indexes' digests are noted, and there is no marker |
| `Run.MarkComplete` | crates/mjolnir-image/src/writer.rs:469-485 | Refuses without a pass; otherwise the folder holds a sound restorable marker |
| `Run.MarkFailed` | crates/mjolnir-image/src/writer.rs:492-498 | The folder does not open |
| `Run.VerifyAndMark` | crates/mjolnir-backup/src/run.rs:245-288 | Success means verified in full, and open exactly when the documents are consistent, with a marker that says so; failure leaves a folder that does not open, and is one of the drive, of the operator or of an unsound or unreadable backup |
| `Run.MarkedIsSealed` | crates/mjolnir-image/src/writer.rs:279-310 | The marker of a run into a new folder lists all there is in it: nothing but the marker can be edited or removed without the folder ceasing to open |
| `Run.RunBackup` | crates/mjolnir-backup/src/run.rs:91-310 | After a successful run the manifest holds the disk byte for byte, was verified in full over a store that stays valid, its totals are those of the ranges read, and the folder opens exactly if the plan used the recorded names. Any other run leaves a folder that does not open, or was there before and is untouched; on a sound plan only a full table or an unreadable chunk fails verification, every other failure has its cause stated, and a successful run had a feasible plan. The renames made are a run of the protocol, and no part of them short of the whole leaves a folder that opens |
| `Undisturbed.SoundPlansAre` | crates/mjolnir-image/src/disk_layout.rs:265-447 | A sound plan, in plain fields: a sound disk under its own names, stream ids that differ, and both ends clear of the partitions |
| `Undisturbed.OnlyFullRunsFail` | crates/mjolnir-backup/src/run.rs:91-310 | With a sound and feasible plan, sound parameters, texts within 64 bits, working devices and no request to stop, a run in a new folder only fails for 2^32 chunk files or more, or for more bytes than 64 bits can say |
| `Run.BackUpAndReadBack` | crates/mjolnir-backup/src/run.rs:91-310 | From disk to folder and back: after a successful run of a plan that names its disk, only an unreadable document stops the opening, and any read of any stream by the manifest found there succeeds with the bytes of snapshot and disk; where the snapshots are the disk's own, with the disk's bytes from the stream's place on, and zeros where the plan left them out |

## Left out

- ManifestCheck.ValidateVolumes: carries of a volume only its ids, index path and sizes, which are what the checks look at.
- Writer.StreamWriter.SetUsedBlocks: keeps only the extent count of the figures recorded for a used block plan.
- Store.ChunkStore.Put: does not say which write fails on a drive that may fail to write, because the device decides that.
- Capture.CopyRanges: does not say which read fails on a device that may fail to be read, nor when an operator who may cancel does.
- ExtractTree.ExtractAll: copying one file is one abstract step. Completeness is stated for indexes in which the names of a record agree on the directory and junction flags, as they do in any volume that is not damaged.
- CaptureDisk.CaptureDisk: the stream ids of head and tail are built without the limit on their length, past which the code stops with a panic.
- BackupFolder.Folder.Create: two runs racing for one folder are not modelled, nor is the folder for logs.
- Run.FinalizeInto: writing the volume indexes themselves is not modelled; a run writes none.
- The counts behind progress that the operator sees, cancellation as a cause, and the text of every finding.
- Compression, BLAKE3, AES-GCM and Argon2, JSON text, and the shape of file names and paths.
- Volume Shadow Copy, BitLocker, discovery, the NTFS reader that plans used blocks, and the restore engine. A plan is an arbitrary extent list and a snapshot a byte source with a length.
- Whether a preview may be restored: that decision is not part of this model.
- Both window applications, command lines, logging and packaging.
