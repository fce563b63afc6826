/**
 Capturing a whole disk: every partition, then the two regions holding the
 partition table (crates/mjolnir-backup/src/capture.rs).
 */
module CaptureDisk {
  import opened Arith
  import opened Extents
  import opened Pieces
  import opened Format
  import opened Writer
  import opened Capture

  /** What the sources answer when asked which parts of a partition hold data. */
  datatype UsedBlocks = PlanOf(extents: ExtentList) | Declined | PlanFailed

  datatype Sources = Sources(disk: Bytes, snapshots: seq<Option<Bytes>>, plans: seq<UsedBlocks>)

  datatype PartitionCapture = PartitionCapture(
    partitionId: string, streamId: string, capture: CaptureMethod, plannedBytes: u64)

  datatype CaptureSpec = CaptureSpec(
    diskId: string, disk: DiskEntry, headBytes: u64, tailBytes: u64, partitions: seq<PartitionCapture>)

  function HeadStreamId(spec: CaptureSpec): string {
    spec.diskId + "-head"
  }

  function TailStreamId(spec: CaptureSpec): string {
    spec.diskId + "-tail"
  }

  // ---- how much a capture plans to read ------------------------------------------------

  function PlannedSum(ps: seq<PartitionCapture>): nat {
    if ps == [] then 0 else PlannedSum(ps[..|ps| - 1]) + ps[|ps| - 1].plannedBytes
  }

  lemma {:induction false} PlannedSumGrows(ps: seq<PartitionCapture>, k: nat)
    requires k <= |ps|
    ensures PlannedSum(ps[..k]) <= PlannedSum(ps)
  {
    if k < |ps| {
      assert ps[..|ps| - 1][..k] == ps[..k];
      PlannedSumGrows(ps[..|ps| - 1], k);
    } else {
      assert ps[..k] == ps;
    }
  }

  /** What is planned for partitions taken together is what is planned for each. */
  lemma {:induction false} PlannedForBoth(a: seq<PartitionCapture>, b: seq<PartitionCapture>)
    ensures PlannedSum(a + b) == PlannedSum(a) + PlannedSum(b)
  {
    if b == [] {
      assert a + b == a;
    } else {
      PlannedForBoth(a, b[..|b| - 1]);
      assert (a + b)[..|a + b| - 1] == a + b[..|b| - 1];
    }
  }

  lemma PlannedForOne(p: PartitionCapture)
    ensures PlannedSum([p]) == p.plannedBytes
  {
    assert [p][..0] == [];
  }

  function PlannedTotal(spec: CaptureSpec): nat {
    spec.headBytes + spec.tailBytes + PlannedSum(spec.partitions)
  }

  /** The planned total is the exact sum, refused only when it does not fit 64 bits. */
  method TotalBytes(spec: CaptureSpec) returns (r: Result<u64, ArithError>)
    ensures r == if PlannedTotal(spec) <= U64_MAX then Success(PlannedTotal(spec)) else Failure(Overflow)
  {
    var first := AddU64(spec.headBytes, spec.tailBytes);
    if first.Failure? {
      return Failure(first.error);
    }
    var total := first.value;
    var ps := spec.partitions;
    for k := 0 to |ps|
      invariant total == spec.headBytes + spec.tailBytes + PlannedSum(ps[..k])
    {
      assert ps[..k + 1][..k] == ps[..k];
      PlannedSumGrows(ps, k + 1);
      var sum := AddU64(total, ps[k].plannedBytes);
      if sum.Failure? {
        return Failure(sum.error);
      }
      total := sum.value;
    }
    assert ps[..|ps|] == ps;
    return Success(total);
  }

  // ---- what one partition is to become ---------------------------------------------------

  datatype Decision = Use(extents: ExtentList) | FallBack | NotWanted

  /** A plan is used if there is one; any other answer means copying everything. */
  function Decide(capture: CaptureMethod, answer: UsedBlocks): Decision {
    if !capture.VssUsedBlocks? then NotWanted
    else if answer.PlanOf? then Use(answer.extents)
    else FallBack
  }

  function DecisionFor(spec: CaptureSpec, sources: Sources, k: nat): Decision
    requires k < |spec.partitions| && k < |sources.plans|
  {
    Decide(spec.partitions[k].capture, sources.plans[k])
  }

  function RangesFor(spec: CaptureSpec, sources: Sources, k: nat): seq<ByteRange>
    requires k < |spec.partitions| && k < |sources.plans|
  {
    match DecisionFor(spec, sources, k)
    case Use(extents) => extents
    case _ => [ByteRange(0, spec.partitions[k].plannedBytes)]
  }

  predicate SourcesFit(spec: CaptureSpec, sources: Sources) {
    && |sources.snapshots| == |sources.plans| == |spec.partitions|
    && |sources.disk| <= U64_MAX
    && forall k :: 0 <= k < |sources.snapshots| && sources.snapshots[k].Some? ==>
        |sources.snapshots[k].value| <= U64_MAX
  }

  /** The snapshot below its own length and the disk past it, or the disk alone. */
  function OriginFor(spec: CaptureSpec, sources: Sources, k: nat): Origin
    requires SourcesFit(spec, sources) && k < |spec.partitions| && |spec.partitions| == |spec.disk.partitions|
  {
    var start := spec.disk.partitions[k].startingOffset;
    match sources.snapshots[k]
    case Some(snapshot) => Origin(snapshot, 0, |snapshot|, sources.disk, start)
    case None => Origin(sources.disk, start, U64_MAX, sources.disk, start)
  }

  /** Everything the manifest records about a partition's stream apart from its segments. */
  function HeaderFor(spec: CaptureSpec, sources: Sources, k: nat): Stream
    requires SourcesFit(spec, sources) && k < |spec.partitions| && |spec.partitions| == |spec.disk.partitions|
  {
    var p, part := spec.partitions[k], spec.disk.partitions[k];
    var decision := DecisionFor(spec, sources, k);
    Stream(p.streamId, PartitionKind, spec.diskId, Some(p.partitionId), part.startingOffset, part.length,
           if decision.FallBack? then VssRaw else p.capture, [],
           if decision.Use? then Some(UsedBlockInfo(|decision.extents|)) else None,
           decision.FallBack?)
  }

  function PiecesFor(spec: CaptureSpec, sources: Sources, k: nat): seq<ByteRange>
    requires SourcesFit(spec, sources) && k < |spec.partitions| && |spec.partitions| == |spec.disk.partitions|
  {
    RangesInOrder(spec, sources, k);
    CopyPieces(RangesFor(spec, sources, k), DEFAULT_CHUNK_SIZE, OriginFor(spec, sources, k).covers)
  }

  lemma RangesInOrder(spec: CaptureSpec, sources: Sources, k: nat)
    requires k < |spec.partitions| && k < |sources.plans|
    ensures InOrder(RangesFor(spec, sources, k)) && Fit(RangesFor(spec, sources, k))
  {
  }

  /** The stream of partition `k`, as it has to come out. */
  ghost predicate PartitionCaptured(spec: CaptureSpec, sources: Sources, k: nat, s: Stream, log: seq<Piece>)
    requires SourcesFit(spec, sources) && k < |spec.partitions| && |spec.partitions| == |spec.disk.partitions|
  {
    && Header(s) == HeaderFor(spec, sources, k)
    && log == PiecesOf(Source(OriginFor(spec, sources, k)), PiecesFor(spec, sources, k))
  }

  /** The plan reaches past what was planned for the partition. */
  predicate PlanOverruns(spec: CaptureSpec, sources: Sources, k: nat)
    requires k < |spec.partitions| && k < |sources.plans|
  {
    var rs := RangesFor(spec, sources, k);
    exists i :: 0 <= i < |rs| && rs[i].Limit() > spec.partitions[k].plannedBytes
  }

  /** Bytes the capture does not read of what was planned for the partition. */
  function SkippedFor(spec: CaptureSpec, sources: Sources, k: nat): nat
    requires k < |spec.partitions| && k < |sources.plans|
  {
    var read := SumLengths(RangesFor(spec, sources, k));
    var planned := spec.partitions[k].plannedBytes;
    if DecisionFor(spec, sources, k).Use? && read < planned then planned - read else 0
  }

  /** Every slice of every source is among the byte strings names tell apart. */
  ghost predicate SourcesKnown(sources: Sources, known: iset<Bytes>) {
    && SlicesKnown(sources.disk, known)
    && forall k :: 0 <= k < |sources.snapshots| && sources.snapshots[k].Some? ==>
        SlicesKnown(sources.snapshots[k].value, known)
  }

  /** Opens the stream of partition `k` and settles how it is captured and which ranges are read. */
  method StartPartition(spec: CaptureSpec, k: nat, sources: Sources, w: BackupWriter)
    returns (sw: StreamWriter, ranges: seq<ByteRange>)
    requires SourcesFit(spec, sources) && k < |spec.partitions| && |spec.partitions| == |spec.disk.partitions|
    requires w.Valid() && w.Settled()
    ensures fresh(sw) && sw.writer == w && Fresh(sw)
    ensures Header(sw.stream) == HeaderFor(spec, sources, k) && ranges == RangesFor(spec, sources, k)
  {
    var p, part := spec.partitions[k], spec.disk.partitions[k];
    sw := new StreamWriter(w, Stream(p.streamId, PartitionKind, spec.diskId, Some(p.partitionId),
      part.startingOffset, part.length, p.capture, [], None, false));
    assert sw.stream.segments == [];
    match Decide(p.capture, sources.plans[k]) {
      case Use(extents) =>
        sw.SetUsedBlocks(UsedBlockInfo(|extents|));
        ranges := extents;
      case FallBack =>
        sw.FallBackTo(VssRaw);
        ranges := [ByteRange(0, p.plannedBytes)];
      case NotWanted =>
        ranges := [ByteRange(0, p.plannedBytes)];
    }
  }

  /** Everything read for the partition lies in it. */
  predicate Inside(spec: CaptureSpec, sources: Sources, k: nat)
    requires k < |spec.partitions| && k < |sources.plans| && |spec.partitions| == |spec.disk.partitions|
  {
    forall i :: 0 <= i < |RangesFor(spec, sources, k)| ==>
      RangesFor(spec, sources, k)[i].Limit() <= spec.disk.partitions[k].length
  }

  /** The last stream of `w` is one with this description, holding exactly these pieces of the source. */
  ghost predicate EndsWith(w: BackupWriter, header: Stream, src: int -> Byte, pieces: seq<ByteRange>)
    reads w
  {
    && |w.streams| > 0 && |w.logs| > 0
    && Header(w.streams[|w.streams| - 1]) == header
    && w.logs[|w.logs| - 1] == PiecesOf(src, pieces)
  }

  /** A stream that recorded some pieces of a source carries as many bytes as they have. */
  lemma RecordedPiecesSum(sw: StreamWriter, src: int -> Byte, pieces: seq<ByteRange>)
    requires sw.Valid() && sw.log == PiecesOf(src, pieces)
    ensures SumSegments(sw.stream.segments) == SumLengths(pieces)
  {
    RecordedPiecesCarry(sw.stream.segments, sw.writer.contents, src, pieces);
    SumSegmentsIsSumLengths(sw.stream.segments);
  }

  /** Copies the ranges into a fresh stream and adds it to the manifest. */
  method CopyAndFinish(o: Origin, tailOpen: bool, rs: seq<ByteRange>, sw: StreamWriter, ghost header: Stream,
      progress: Progress)
    returns (r: Result<(), BackupError>)
    requires Fresh(sw) && o.Known(sw.writer.store.known) && InOrder(rs) && header == Header(sw.stream)
    modifies sw, sw.writer`chunks, sw.writer`chunkIndex, sw.writer`contents, sw.writer`streams, sw.writer`logs
    modifies sw.writer.store, progress`advanced
    ensures sw.writer.Valid()
    ensures r.Success? ==>
              && sw.writer.Valid() && sw.writer.Settled()
              && |sw.writer.streams| == |old(sw.writer.streams)| + 1 && old(sw.writer.streams) <= sw.writer.streams
              && |sw.writer.logs| == |old(sw.writer.logs)| + 1 && old(sw.writer.logs) <= sw.writer.logs
              && EndsWith(sw.writer, header, Source(o), CopyPieces(rs, DEFAULT_CHUNK_SIZE, o.covers))
              && AllSourced(o, tailOpen, rs)
              && progress.advanced == old(progress.advanced) + SumLengths(rs)
    ensures r.Failure? ==>
              || Excused(r.error, sw.writer, progress.conditions)
              || Explained(r.error, o, tailOpen, rs, header.length, sw.writer.chunkSize)
              || (r.error == Incomplete && !header.capture.MayBeSparse() && SumLengths(rs) != header.length)
  {
    r := CopyRanges(o, tailOpen, rs, sw, header, progress.advanced, progress);
    if r.Failure? {
      return r;
    }
    CopyPiecesSum(rs, DEFAULT_CHUNK_SIZE, o.covers);
    RecordedPiecesSum(sw, Source(o), CopyPieces(rs, DEFAULT_CHUNK_SIZE, o.covers));
    r := sw.Finish();
  }

  /** The disk is opened beside a snapshot that ends before what was planned. */
  function TailOpen(spec: CaptureSpec, sources: Sources, k: nat): bool
    requires SourcesFit(spec, sources) && k < |spec.partitions| && |spec.partitions| == |spec.disk.partitions|
  {
    sources.snapshots[k].Some? && OriginFor(spec, sources, k).covers < spec.partitions[k].plannedBytes
  }

  /** Everything the capture reads of the partition can be had. */
  ghost predicate PartitionSourced(spec: CaptureSpec, sources: Sources, k: nat)
    requires SourcesFit(spec, sources) && k < |spec.partitions| && |spec.partitions| == |spec.disk.partitions|
  {
    AllSourced(OriginFor(spec, sources, k), TailOpen(spec, sources, k), RangesFor(spec, sources, k))
  }

  /** The stream is to be complete, and more or less is read than the partition holds. */
  predicate MissesLength(spec: CaptureSpec, sources: Sources, k: nat)
    requires SourcesFit(spec, sources) && k < |spec.partitions| && |spec.partitions| == |spec.disk.partitions|
  {
    !HeaderFor(spec, sources, k).capture.MayBeSparse() &&
    SumLengths(RangesFor(spec, sources, k)) != spec.disk.partitions[k].length
  }

  /** Why the plan for one partition makes its capture fail, when it does. */
  ghost predicate PartitionAtFault(spec: CaptureSpec, sources: Sources, k: nat, e: BackupError, chunkSize: u32)
    requires SourcesFit(spec, sources) && k < |spec.partitions| && |spec.partitions| == |spec.disk.partitions|
  {
    || (e == NoTailSource && PlanOverruns(spec, sources, k) && !PartitionSourced(spec, sources, k))
    || (IsRefusal(e) && (chunkSize < DEFAULT_CHUNK_SIZE || !Inside(spec, sources, k)))
    || ((IsRefusal(e) || e == ReadFailed) && !PartitionSourced(spec, sources, k))
    || (e == Incomplete && MissesLength(spec, sources, k))
  }

  /** Reading past the snapshot with no disk to turn to takes a plan larger than what was planned. */
  lemma PartitionFailure(spec: CaptureSpec, sources: Sources, k: nat, e: BackupError, chunkSize: u32)
    requires SourcesFit(spec, sources) && k < |spec.partitions| && |spec.partitions| == |spec.disk.partitions|
    requires Explained(e, OriginFor(spec, sources, k), TailOpen(spec, sources, k), RangesFor(spec, sources, k),
                       HeaderFor(spec, sources, k).length, chunkSize)
    ensures PartitionAtFault(spec, sources, k, e, chunkSize)
  {
    var o, rs, tailOpen := OriginFor(spec, sources, k), RangesFor(spec, sources, k), TailOpen(spec, sources, k);
    var i :| 0 <= i < |rs| &&
      RangeExplained(e, o, tailOpen, rs[i], HeaderFor(spec, sources, k).length, chunkSize);
    if PartitionSourced(spec, sources, k) {
      forall x | rs[i].Has(x)
        ensures Sourced(o, tailOpen, x) && o.Addressable(x)
      {
        assert SpanSourced(o, tailOpen, rs[i].offset, rs[i].Limit());
      }
    }
  }

  /** Everything a captured partition leaves behind: one more stream, and its bytes reported. */
  ghost predicate PartitionAdded(spec: CaptureSpec, sources: Sources, k: nat, w: BackupWriter, streams: seq<Stream>,
      logs: seq<seq<Piece>>)
    requires SourcesFit(spec, sources) && k < |spec.partitions| && |spec.partitions| == |spec.disk.partitions|
    reads w
  {
    && |w.streams| == |streams| + 1 && streams <= w.streams
    && |w.logs| == |logs| + 1 && logs <= w.logs
    && EndsWith(w, HeaderFor(spec, sources, k), Source(OriginFor(spec, sources, k)), PiecesFor(spec, sources, k))
  }

  /** Opens the sources of one partition and copies it into a new stream. */
  method CopyPartition(spec: CaptureSpec, k: nat, sources: Sources, w: BackupWriter, progress: Progress)
    returns (r: Result<(), BackupError>)
    requires SourcesFit(spec, sources) && k < |spec.partitions| && |spec.partitions| == |spec.disk.partitions|
    requires w.Valid() && w.Settled() && SourcesKnown(sources, w.store.known)
    modifies w`chunks, w`chunkIndex, w`contents, w`streams, w`logs, w.store, progress`advanced
    ensures w.Valid()
    ensures r.Success? ==>
              && w.Valid() && w.Settled()
              && PartitionAdded(spec, sources, k, w, old(w.streams), old(w.logs))
              && progress.advanced == old(progress.advanced) + SumLengths(RangesFor(spec, sources, k))
              && PartitionSourced(spec, sources, k)
    ensures r.Failure? ==>
              || Excused(r.error, w, progress.conditions)
              || PartitionAtFault(spec, sources, k, r.error, w.chunkSize)
  {
    var opens := *;
    if progress.conditions.mayFailToRead && !opens {
      return Failure(ReadFailed);
    }
    var o := OriginFor(spec, sources, k);
    RangesInOrder(spec, sources, k);
    var sw, ranges := StartPartition(spec, k, sources, w);
    r := CopyAndFinish(o, TailOpen(spec, sources, k), ranges, sw, HeaderFor(spec, sources, k), progress);
    if r.Failure? && !Excused(r.error, w, progress.conditions) && r.error != Incomplete {
      PartitionFailure(spec, sources, k, r.error, w.chunkSize);
    }
  }

  /** Captures one partition into a new stream, and reports what its plan left out. */
  method CapturePartition(spec: CaptureSpec, k: nat, sources: Sources, w: BackupWriter, progress: Progress)
    returns (r: Result<(), BackupError>)
    requires SourcesFit(spec, sources) && k < |spec.partitions| && |spec.partitions| == |spec.disk.partitions|
    requires w.Valid() && w.Settled() && SourcesKnown(sources, w.store.known)
    modifies w`chunks, w`chunkIndex, w`contents, w`streams, w`logs, w.store, progress
    ensures w.Valid()
    ensures r.Success? ==>
              && w.Valid() && w.Settled()
              && PartitionAdded(spec, sources, k, w, old(w.streams), old(w.logs))
              && progress.advanced == old(progress.advanced) + SumLengths(RangesFor(spec, sources, k))
              && progress.skipped == old(progress.skipped) + SkippedFor(spec, sources, k)
              && PartitionSourced(spec, sources, k)
    ensures r.Failure? ==>
              || Excused(r.error, w, progress.conditions)
              || PartitionAtFault(spec, sources, k, r.error, w.chunkSize)
  {
    var cancelled := *;
    if progress.conditions.mayCancel && cancelled {
      return Failure(Cancelled);
    }
    r := CopyPartition(spec, k, sources, w, progress);
    if r.Success? && DecisionFor(spec, sources, k).Use? {
      var captured, planned := SumLengths(RangesFor(spec, sources, k)), spec.partitions[k].plannedBytes;
      if captured < planned {
        progress.Skip(planned - captured);
      }
    }
  }

  // ---- the two regions holding the partition table ---------------------------------------

  function HeadHeader(spec: CaptureSpec): Stream {
    Stream(HeadStreamId(spec), DiskHead, spec.diskId, None, 0, spec.headBytes, RawFull, [], None, false)
  }

  function TailHeader(spec: CaptureSpec): Stream
    requires spec.tailBytes <= spec.disk.sizeBytes
  {
    Stream(TailStreamId(spec), DiskTail, spec.diskId, None, spec.disk.sizeBytes - spec.tailBytes, spec.tailBytes,
        RawFull, [], None, false)
  }

  /** A stream holding a whole region of the disk, cut on the chunk grid. */
  ghost predicate RegionCaptured(header: Stream, disk: Bytes, s: Stream, log: seq<Piece>) {
    && Header(s) == header
    && exists ps :: GridUpTo(ps, header.length, header.length, DEFAULT_CHUNK_SIZE) &&
                    log == PiecesOf(Source(Raw(disk, header.targetOffset)), ps)
  }

  /** The region's pieces are cut every 4 MiB, and only the last may be shorter. */
  lemma RegionIsCut(header: Stream, disk: Bytes, s: Stream, log: seq<Piece>, i: nat)
    requires RegionCaptured(header, disk, s, log) && i < |log|
    ensures log[i].offset == i * 4194304
    ensures |log[i].data| == if i < |log| - 1 then 4194304 else header.length - i * 4194304
  {
    var ps :| GridUpTo(ps, header.length, header.length, DEFAULT_CHUNK_SIZE) &&
      log == PiecesOf(Source(Raw(disk, header.targetOffset)), ps);
    PiecesOfAt(Source(Raw(disk, header.targetOffset)), ps);
    assert ps[i] == GridPiece(i, header.length, DEFAULT_CHUNK_SIZE);
    assert i < |ps| - 1 ==> (i + 1) * DEFAULT_CHUNK_SIZE < header.length;
  }

  /** Copies one region of the disk into a stream of its own. */
  method CaptureRegion(header: Stream, disk: Bytes, w: BackupWriter, progress: Progress)
    returns (r: Result<(), BackupError>)
    requires w.Valid() && w.Settled() && SlicesKnown(disk, w.store.known)
    requires header == Header(header)
    modifies w`chunks, w`chunkIndex, w`contents, w`streams, w`logs, w.store, progress`advanced
    ensures w.Valid()
    ensures r.Success? ==>
              && w.Valid() && w.Settled()
              && |w.streams| == |old(w.streams)| + 1 && old(w.streams) <= w.streams
              && |w.logs| == |old(w.logs)| + 1 && old(w.logs) <= w.logs
              && RegionCaptured(header, disk, w.streams[|w.streams| - 1], w.logs[|w.logs| - 1])
              && progress.advanced == old(progress.advanced) + header.length
              && ReachedTo(disk, header.targetOffset, header.length)
    ensures r.Failure? ==>
              || Excused(r.error, w, progress.conditions)
              || RegionExplained(r.error, disk, header.targetOffset, header.length, header.length, w.chunkSize)
  {
    var sw := new StreamWriter(w, header);
    ghost var pieces;
    r, pieces := CopyRange(disk, header.targetOffset, header.length, sw, header, progress.advanced, progress);
    if r.Failure? {
      return r;
    }
    RecordedPiecesSum(sw, Source(Raw(disk, header.targetOffset)), pieces);
    r := sw.Finish();
  }

  // ---- the whole disk ----------------------------------------------------------------------

  /** Partition `k` has become the stream at `base + k`. */
  ghost predicate CapturedAt(spec: CaptureSpec, sources: Sources, streams: seq<Stream>, logs: seq<seq<Piece>>,
      base: nat, k: nat)
    requires SourcesFit(spec, sources) && k < |spec.partitions| == |spec.disk.partitions|
  {
    && base + k < |streams| && base + k < |logs|
    && PartitionCaptured(spec, sources, k, streams[base + k], logs[base + k])
  }

  /** The first `k` partitions have become the streams after the first `base`. */
  ghost predicate PartitionsDone(spec: CaptureSpec, sources: Sources, streams: seq<Stream>, logs: seq<seq<Piece>>,
      base: nat, k: nat)
    requires SourcesFit(spec, sources) && k <= |spec.partitions| == |spec.disk.partitions|
  {
    && |streams| == |logs| == base + k
    && forall j :: 0 <= j < k ==> CapturedAt(spec, sources, streams, logs, base, j)
  }

  lemma PartitionsStep(spec: CaptureSpec, sources: Sources, streams: seq<Stream>, logs: seq<seq<Piece>>,
      w: BackupWriter, base: nat, k: nat)
    requires SourcesFit(spec, sources) && k < |spec.partitions| == |spec.disk.partitions|
    requires PartitionsDone(spec, sources, streams, logs, base, k)
    requires PartitionAdded(spec, sources, k, w, streams, logs)
    ensures PartitionsDone(spec, sources, w.streams, w.logs, base, k + 1)
  {
    forall j | 0 <= j < k
      ensures CapturedAt(spec, sources, w.streams, w.logs, base, j)
    {
      assert CapturedAt(spec, sources, streams, logs, base, j);
    }
    assert CapturedAt(spec, sources, w.streams, w.logs, base, k);
  }

  /** Bytes read for the first `k` partitions, and bytes planned for them but not read. */
  function ReadSum(spec: CaptureSpec, sources: Sources, k: nat): nat
    requires k <= |spec.partitions| && k <= |sources.plans|
  {
    if k == 0 then 0 else ReadSum(spec, sources, k - 1) + SumLengths(RangesFor(spec, sources, k - 1))
  }

  function SkippedSum(spec: CaptureSpec, sources: Sources, k: nat): nat
    requires k <= |spec.partitions| && k <= |sources.plans|
  {
    if k == 0 then 0 else SkippedSum(spec, sources, k - 1) + SkippedFor(spec, sources, k - 1)
  }

  /** Why the two ends of the disk cannot be captured, when they cannot. */
  predicate EndsAtFault(spec: CaptureSpec, sources: Sources, e: BackupError, chunkSize: u32) {
    || (IsRefusal(e) && chunkSize < DEFAULT_CHUNK_SIZE)
    || (e == ReadFailed && spec.headBytes > |sources.disk|)
    || (e == ReadFailed && spec.tailBytes > 0 && spec.disk.sizeBytes > |sources.disk|)
    || (e == DiskTooSmall && spec.disk.sizeBytes < spec.tailBytes)
  }

  /** The plan handed in is to blame, for one of its partitions or for the ends of the disk. */
  ghost predicate PlanAtFault(spec: CaptureSpec, sources: Sources, e: BackupError, chunkSize: u32)
    requires SourcesFit(spec, sources) && |spec.partitions| == |spec.disk.partitions|
  {
    || EndsAtFault(spec, sources, e, chunkSize)
    || exists k :: 0 <= k < |spec.partitions| && PartitionAtFault(spec, sources, k, e, chunkSize)
  }

  /** Everything read of the first `k` partitions can be had. */
  ghost predicate SourcedUpTo(spec: CaptureSpec, sources: Sources, k: nat)
    requires SourcesFit(spec, sources) && k <= |spec.partitions| == |spec.disk.partitions|
  {
    forall j :: 0 <= j < k ==> PartitionSourced(spec, sources, j)
  }

  /** A capture under way: `k` partitions done on top of what was there, every byte accounted for. */
  ghost predicate Underway(spec: CaptureSpec, sources: Sources, w: BackupWriter, progress: Progress,
      streams: seq<Stream>, logs: seq<seq<Piece>>, advanced: nat, skipped: nat, k: nat)
    requires SourcesFit(spec, sources) && k <= |spec.partitions| == |spec.disk.partitions|
    reads w, w.store, progress
  {
    && w.Valid() && w.Settled()
    && streams <= w.streams && logs <= w.logs
    && PartitionsDone(spec, sources, w.streams, w.logs, |streams|, k) && SourcedUpTo(spec, sources, k)
    && progress.advanced == advanced + ReadSum(spec, sources, k)
    && progress.skipped == skipped + SkippedSum(spec, sources, k)
  }

  lemma OneMoreUnderway(spec: CaptureSpec, sources: Sources, w: BackupWriter, progress: Progress,
      streams: seq<Stream>, logs: seq<seq<Piece>>, advanced: nat, skipped: nat, k: nat, before: seq<Stream>,
      beforeLogs: seq<seq<Piece>>)
    requires SourcesFit(spec, sources) && k < |spec.partitions| == |spec.disk.partitions|
    requires SourcedUpTo(spec, sources, k) && PartitionSourced(spec, sources, k)
    requires streams <= before && logs <= beforeLogs && PartitionsDone(spec, sources, before, beforeLogs, |streams|, k)
    requires w.Valid() && w.Settled() && PartitionAdded(spec, sources, k, w, before, beforeLogs)
    requires progress.advanced == advanced + ReadSum(spec, sources, k) + SumLengths(RangesFor(spec, sources, k))
    requires progress.skipped == skipped + SkippedSum(spec, sources, k) + SkippedFor(spec, sources, k)
    ensures Underway(spec, sources, w, progress, streams, logs, advanced, skipped, k + 1)
  {
    PartitionsStep(spec, sources, before, beforeLogs, w, |streams|, k);
  }

  /** Captures the next partition. */
  method CaptureNext(spec: CaptureSpec, k: nat, sources: Sources, w: BackupWriter, progress: Progress,
      ghost streams: seq<Stream>, ghost logs: seq<seq<Piece>>, ghost advanced: nat, ghost skipped: nat)
    returns (r: Result<(), BackupError>)
    requires SourcesFit(spec, sources) && k < |spec.partitions| == |spec.disk.partitions|
    requires Underway(spec, sources, w, progress, streams, logs, advanced, skipped, k)
    requires SourcesKnown(sources, w.store.known)
    modifies w`chunks, w`chunkIndex, w`contents, w`streams, w`logs, w.store, progress
    ensures w.Valid()
    ensures r.Success? ==> Underway(spec, sources, w, progress, streams, logs, advanced, skipped, k + 1)
    ensures r.Failure? ==>
              Excused(r.error, w, progress.conditions) || PlanAtFault(spec, sources, r.error, w.chunkSize)
  {
    ghost var before, beforeLogs := w.streams, w.logs;
    r := CapturePartition(spec, k, sources, w, progress);
    if r.Success? {
      OneMoreUnderway(spec, sources, w, progress, streams, logs, advanced, skipped, k, before, beforeLogs);
    }
  }

  /** Captures every partition in turn. */
  method CapturePartitions(spec: CaptureSpec, sources: Sources, w: BackupWriter, progress: Progress)
    returns (r: Result<(), BackupError>)
    requires SourcesFit(spec, sources) && |spec.partitions| == |spec.disk.partitions|
    requires w.Valid() && w.Settled() && SourcesKnown(sources, w.store.known)
    modifies w`chunks, w`chunkIndex, w`contents, w`streams, w`logs, w.store, progress
    ensures w.Valid()
    ensures r.Success? ==>
              Underway(spec, sources, w, progress, old(w.streams), old(w.logs),
                       old(progress.advanced), old(progress.skipped), |spec.partitions|)
    ensures r.Failure? ==>
              Excused(r.error, w, progress.conditions) || PlanAtFault(spec, sources, r.error, w.chunkSize)
  {
    ghost var streams, logs := w.streams, w.logs;
    ghost var advanced, skipped := progress.advanced, progress.skipped;
    for k := 0 to |spec.partitions|
      invariant Underway(spec, sources, w, progress, streams, logs, advanced, skipped, k)
    {
      r := CaptureNext(spec, k, sources, w, progress, streams, logs, advanced, skipped);
      if r.Failure? {
        return r;
      }
    }
    r := Success(());
  }

  /** The head and the tail have become the two streams after the given ones. */
  ghost predicate TableCaptured(spec: CaptureSpec, sources: Sources, w: BackupWriter, streams: seq<Stream>,
      logs: seq<seq<Piece>>)
    reads w
  {
    && streams <= w.streams && logs <= w.logs
    && |w.streams| == |streams| + 2 && |w.logs| == |logs| + 2
    && spec.tailBytes <= spec.disk.sizeBytes
    && RegionCaptured(HeadHeader(spec), sources.disk, w.streams[|streams|], w.logs[|logs|])
    && RegionCaptured(TailHeader(spec), sources.disk, w.streams[|streams| + 1], w.logs[|logs| + 1])
  }

  /** The disk is long enough for both of its ends. */
  predicate EndsSourced(spec: CaptureSpec, sources: Sources) {
    spec.headBytes <= |sources.disk| && (spec.tailBytes > 0 ==> spec.disk.sizeBytes <= |sources.disk|)
  }

  /** Copies the region before the partitions and the one behind them. */
  method CaptureTable(spec: CaptureSpec, sources: Sources, w: BackupWriter, progress: Progress)
    returns (r: Result<(), BackupError>)
    requires w.Valid() && w.Settled() && SlicesKnown(sources.disk, w.store.known)
    modifies w`chunks, w`chunkIndex, w`contents, w`streams, w`logs, w.store, progress`advanced
    ensures w.Valid()
    ensures r.Success? ==>
              && w.Valid() && w.Settled()
              && TableCaptured(spec, sources, w, old(w.streams), old(w.logs))
              && progress.advanced == old(progress.advanced) + spec.headBytes + spec.tailBytes
              && EndsSourced(spec, sources)
    ensures r.Failure? ==>
              Excused(r.error, w, progress.conditions) || EndsAtFault(spec, sources, r.error, w.chunkSize)
  {
    var opens := *;
    if progress.conditions.mayFailToRead && !opens {
      return Failure(ReadFailed);
    }
    r := CaptureRegion(HeadHeader(spec), sources.disk, w, progress);
    if r.Failure? {
      return r;
    }
    if spec.disk.sizeBytes < spec.tailBytes {
      return Failure(DiskTooSmall);
    }
    r := CaptureRegion(TailHeader(spec), sources.disk, w, progress);
  }

  /**
   Everything a capture leaves behind: one stream a partition in table order, then
   the head and the tail, each with the source's bytes, on top of what was there.
   */
  ghost predicate DiskCaptured(spec: CaptureSpec, sources: Sources, streams: seq<Stream>, logs: seq<seq<Piece>>,
      base: nat)
    requires SourcesFit(spec, sources) && |spec.partitions| == |spec.disk.partitions|
  {
    var n := |spec.partitions|;
    && |streams| == |logs| == base + n + 2
    && (forall k :: 0 <= k < n ==> CapturedAt(spec, sources, streams, logs, base, k))
    && spec.tailBytes <= spec.disk.sizeBytes
    && RegionCaptured(HeadHeader(spec), sources.disk, streams[base + n], logs[base + n])
    && RegionCaptured(TailHeader(spec), sources.disk, streams[base + n + 1], logs[base + n + 1])
  }

  lemma DiskDone(spec: CaptureSpec, sources: Sources, streams: seq<Stream>, logs: seq<seq<Piece>>, w: BackupWriter,
      base: nat)
    requires SourcesFit(spec, sources) && |spec.partitions| == |spec.disk.partitions|
    requires PartitionsDone(spec, sources, streams, logs, base, |spec.partitions|)
    requires TableCaptured(spec, sources, w, streams, logs)
    ensures DiskCaptured(spec, sources, w.streams, w.logs, base)
  {
    forall k | 0 <= k < |spec.partitions|
      ensures CapturedAt(spec, sources, w.streams, w.logs, base, k)
    {
      assert CapturedAt(spec, sources, streams, logs, base, k);
    }
  }

  /** Captures every partition and the two ends of the disk. */
  method CaptureStreams(spec: CaptureSpec, sources: Sources, w: BackupWriter, progress: Progress)
    returns (r: Result<(), BackupError>)
    requires |spec.partitions| == |spec.disk.partitions| && SourcesFit(spec, sources)
    requires w.Valid() && w.Settled() && SourcesKnown(sources, w.store.known)
    modifies w`chunks, w`chunkIndex, w`contents, w`streams, w`logs, w.store, progress
    ensures w.Valid()
    ensures r.Success? ==>
              && w.Valid() && w.Settled()
              && old(w.streams) <= w.streams && old(w.logs) <= w.logs
              && DiskCaptured(spec, sources, w.streams, w.logs, |old(w.streams)|)
              && progress.advanced ==
                 old(progress.advanced) + ReadSum(spec, sources, |spec.partitions|) + spec.headBytes + spec.tailBytes
              && progress.skipped == old(progress.skipped) + SkippedSum(spec, sources, |spec.partitions|)
              && SourcedUpTo(spec, sources, |spec.partitions|) && EndsSourced(spec, sources)
    ensures r.Failure? ==>
              Excused(r.error, w, progress.conditions) || PlanAtFault(spec, sources, r.error, w.chunkSize)
  {
    ghost var streams, logs := w.streams, w.logs;
    ghost var advanced, skipped := progress.advanced, progress.skipped;
    r := CapturePartitions(spec, sources, w, progress);
    if r.Success? {
      r := CaptureEnds(spec, sources, w, progress, streams, logs, advanced, skipped);
    }
  }

  /** Captures the two ends of a disk whose partitions have all been captured. */
  method CaptureEnds(spec: CaptureSpec, sources: Sources, w: BackupWriter, progress: Progress,
      ghost streams: seq<Stream>, ghost logs: seq<seq<Piece>>, ghost advanced: nat, ghost skipped: nat)
    returns (r: Result<(), BackupError>)
    requires |spec.partitions| == |spec.disk.partitions| && SourcesFit(spec, sources)
    requires Underway(spec, sources, w, progress, streams, logs, advanced, skipped, |spec.partitions|)
    requires SourcesKnown(sources, w.store.known)
    modifies w`chunks, w`chunkIndex, w`contents, w`streams, w`logs, w.store, progress`advanced
    ensures w.Valid()
    ensures r.Success? ==>
              && w.Settled() && streams <= w.streams && logs <= w.logs
              && DiskCaptured(spec, sources, w.streams, w.logs, |streams|)
              && progress.advanced ==
                 advanced + ReadSum(spec, sources, |spec.partitions|) + spec.headBytes + spec.tailBytes
              && progress.skipped == skipped + SkippedSum(spec, sources, |spec.partitions|)
              && SourcedUpTo(spec, sources, |spec.partitions|) && EndsSourced(spec, sources)
    ensures r.Failure? ==>
              Excused(r.error, w, progress.conditions) || EndsAtFault(spec, sources, r.error, w.chunkSize)
  {
    ghost var before, beforeLogs := w.streams, w.logs;
    r := CaptureTable(spec, sources, w, progress);
    if r.Success? {
      PrefixOfPrefix(streams, before, w.streams);
      PrefixOfPrefix(logs, beforeLogs, w.logs);
      DiskDone(spec, sources, before, beforeLogs, w, |streams|);
    }
  }

  lemma PrefixOfPrefix<T>(a: seq<T>, b: seq<T>, c: seq<T>)
    requires a <= b && b <= c
    ensures a <= c
  {
  }

  /**
   Captures the disk or fails. What is reported as read and as skipped is the planned
   total exactly when no plan lists more than was planned for its partition.
   */
  method CaptureDisk(spec: CaptureSpec, sources: Sources, w: BackupWriter, progress: Progress)
    returns (r: Result<(), BackupError>)
    requires |spec.partitions| == |spec.disk.partitions| ==> SourcesFit(spec, sources)
    requires w.Valid() && w.Settled() && SourcesKnown(sources, w.store.known)
    modifies w`chunks, w`chunkIndex, w`contents, w`streams, w`logs, w`disks, w.store, progress
    ensures w.Valid()
    ensures |spec.partitions| != |spec.disk.partitions| ==> r == Failure(PlanMismatch) && w.disks == old(w.disks)
    ensures r.Success? ==>
              && w.Valid() && w.Settled() && w.disks == [spec.disk]
              && old(w.streams) <= w.streams && old(w.logs) <= w.logs
              && |spec.partitions| == |spec.disk.partitions|
              && DiskCaptured(spec, sources, w.streams, w.logs, |old(w.streams)|)
              && progress.advanced ==
                 old(progress.advanced) + ReadSum(spec, sources, |spec.partitions|) + spec.headBytes + spec.tailBytes
              && progress.skipped == old(progress.skipped) + SkippedSum(spec, sources, |spec.partitions|)
              && SourcedUpTo(spec, sources, |spec.partitions|) && EndsSourced(spec, sources)
    ensures r.Success? ==>
              var read, skipped := progress.advanced - old(progress.advanced), progress.skipped - old(progress.skipped);
              read + skipped == PlannedTotal(spec) <==> NoneTooLarge(spec, sources, |spec.partitions|)
    ensures r.Failure? && |spec.partitions| == |spec.disk.partitions| ==>
              Excused(r.error, w, progress.conditions) || PlanAtFault(spec, sources, r.error, w.chunkSize)
  {
    if |spec.partitions| != |spec.disk.partitions| {
      return Failure(PlanMismatch);
    }
    w.disks := [spec.disk];
    r := CaptureStreams(spec, sources, w, progress);
    ReportedIsTotal(spec, sources);
  }

  // ---- progress --------------------------------------------------------------------------

  /** A plan lists more bytes than were planned for its partition. */
  predicate PlanTooLarge(spec: CaptureSpec, sources: Sources, k: nat)
    requires k < |spec.partitions| && k < |sources.plans|
  {
    SumLengths(RangesFor(spec, sources, k)) > spec.partitions[k].plannedBytes
  }

  /** Everything reported for one partition: what was read and what was skipped. */
  function Reported(spec: CaptureSpec, sources: Sources, k: nat): nat
    requires k < |spec.partitions| && k < |sources.plans|
  {
    SumLengths(RangesFor(spec, sources, k)) + SkippedFor(spec, sources, k)
  }

  function ReportedSum(spec: CaptureSpec, sources: Sources, k: nat): nat
    requires k <= |spec.partitions| && k <= |sources.plans|
  {
    if k == 0 then 0 else ReportedSum(spec, sources, k - 1) + Reported(spec, sources, k - 1)
  }

  lemma {:induction false} ReportedIsReadAndSkipped(spec: CaptureSpec, sources: Sources, k: nat)
    requires k <= |spec.partitions| && k <= |sources.plans|
    ensures ReportedSum(spec, sources, k) == ReadSum(spec, sources, k) + SkippedSum(spec, sources, k)
  {
    if k > 0 {
      ReportedIsReadAndSkipped(spec, sources, k - 1);
    }
  }

  lemma PlannedSumStep(ps: seq<PartitionCapture>, k: nat)
    requires 0 < k <= |ps|
    ensures PlannedSum(ps[..k]) == PlannedSum(ps[..k - 1]) + ps[k - 1].plannedBytes
  {
    assert ps[..k][..k - 1] == ps[..k - 1];
  }

  lemma PartitionProgress(spec: CaptureSpec, sources: Sources, k: nat)
    requires k < |spec.partitions| && k < |sources.plans|
    ensures Reported(spec, sources, k) >= spec.partitions[k].plannedBytes
    ensures Reported(spec, sources, k) == spec.partitions[k].plannedBytes <==> !PlanTooLarge(spec, sources, k)
  {
  }

  ghost predicate NoneTooLarge(spec: CaptureSpec, sources: Sources, k: nat)
    requires k <= |spec.partitions| && k <= |sources.plans|
  {
    forall j :: 0 <= j < k ==> !PlanTooLarge(spec, sources, j)
  }

  lemma NoneTooLargeStep(spec: CaptureSpec, sources: Sources, k: nat)
    requires 0 < k <= |spec.partitions| && k <= |sources.plans|
    ensures NoneTooLarge(spec, sources, k) <==>
              NoneTooLarge(spec, sources, k - 1) && !PlanTooLarge(spec, sources, k - 1)
  {
  }

  /** What is planned for the first `k` partitions. */
  function PlannedUpTo(spec: CaptureSpec, k: nat): nat
    requires k <= |spec.partitions|
  {
    PlannedSum(spec.partitions[..k])
  }

  lemma PlannedStep(spec: CaptureSpec, sources: Sources, k: nat)
    requires 0 < k <= |spec.partitions| && k <= |sources.plans|
    ensures PlannedUpTo(spec, k) == PlannedUpTo(spec, k - 1) + spec.partitions[k - 1].plannedBytes
    ensures ReportedSum(spec, sources, k) == ReportedSum(spec, sources, k - 1) + Reported(spec, sources, k - 1)
  {
    PlannedSumStep(spec.partitions, k);
  }

  lemma BothMeet(a: int, b: int, c: int, d: int)
    requires a >= b && c >= d
    ensures a + c >= b + d && (a + c == b + d <==> a == b && c == d)
  {
  }

  /**
   Bytes read plus bytes skipped never fall short of what was planned, and meet it
   exactly unless some plan lists more than was planned for its partition.
   */
  lemma {:induction false} ProgressMeetsPlan(spec: CaptureSpec, sources: Sources, k: nat)
    requires k <= |spec.partitions| && k <= |sources.plans|
    ensures ReportedSum(spec, sources, k) >= PlannedUpTo(spec, k)
    ensures ReportedSum(spec, sources, k) == PlannedUpTo(spec, k) <==> NoneTooLarge(spec, sources, k)
  {
    if k > 0 {
      NoneTooLargeStep(spec, sources, k);
      ProgressMeetsPlan(spec, sources, k - 1);
      PartitionProgress(spec, sources, k - 1);
      PlannedStep(spec, sources, k);
      BothMeet(ReportedSum(spec, sources, k - 1), PlannedUpTo(spec, k - 1), Reported(spec, sources, k - 1),
        spec.partitions[k - 1].plannedBytes);
    }
  }

  /** What a finished capture has reported is the planned total exactly when no plan was too large. */
  lemma ReportedIsTotal(spec: CaptureSpec, sources: Sources)
    requires |spec.partitions| == |sources.plans|
    ensures var n := |spec.partitions|;
            ReadSum(spec, sources, n) + SkippedSum(spec, sources, n) == PlannedSum(spec.partitions) <==>
            NoneTooLarge(spec, sources, n)
  {
    var n := |spec.partitions|;
    assert spec.partitions[..n] == spec.partitions;
    ReportedIsReadAndSkipped(spec, sources, n);
    ProgressMeetsPlan(spec, sources, n);
  }

  /** A plan of ranges inside what was planned is never too large. */
  lemma PlanInsideIsNotTooLarge(spec: CaptureSpec, sources: Sources, k: nat)
    requires k < |spec.partitions| && k < |sources.plans| && !PlanOverruns(spec, sources, k)
    ensures !PlanTooLarge(spec, sources, k)
  {
    var rs := RangesFor(spec, sources, k);
    if DecisionFor(spec, sources, k).Use? {
      NormalIsAscending(rs);
      SumBelowLimit(rs);
    } else {
      assert rs[..0] == [];
      assert SumLengths(rs) == rs[0].length;
    }
  }
}
