/**
 Plans that fit their sources: exactly the ones whose capture has no fault of its own
 (crates/mjolnir-backup/src/capture.rs).
 */
module Plans {
  import opened Arith
  import opened Extents
  import opened Pieces
  import opened Format
  import opened Writer
  import opened Capture
  import opened CaptureDisk
  import opened RoundTrip

  /**
   The byte of the partition is there to be read: on the disk, or in the snapshot, or
   on the disk behind a snapshot that ends before what was planned.
   */
  predicate IsThere(spec: CaptureSpec, sources: Sources, k: nat, x: nat)
    requires k < |spec.partitions| == |spec.disk.partitions| == |sources.snapshots|
  {
    var start, snapshot := spec.disk.partitions[k].startingOffset, sources.snapshots[k];
    if snapshot == None then start + x < |sources.disk|
    else
      || x < |snapshot.value|
      || (|snapshot.value| < spec.partitions[k].plannedBytes && start + x < |sources.disk|)
  }

  /** The partition's stream may leave bytes out: used blocks that are known, or a preview. */
  predicate MayLeaveOut(spec: CaptureSpec, sources: Sources, k: nat)
    requires k < |spec.partitions| == |sources.plans|
  {
    || spec.partitions[k].capture == Preview
    || (spec.partitions[k].capture == VssUsedBlocks && sources.plans[k].PlanOf?)
  }

  /**
   The partition can be captured as planned: every byte taken is in the partition and
   there to be read, and a stream that may leave nothing out is planned for just its
   length.
   */
  ghost predicate Fits(spec: CaptureSpec, sources: Sources, k: nat)
    requires SourcesFit(spec, sources) && k < |spec.partitions| == |spec.disk.partitions|
  {
    var length := spec.disk.partitions[k].length;
    && (forall x :: Taken(spec, sources, k, x) ==> x < length && IsThere(spec, sources, k, x))
    && (MayLeaveOut(spec, sources, k) || spec.partitions[k].plannedBytes == length)
  }

  lemma SourcedIs(spec: CaptureSpec, sources: Sources, k: nat, x: nat)
    requires SourcesFit(spec, sources) && k < |spec.partitions| == |spec.disk.partitions| && x < U64_MAX
    ensures Sourced(OriginFor(spec, sources, k), TailOpen(spec, sources, k), x) <==> IsThere(spec, sources, k, x)
  {
  }

  lemma AllSourcedIs(spec: CaptureSpec, sources: Sources, k: nat)
    requires SourcesFit(spec, sources) && k < |spec.partitions| == |spec.disk.partitions|
    ensures PartitionSourced(spec, sources, k) <==>
              forall x: nat :: Taken(spec, sources, k, x) ==> IsThere(spec, sources, k, x)
  {
    var o, tailOpen, rs := OriginFor(spec, sources, k), TailOpen(spec, sources, k), RangesFor(spec, sources, k);
    forall x: nat | Taken(spec, sources, k, x)
      ensures Covered(rs, x) && (Sourced(o, tailOpen, x) <==> IsThere(spec, sources, k, x))
    {
      TakenIsCovered(spec, sources, k, x);
      TakenFits(spec, sources, k, x);
      SourcedIs(spec, sources, k, x);
    }
    if PartitionSourced(spec, sources, k) {
      forall x: nat | Taken(spec, sources, k, x)
        ensures IsThere(spec, sources, k, x)
      {
        var i :| 0 <= i < |rs| && rs[i].Has(x);
        assert SpanSourced(o, tailOpen, rs[i].offset, rs[i].Limit());
      }
    }
    if forall x: nat :: Taken(spec, sources, k, x) ==> IsThere(spec, sources, k, x) {
      forall i, x | 0 <= i < |rs| && rs[i].offset <= x < rs[i].Limit()
        ensures Sourced(o, tailOpen, x)
      {
        assert rs[i].Has(x);
        TakenIsCovered(spec, sources, k, x);
      }
    }
  }

  lemma LengthIs(spec: CaptureSpec, sources: Sources, k: nat)
    requires SourcesFit(spec, sources) && k < |spec.partitions| == |spec.disk.partitions|
    ensures MissesLength(spec, sources, k) <==>
              !MayLeaveOut(spec, sources, k) && spec.partitions[k].plannedBytes != spec.disk.partitions[k].length
  {
    if !MayLeaveOut(spec, sources, k) {
      var rs := RangesFor(spec, sources, k);
      assert rs == [ByteRange(0, spec.partitions[k].plannedBytes)] && rs[..0] == [];
      assert SumLengths(rs) == SumLengths(rs[..0]) + rs[0].length;
    }
  }

  lemma InsideIs(spec: CaptureSpec, sources: Sources, k: nat)
    requires SourcesFit(spec, sources) && k < |spec.partitions| == |spec.disk.partitions|
    ensures Inside(spec, sources, k) <==>
              forall x :: Taken(spec, sources, k, x) ==> x < spec.disk.partitions[k].length
  {
    var length, rs := spec.disk.partitions[k].length, RangesFor(spec, sources, k);
    RangesInOrder(spec, sources, k);
    if forall x :: Taken(spec, sources, k, x) ==> x < length {
      forall i | 0 <= i < |rs|
        ensures rs[i].Limit() <= length
      {
        if rs[i].length > 0 {
          assert rs[i].Has(rs[i].Limit() - 1);
          TakenIsCovered(spec, sources, k, rs[i].Limit() - 1);
        }
      }
    }
    if Inside(spec, sources, k) {
      forall x | Taken(spec, sources, k, x)
        ensures x < length
      {
        TakenIsCovered(spec, sources, k, x);
        var i :| 0 <= i < |rs| && rs[i].Has(x);
        assert rs[i].Limit() <= length;
      }
    }
  }

  lemma FitsInParts(spec: CaptureSpec, sources: Sources, k: nat)
    requires SourcesFit(spec, sources) && k < |spec.partitions| == |spec.disk.partitions|
    ensures Fits(spec, sources, k) <==>
              Inside(spec, sources, k) && PartitionSourced(spec, sources, k) && !MissesLength(spec, sources, k)
  {
    AllSourcedIs(spec, sources, k);
    LengthIs(spec, sources, k);
    InsideIs(spec, sources, k);
    forall x | Taken(spec, sources, k, x)
      ensures x >= 0
    {
      TakenFits(spec, sources, k, x);
    }
  }

  /** With chunks of the usual size, a partition's capture has no fault of its own exactly if it fits. */
  lemma FitsIff(spec: CaptureSpec, sources: Sources, k: nat, chunkSize: u32)
    requires SourcesFit(spec, sources) && k < |spec.partitions| == |spec.disk.partitions|
    requires chunkSize >= DEFAULT_CHUNK_SIZE
    ensures Fits(spec, sources, k) <==> forall e :: !PartitionAtFault(spec, sources, k, e, chunkSize)
  {
    FitsInParts(spec, sources, k);
    if forall e :: !PartitionAtFault(spec, sources, k, e, chunkSize) {
      assert !PartitionAtFault(spec, sources, k, ReadFailed, chunkSize);
      assert !PartitionAtFault(spec, sources, k, OutOfOrder, chunkSize);
      assert !PartitionAtFault(spec, sources, k, Incomplete, chunkSize);
    }
  }

  /** Every partition fits, and the disk has both its ends. */
  ghost predicate Feasible(spec: CaptureSpec, sources: Sources)
    requires SourcesFit(spec, sources) && |spec.partitions| == |spec.disk.partitions|
  {
    && (forall k :: 0 <= k < |spec.partitions| ==> Fits(spec, sources, k))
    && spec.headBytes <= |sources.disk| && spec.tailBytes <= spec.disk.sizeBytes
    && (spec.tailBytes > 0 ==> spec.disk.sizeBytes <= |sources.disk|)
  }

  /** With chunks of the usual size, a capture has no fault of its own exactly if the plan is feasible. */
  lemma FeasibleIff(spec: CaptureSpec, sources: Sources, chunkSize: u32)
    requires SourcesFit(spec, sources) && |spec.partitions| == |spec.disk.partitions|
    requires chunkSize >= DEFAULT_CHUNK_SIZE
    ensures Feasible(spec, sources) <==> forall e :: !PlanAtFault(spec, sources, e, chunkSize)
  {
    if Feasible(spec, sources) {
      forall e, k | 0 <= k < |spec.partitions|
        ensures !PartitionAtFault(spec, sources, k, e, chunkSize)
      {
        assert Fits(spec, sources, k);
        FitsIff(spec, sources, k, chunkSize);
      }
    }
    if forall e :: !PlanAtFault(spec, sources, e, chunkSize) {
      assert !PlanAtFault(spec, sources, ReadFailed, chunkSize);
      assert !PlanAtFault(spec, sources, DiskTooSmall, chunkSize);
      forall k | 0 <= k < |spec.partitions|
        ensures Fits(spec, sources, k)
      {
        forall e
          ensures !PartitionAtFault(spec, sources, k, e, chunkSize)
        {
          assert !PlanAtFault(spec, sources, e, chunkSize);
        }
        FitsIff(spec, sources, k, chunkSize);
      }
    }
  }

  // ---- what has been captured was feasible ---------------------------------------------------

  lemma CapturedFits(spec: CaptureSpec, sources: Sources, k: nat, s: Stream, log: seq<Piece>, chunks: seq<ChunkEntry>,
      contents: seq<Bytes>, chunkSize: u32)
    requires SourcesFit(spec, sources) && k < |spec.partitions| == |spec.disk.partitions|
    requires PartitionCaptured(spec, sources, k, s, log) && StreamOk(s, log, chunks, contents, chunkSize)
    requires PartitionSourced(spec, sources, k)
    ensures Fits(spec, sources, k)
  {
    var o, rs, pieces := OriginFor(spec, sources, k), RangesFor(spec, sources, k), PiecesFor(spec, sources, k);
    RangesInOrder(spec, sources, k);
    RecordedPiecesCarry(s.segments, contents, Source(o), pieces);
    SumSegmentsIsSumLengths(s.segments);
    CopyPiecesSum(rs, DEFAULT_CHUNK_SIZE, o.covers);
    forall x | Taken(spec, sources, k, x)
      ensures x < spec.disk.partitions[k].length
    {
      TakenIsCovered(spec, sources, k, x);
      CopyPiecesCover(rs, DEFAULT_CHUNK_SIZE, o.covers, x);
      CarriedIsCovered(s.segments, x);
      var i :| 0 <= i < |s.segments| && s.segments[i].Has(x);
      assert SegmentOk(s.segments[i], s.length, chunks);
    }
    InsideIs(spec, sources, k);
    assert s.capture == Header(s).capture && s.length == Header(s).length;
    FitsInParts(spec, sources, k);
  }

  /** A capture that has succeeded had a feasible plan. */
  lemma CapturedIsFeasible(spec: CaptureSpec, sources: Sources, w: BackupWriter)
    requires SourcesFit(spec, sources) && |spec.partitions| == |spec.disk.partitions|
    requires w.Valid() && DiskCaptured(spec, sources, w.streams, w.logs, 0)
    requires SourcedUpTo(spec, sources, |spec.partitions|) && EndsSourced(spec, sources)
    ensures Feasible(spec, sources)
  {
    forall k | 0 <= k < |spec.partitions|
      ensures Fits(spec, sources, k)
    {
      assert CapturedAt(spec, sources, w.streams, w.logs, 0, k) && PartitionSourced(spec, sources, k);
      CapturedFits(spec, sources, k, w.streams[k], w.logs[k], w.chunks, w.contents, w.chunkSize);
    }
  }
}
