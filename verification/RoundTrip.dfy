/**
 From disk to backup and back: what a captured stream reads as.
 */
module RoundTrip {
  import opened Arith
  import opened Extents
  import opened Pieces
  import opened Store
  import opened Format
  import opened Writer
  import opened Capture
  import opened CaptureDisk
  import opened Reader
  import M = ManifestCheck
  import V = Verify

  /** A stream that recorded a source's pieces reads as the source there and as zero elsewhere. */
  lemma RecordedReadsAs(segs: seq<Segment>, contents: seq<Bytes>, src: int -> Byte, pieces: seq<ByteRange>, x: int)
    requires Records(segs, PiecesOf(src, pieces), contents)
    ensures Backed(segs, contents)
    ensures SegmentByte(segs, contents, x) == if Covered(pieces, x) then src(x) else 0
  {
    PiecesOfAt(src, pieces);
    RecordedPiecesCarry(segs, contents, src, pieces);
    CarriedIsCovered(segs, x);
    if Covered(pieces, x) {
      CarriedIsSource(segs, contents, src, x);
    } else {
      UncarriedIsZero(segs, contents, x);
    }
  }

  /** The byte of the disk at a place, and zero past its end. */
  function DiskByte(sources: Sources, at: int): Byte {
    if 0 <= at < |sources.disk| then sources.disk[at] else 0
  }

  /** The byte at `x` of a partition: the snapshot's as far as that reaches, and the disk's behind it. */
  function PlaceByte(spec: CaptureSpec, sources: Sources, k: nat, x: nat): Byte
    requires k < |spec.partitions| == |spec.disk.partitions| == |sources.snapshots|
  {
    var snapshot := sources.snapshots[k];
    if snapshot.Some? && x < |snapshot.value| then snapshot.value[x]
    else DiskByte(sources, spec.disk.partitions[k].startingOffset + x)
  }

  /**
   The capture takes the byte: it is in the plan of used blocks where one is wanted and
   to be had, and within the planned bytes otherwise.
   */
  ghost predicate Taken(spec: CaptureSpec, sources: Sources, k: nat, x: int)
    requires k < |spec.partitions| == |sources.plans|
  {
    if spec.partitions[k].capture == VssUsedBlocks && sources.plans[k].PlanOf? then
      exists e :: e in sources.plans[k].extents && e.offset <= x < e.offset + e.length
    else
      0 <= x < spec.partitions[k].plannedBytes
  }

  /** As many bytes are read as the capture takes. */
  lemma ReadIsWhatIsTaken(spec: CaptureSpec, sources: Sources, k: nat, bytes: set<int>)
    requires k < |spec.partitions| == |sources.plans|
    requires forall x :: x in bytes <==> Taken(spec, sources, k, x)
    ensures SumLengths(RangesFor(spec, sources, k)) == |bytes|
  {
    var rs := RangesFor(spec, sources, k);
    if !DecisionFor(spec, sources, k).Use? {
      SpanSize(0, spec.partitions[k].plannedBytes);
      assert bytes == Span(0, spec.partitions[k].plannedBytes);
      assert rs[..0] == [];
    } else {
      NormalIsAscending(rs);
      SumCountsBytes(rs);
      forall x
        ensures x in bytes <==> x in CoveredBytes(rs)
      {
        TakenIsCovered(spec, sources, k, x);
      }
      assert bytes == CoveredBytes(rs);
    }
  }

  /** A plan overruns exactly if it takes a byte past what was planned. */
  lemma OverrunIsTaken(spec: CaptureSpec, sources: Sources, k: nat)
    requires k < |spec.partitions| == |sources.plans|
    ensures PlanOverruns(spec, sources, k) <==>
              exists x :: x >= spec.partitions[k].plannedBytes && Taken(spec, sources, k, x)
  {
    var rs := RangesFor(spec, sources, k);
    if PlanOverruns(spec, sources, k) {
      var i :| 0 <= i < |rs| && rs[i].Limit() > spec.partitions[k].plannedBytes;
      assert rs[i].Has(rs[i].Limit() - 1);
      TakenIsCovered(spec, sources, k, rs[i].Limit() - 1);
    }
    if x :| x >= spec.partitions[k].plannedBytes && Taken(spec, sources, k, x) {
      TakenIsCovered(spec, sources, k, x);
      var i :| 0 <= i < |rs| && rs[i].Has(x);
      assert rs[i].Limit() > spec.partitions[k].plannedBytes;
    }
  }

  /** The byte a partition's stream has to give back: what was there if it was taken, and zero if not. */
  ghost function PartitionByte(spec: CaptureSpec, sources: Sources, k: nat, x: int): Byte
    requires SourcesFit(spec, sources) && k < |spec.partitions| == |spec.disk.partitions|
  {
    if Taken(spec, sources, k, x) then PlaceByte(spec, sources, k, x) else 0
  }

  lemma TakenIsCovered(spec: CaptureSpec, sources: Sources, k: nat, x: int)
    requires k < |spec.partitions| == |sources.plans|
    ensures Taken(spec, sources, k, x) <==> Covered(RangesFor(spec, sources, k), x)
  {
    var rs := RangesFor(spec, sources, k);
    if Covered(rs, x) {
      var i :| 0 <= i < |rs| && rs[i].Has(x);
      assert rs[i] in rs;
    }
    if Taken(spec, sources, k, x) && DecisionFor(spec, sources, k).Use? {
      var e :| e in rs && e.offset <= x < e.offset + e.length;
      assert e.Has(x);
    } else if Taken(spec, sources, k, x) {
      assert rs[0].Has(x);
    }
  }

  lemma OriginIsPlace(spec: CaptureSpec, sources: Sources, k: nat, x: nat)
    requires SourcesFit(spec, sources) && k < |spec.partitions| == |spec.disk.partitions| && x < U64_MAX
    ensures OriginFor(spec, sources, k).At(x) == PlaceByte(spec, sources, k, x)
  {
  }

  lemma TakenFits(spec: CaptureSpec, sources: Sources, k: nat, x: int)
    requires k < |spec.partitions| == |sources.plans| && Taken(spec, sources, k, x)
    ensures 0 <= x < U64_MAX
  {
    TakenIsCovered(spec, sources, k, x);
    RangesInOrder(spec, sources, k);
  }

  lemma PartitionReadsAs(spec: CaptureSpec, sources: Sources, k: nat, s: Stream, log: seq<Piece>,
      chunks: seq<ChunkEntry>, contents: seq<Bytes>, chunkSize: u32, x: int)
    requires SourcesFit(spec, sources) && k < |spec.partitions| == |spec.disk.partitions|
    requires PartitionCaptured(spec, sources, k, s, log) && StreamOk(s, log, chunks, contents, chunkSize)
    ensures Backed(s.segments, contents)
    ensures SegmentByte(s.segments, contents, x) == PartitionByte(spec, sources, k, x)
  {
    var o := OriginFor(spec, sources, k);
    RangesInOrder(spec, sources, k);
    RecordedReadsAs(s.segments, contents, Source(o), PiecesFor(spec, sources, k), x);
    CopyPiecesCover(RangesFor(spec, sources, k), DEFAULT_CHUNK_SIZE, o.covers, x);
    TakenIsCovered(spec, sources, k, x);
    if Taken(spec, sources, k, x) {
      TakenFits(spec, sources, k, x);
      OriginIsPlace(spec, sources, k, x);
    }
  }

  /** A complete stream that recorded a source's pieces reads as the source throughout. */
  lemma CompleteReadsAsSource(s: Stream,
      src: int -> Byte, pieces: seq<ByteRange>, chunks: seq<ChunkEntry>, contents: seq<Bytes>, x: int)
    requires Records(s.segments, PiecesOf(src, pieces), contents) && SegmentsOk(s.segments, s.length, chunks)
    requires SumSegments(s.segments) == s.length && 0 <= x < s.length
    ensures Backed(s.segments, contents) && SegmentByte(s.segments, contents, x) == src(x)
  {
    RecordedReadsAs(s.segments, contents, src, pieces, x);
    RecordedPiecesCarry(s.segments, contents, src, pieces);
    CompleteSumCarriesEveryByte(s.segments, s.length, chunks);
    CarriedIsCovered(s.segments, x);
  }

  /** A partition captured in full reads as its source from its first byte to its last. */
  lemma FullPartitionReadsAsSource(spec: CaptureSpec, sources: Sources, k: nat, s: Stream, log: seq<Piece>,
      chunks: seq<ChunkEntry>, contents: seq<Bytes>, chunkSize: u32, x: int)
    requires SourcesFit(spec, sources) && k < |spec.partitions| == |spec.disk.partitions|
    requires PartitionCaptured(spec, sources, k, s, log) && StreamOk(s, log, chunks, contents, chunkSize)
    requires !s.capture.MayBeSparse() && 0 <= x < s.length
    ensures Backed(s.segments, contents)
    ensures SegmentByte(s.segments, contents, x) == PlaceByte(spec, sources, k, x)
  {
    CompleteReadsAsSource(s, Source(OriginFor(spec, sources, k)), PiecesFor(spec, sources, k), chunks, contents, x);
    OriginIsPlace(spec, sources, k, x);
  }

  /** The head and the tail read as the disk. */
  lemma RegionReadsAsDisk(header: Stream, disk: Bytes, s: Stream, log: seq<Piece>, chunks: seq<ChunkEntry>,
      contents: seq<Bytes>, chunkSize: u32, x: int)
    requires RegionCaptured(header, disk, s, log) && StreamOk(s, log, chunks, contents, chunkSize)
    requires !s.capture.MayBeSparse() && 0 <= x < s.length && header.targetOffset + header.length <= U64_MAX
    ensures Backed(s.segments, contents)
    ensures SegmentByte(s.segments, contents, x) == ByteAt(disk, header.targetOffset + x)
  {
    var src := Source(Raw(disk, header.targetOffset));
    var pieces :| GridUpTo(pieces, header.length, header.length, DEFAULT_CHUNK_SIZE) && log == PiecesOf(src, pieces);
    CompleteReadsAsSource(s, src, pieces, chunks, contents, x);
  }

  // ---- the whole disk ----------------------------------------------------------------------

  /** The stream is the part of the disk that starts at `offset`. */
  ghost predicate RegionMeans(disk: Bytes, offset: int, length: int, s: Stream, contents: seq<Bytes>) {
    && s.length == length && Backed(s.segments, contents)
    && forall x :: 0 <= x < length ==> SegmentByte(s.segments, contents, x) == ByteAt(disk, offset + x)
  }

  ghost predicate PartitionMeans(spec: CaptureSpec, sources: Sources, k: nat, s: Stream, contents: seq<Bytes>)
    requires SourcesFit(spec, sources) && k < |spec.partitions| == |spec.disk.partitions|
  {
    && s.length == spec.disk.partitions[k].length
    && Backed(s.segments, contents)
    && forall x :: SegmentByte(s.segments, contents, x) == PartitionByte(spec, sources, k, x)
  }

  /**
   The streams are the disk: each partition reads as its source where it was captured
   and as zero elsewhere, and the head and the tail as the two ends of the disk.
   */
  ghost predicate HoldsDisk(spec: CaptureSpec, sources: Sources, streams: seq<Stream>, contents: seq<Bytes>)
    requires SourcesFit(spec, sources) && |spec.partitions| == |spec.disk.partitions|
  {
    var n := |spec.partitions|;
    && |streams| == n + 2 && spec.tailBytes <= spec.disk.sizeBytes
    && (forall k :: 0 <= k < n ==> PartitionMeans(spec, sources, k, streams[k], contents))
    && RegionMeans(sources.disk, 0, spec.headBytes, streams[n], contents)
    && RegionMeans(sources.disk, spec.disk.sizeBytes - spec.tailBytes, spec.tailBytes, streams[n + 1], contents)
  }

  lemma CapturedLength(spec: CaptureSpec, sources: Sources, k: nat, s: Stream, log: seq<Piece>)
    requires SourcesFit(spec, sources) && k < |spec.partitions| == |spec.disk.partitions|
    requires PartitionCaptured(spec, sources, k, s, log)
    ensures s.length == spec.disk.partitions[k].length
  {
  }

  lemma WrittenPartitionMeans(spec: CaptureSpec, sources: Sources, w: BackupWriter, k: nat)
    requires SourcesFit(spec, sources) && k < |spec.partitions| == |spec.disk.partitions|
    requires w.Valid() && k < |w.streams| && PartitionCaptured(spec, sources, k, w.streams[k], w.logs[k])
    ensures PartitionMeans(spec, sources, k, w.streams[k], w.contents)
  {
    var s := w.streams[k];
    CapturedLength(spec, sources, k, s, w.logs[k]);
    PartitionReadsAs(spec, sources, k, s, w.logs[k], w.chunks, w.contents, w.chunkSize, 0);
    forall x
      ensures SegmentByte(s.segments, w.contents, x) == PartitionByte(spec, sources, k, x)
    {
      PartitionReadsAs(spec, sources, k, s, w.logs[k], w.chunks, w.contents, w.chunkSize, x);
    }
  }

  lemma WrittenRegionMeans(header: Stream, disk: Bytes, w: BackupWriter, j: nat)
    requires w.Valid() && j < |w.streams| && RegionCaptured(header, disk, w.streams[j], w.logs[j])
    requires !header.capture.MayBeSparse() && header.targetOffset + header.length <= U64_MAX
    ensures RegionMeans(disk, header.targetOffset, header.length, w.streams[j], w.contents)
  {
    var s := w.streams[j];
    SegmentsAreBackedByTable(w, j);
    forall x | 0 <= x < s.length
      ensures SegmentByte(s.segments, w.contents, x) == ByteAt(disk, header.targetOffset + x)
    {
      RegionReadsAsDisk(header, disk, s, w.logs[j], w.chunks, w.contents, w.chunkSize, x);
    }
  }

  lemma SegmentsAreBackedByTable(w: BackupWriter, j: nat)
    requires w.Valid() && j < |w.streams|
    ensures Backed(w.streams[j].segments, w.contents)
  {
    assert StreamOk(w.streams[j], w.logs[j], w.chunks, w.contents, w.chunkSize);
  }

  lemma WrittenHeadMeans(spec: CaptureSpec, sources: Sources, w: BackupWriter)
    requires SourcesFit(spec, sources) && |spec.partitions| == |spec.disk.partitions|
    requires w.Valid() && DiskCaptured(spec, sources, w.streams, w.logs, 0)
    ensures RegionMeans(sources.disk, 0, spec.headBytes, w.streams[|spec.partitions|], w.contents)
  {
    WrittenRegionMeans(HeadHeader(spec), sources.disk, w, |spec.partitions|);
  }

  lemma WrittenTailMeans(spec: CaptureSpec, sources: Sources, w: BackupWriter)
    requires SourcesFit(spec, sources) && |spec.partitions| == |spec.disk.partitions|
    requires w.Valid() && DiskCaptured(spec, sources, w.streams, w.logs, 0)
    ensures RegionMeans(sources.disk, spec.disk.sizeBytes - spec.tailBytes, spec.tailBytes,
                        w.streams[|spec.partitions| + 1], w.contents)
  {
    WrittenRegionMeans(TailHeader(spec), sources.disk, w, |spec.partitions| + 1);
  }

  /** A captured disk is in its streams, byte for byte. */
  lemma WrittenHoldsDisk(spec: CaptureSpec, sources: Sources, w: BackupWriter)
    requires SourcesFit(spec, sources) && |spec.partitions| == |spec.disk.partitions|
    requires w.Valid() && DiskCaptured(spec, sources, w.streams, w.logs, 0)
    ensures HoldsDisk(spec, sources, w.streams, w.contents)
    ensures TableDescribes(w.store.codec, w.store.known, w.chunks, w.contents)
  {
    var n := |spec.partitions|;
    forall k | 0 <= k < n
      ensures PartitionMeans(spec, sources, k, w.streams[k], w.contents)
    {
      assert CapturedAt(spec, sources, w.streams, w.logs, 0, k);
      WrittenPartitionMeans(spec, sources, w, k);
    }
    WrittenHeadMeans(spec, sources, w);
    WrittenTailMeans(spec, sources, w);
    TableIsDescribed(w);
  }

  lemma TableIsDescribed(w: BackupWriter)
    requires w.Valid()
    ensures TableDescribes(w.store.codec, w.store.known, w.chunks, w.contents)
  {
    forall i | 0 <= i < |w.chunks|
      ensures EntryOk(w.store.codec, w.store.known, w.store.files, w.chunks[i], w.contents[i])
    {
    }
  }

  // ---- what a fallback leaves --------------------------------------------------------------

  /**
   Exactly the partitions whose used blocks were wanted and not to be had are marked as
   fallen back. Such a stream is never sparse and lists no used blocks, and it reads as
   its source from its first byte to its last.
   */
  lemma FallbackIsComplete(spec: CaptureSpec, sources: Sources, k: nat, s: Stream, log: seq<Piece>,
      chunks: seq<ChunkEntry>, contents: seq<Bytes>, chunkSize: u32)
    requires SourcesFit(spec, sources) && k < |spec.partitions| == |spec.disk.partitions|
    requires PartitionCaptured(spec, sources, k, s, log) && StreamOk(s, log, chunks, contents, chunkSize)
    ensures s.fellBack <==> spec.partitions[k].capture.VssUsedBlocks? && !sources.plans[k].PlanOf?
    ensures s.fellBack ==>
              && s.usedBlocks.None? && !s.capture.MayBeSparse() && Backed(s.segments, contents)
              && forall x :: 0 <= x < s.length ==>
                   SegmentByte(s.segments, contents, x) == PlaceByte(spec, sources, k, x)
  {
    assert s.fellBack == Header(s).fellBack && s.usedBlocks == Header(s).usedBlocks;
    assert s.capture == Header(s).capture;
    if s.fellBack {
      PartitionReadsAs(spec, sources, k, s, log, chunks, contents, chunkSize, 0);
      forall x | 0 <= x < s.length
        ensures SegmentByte(s.segments, contents, x) == PlaceByte(spec, sources, k, x)
      {
        FullPartitionReadsAsSource(spec, sources, k, s, log, chunks, contents, chunkSize, x);
      }
    }
  }

  // ---- reading it back -----------------------------------------------------------------------

  /** What the stream's description says about how it was captured. */
  lemma CaptureIsRecorded(spec: CaptureSpec, sources: Sources, k: nat, s: Stream, log: seq<Piece>)
    requires SourcesFit(spec, sources) && k < |spec.partitions| == |spec.disk.partitions|
    requires PartitionCaptured(spec, sources, k, s, log)
    ensures var wanted, plan := spec.partitions[k].capture, sources.plans[k];
            && s.capture == (if wanted == VssUsedBlocks && !plan.PlanOf? then VssRaw else wanted)
            && s.usedBlocks == (if wanted == VssUsedBlocks && plan.PlanOf? then
                                  Some(UsedBlockInfo(|plan.extents|)) else None)
  {
    assert s.capture == Header(s).capture && s.usedBlocks == Header(s).usedBlocks;
  }

  /** The manifest describes the disk: its streams, over the bytes its chunk table names, are the source. */
  ghost predicate BacksUp(spec: CaptureSpec, sources: Sources, codec: Codec, known: iset<Bytes>, m: Manifest)
    requires SourcesFit(spec, sources) && |spec.partitions| == |spec.disk.partitions|
  {
    exists contents :: TableDescribes(codec, known, m.chunks, contents) && HoldsDisk(spec, sources, m.streams, contents)
  }

  /** How long stream `j` of a captured disk is: the partitions, then the head and the tail. */
  function StreamLength(spec: CaptureSpec, j: nat): u64
    requires j < |spec.partitions| + 2 && |spec.partitions| == |spec.disk.partitions|
  {
    if j < |spec.partitions| then spec.disk.partitions[j].length
    else if j == |spec.partitions| then spec.headBytes else spec.tailBytes
  }

  /** The byte that stream `j` of a captured disk has to give back at `x`. */
  ghost function StreamByte(spec: CaptureSpec, sources: Sources, j: nat, x: int): Byte
    requires SourcesFit(spec, sources) && j < |spec.partitions| + 2 && |spec.partitions| == |spec.disk.partitions|
  {
    if j < |spec.partitions| then PartitionByte(spec, sources, j, x)
    else if j == |spec.partitions| then DiskByte(sources, x)
    else DiskByte(sources, spec.disk.sizeBytes - spec.tailBytes + x)
  }

  /** The buffer holds the bytes of stream `j` from `offset` on. */
  ghost predicate HoldsStream(spec: CaptureSpec, sources: Sources, j: nat, offset: u64, buffer: seq<Byte>)
    requires SourcesFit(spec, sources) && j < |spec.partitions| + 2 && |spec.partitions| == |spec.disk.partitions|
  {
    forall i :: 0 <= i < |buffer| ==> buffer[i] == StreamByte(spec, sources, j, offset + i)
  }

  /** The snapshots are the disk's own bytes. */
  ghost predicate SnapshotsAgree(spec: CaptureSpec, sources: Sources)
    requires |spec.partitions| == |spec.disk.partitions| == |sources.snapshots|
  {
    forall k, x :: 0 <= k < |spec.partitions| && sources.snapshots[k].Some? && 0 <= x < |sources.snapshots[k].value| ==>
      sources.snapshots[k].value[x] == DiskByte(sources, spec.disk.partitions[k].startingOffset + x)
  }

  /** From its place `at` on, the buffer holds the disk's bytes, but for zeros where the capture took nothing. */
  ghost predicate HoldsTheDisk(spec: CaptureSpec, sources: Sources, j: nat, at: int, offset: u64, buffer: seq<Byte>)
    requires |spec.partitions| == |sources.plans| && j < |spec.partitions| + 2
  {
    forall i :: 0 <= i < |buffer| ==>
      buffer[i] == if j < |spec.partitions| && !Taken(spec, sources, j, offset + i) then 0
                   else DiskByte(sources, at + offset + i)
  }

  /** Where the stream begins on the disk. */
  function StreamStart(spec: CaptureSpec, j: nat): int
    requires j < |spec.partitions| + 2 && |spec.partitions| == |spec.disk.partitions|
  {
    if j < |spec.partitions| then spec.disk.partitions[j].startingOffset
    else if j == |spec.partitions| then 0 else spec.disk.sizeBytes - spec.tailBytes
  }

  /** If the snapshots are the disk's own bytes, what a stream gives back is the disk. */
  lemma StreamIsTheDisk(spec: CaptureSpec, sources: Sources, j: nat, offset: u64, buffer: seq<Byte>)
    requires SourcesFit(spec, sources) && j < |spec.partitions| + 2 && |spec.partitions| == |spec.disk.partitions|
    requires HoldsStream(spec, sources, j, offset, buffer) && SnapshotsAgree(spec, sources)
    ensures HoldsTheDisk(spec, sources, j, StreamStart(spec, j), offset, buffer)
  {
  }

  lemma ReadHoldsStream(spec: CaptureSpec, sources: Sources, streams: seq<Stream>, contents: seq<Bytes>, j: nat,
      offset: u64, buffer: seq<Byte>)
    requires SourcesFit(spec, sources) && |spec.partitions| == |spec.disk.partitions|
    requires HoldsDisk(spec, sources, streams, contents)
    requires j < |streams| && Backed(streams[j].segments, contents) && offset + |buffer| <= streams[j].length
    requires ReadsAs(buffer, offset, streams[j].segments, contents)
    ensures HoldsStream(spec, sources, j, offset, buffer)
  {
    assert j < |spec.partitions| ==> PartitionMeans(spec, sources, j, streams[j], contents);
  }

  lemma HeldLength(spec: CaptureSpec, sources: Sources, streams: seq<Stream>, contents: seq<Bytes>, j: nat)
    requires SourcesFit(spec, sources) && |spec.partitions| == |spec.disk.partitions|
    requires HoldsDisk(spec, sources, streams, contents) && j < |streams|
    ensures |streams| == |spec.partitions| + 2 && streams[j].length == StreamLength(spec, j)
  {
    assert j < |spec.partitions| ==> PartitionMeans(spec, sources, j, streams[j], contents);
  }

  /** The reader is one for stream `j` of a verified manifest. */
  ghost predicate IsReaderOf(m: Manifest, layout: Option<DiskLayout>, j: nat, reader: StreamReader)
    reads reader.store
  {
    && reader.store.Valid() && j < |m.streams|
    && V.Verified(m, layout, reader.store.codec, reader.store.files, V.Full)
    && reader.segments == m.streams[j].segments && reader.length == m.streams[j].length
    && reader.chunks == m.chunks
    && TableDescribes(reader.store.codec, reader.store.known, m.chunks, reader.contents)
  }

  /**
   The streams of a verified manifest can be read from the store alone: under the name
   of each chunk is exactly what the table says, so only a file that cannot be read is
   missing.
   */
  lemma ManifestIsReadable(m: Manifest, layout: Option<DiskLayout>, j: nat, reader: StreamReader)
    requires IsReaderOf(m, layout, j, reader)
    ensures reader.Readable()
    ensures forall c: nat :: c < |m.chunks| ==>
              (reader.ChunkIsGone(c) <==>
                !V.Accessible(V.Full, reader.store.locked, reader.store.unreadable, m.chunks[c]))
  {
    assert M.StreamSound(m.streams[j], m.chunks);
    forall c: nat | c < |m.chunks|
      ensures reader.ChunkIsGone(c) <==>
                !V.Accessible(V.Full, reader.store.locked, reader.store.unreadable, m.chunks[c])
    {
      assert V.ChunkSound(V.Full, reader.store.codec, reader.store.files, m.chunks[c]);
    }
  }

  /** Some segment of the stream reaches into the range and its chunk cannot be read. */
  ghost predicate RangeUnreadable(m: Manifest, j: nat, offset: int, end: int, locked: bool, unreadable: set<Digest>)
    requires j < |m.streams|
  {
    exists k :: 0 <= k < |m.streams[j].segments| &&
      SegmentUnreadable(m, m.streams[j].segments[k], offset, end, locked, unreadable)
  }

  predicate SegmentUnreadable(m: Manifest, s: Segment, offset: int, end: int, locked: bool, unreadable: set<Digest>) {
    && s.offset < end && s.Limit() > offset
    && s.chunk < |m.chunks| && !V.Accessible(V.Full, locked, unreadable, m.chunks[s.chunk])
  }

  lemma DamagedIsUnreadable(m: Manifest, layout: Option<DiskLayout>, j: nat, reader: StreamReader, offset: int,
      end: int)
    requires IsReaderOf(m, layout, j, reader)
    ensures reader.RangeIsDamaged(offset, end) <==>
              RangeUnreadable(m, j, offset, end, reader.store.locked, reader.store.unreadable)
  {
    ManifestIsReadable(m, layout, j, reader);
    forall k | 0 <= k < |reader.segments|
      ensures reader.segments[k].offset < end && reader.segments[k].Limit() > offset &&
              reader.ChunkIsGone(reader.segments[k].chunk) <==>
              SegmentUnreadable(m, m.streams[j].segments[k], offset, end, reader.store.locked, reader.store.unreadable)
    {
    }
  }

  /** Reads part of the stream with a reader that has not been used yet. */
  method ReadFresh(ghost m: Manifest, ghost layout: Option<DiskLayout>, ghost j: nat, reader: StreamReader, offset: u64,
      buffer: array<Byte>)
    returns (r: Result<(), ReadError>)
    requires IsReaderOf(m, layout, j, reader) && offset + buffer.Length <= reader.length
    requires reader.Readable() ==> reader.Valid() && reader.CacheIsThere()
    modifies reader, buffer
    ensures Backed(reader.segments, reader.contents)
    ensures r.Success? ==> ReadsAs(buffer[..], offset, reader.segments, reader.contents)
    ensures r.Failure? <==>
              buffer.Length > 0 &&
              RangeUnreadable(m, j, offset, offset + buffer.Length, reader.store.locked, reader.store.unreadable)
  {
    ManifestIsReadable(m, layout, j, reader);
    DamagedIsUnreadable(m, layout, j, reader, offset, offset + buffer.Length);
    r := reader.ReadExactAt(offset, buffer);
  }

  /**
   Reads part of one stream, going by the manifest and the chunk files alone. Every
   byte is the captured disk's, and the read fails exactly if a chunk file of the range
   cannot be read.
   */
  method ReadStream(ghost spec: CaptureSpec, ghost sources: Sources, m: Manifest, ghost layout: Option<DiskLayout>,
      store: ChunkStore, j: nat, offset: u64, buffer: array<Byte>)
    returns (r: Result<(), ReadError>)
    requires SourcesFit(spec, sources) && |spec.partitions| == |spec.disk.partitions|
    requires store.Valid() && V.Verified(m, layout, store.codec, store.files, V.Full)
    requires BacksUp(spec, sources, store.codec, store.known, m)
    requires j < |m.streams| == |spec.partitions| + 2 && offset + buffer.Length <= m.streams[j].length
    modifies buffer
    ensures r.Success? ==> HoldsStream(spec, sources, j, offset, buffer[..])
    ensures r.Failure? <==>
              buffer.Length > 0 && RangeUnreadable(m, j, offset, offset + buffer.Length, store.locked, store.unreadable)
  {
    ghost var contents :| TableDescribes(store.codec, store.known, m.chunks, contents) &&
      HoldsDisk(spec, sources, m.streams, contents);
    var reader := new StreamReader(m.streams[j].segments, m.streams[j].length, m.chunks, store, contents);
    r := ReadFresh(m, layout, j, reader, offset, buffer);
    if r.Success? {
      ReadHoldsStream(spec, sources, m.streams, contents, j, offset, buffer[..]);
    }
  }
}
