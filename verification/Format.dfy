/**
 The documents of a backup as values: what was captured (manifest.json), the
 disks it came from (disk-layout.json) and the marker that makes it usable
 (completion.json), with the meaning of a stream as bytes.
 */
module Format {
  import opened Arith
  import opened Extents
  import opened Store

  const MIN_CHUNK_SIZE := 64 * 1024
  const MAX_CHUNK_SIZE := 64 * 1024 * 1024
  const DEFAULT_CHUNK_SIZE: u32 := 4 * 1024 * 1024

  datatype StreamKind = DiskHead | DiskTail | PartitionKind

  datatype CaptureMethod = VssUsedBlocks | VssRaw | RawFull | Preview {
    predicate MayBeSparse() {
      VssUsedBlocks? || Preview?
    }
  }

  datatype UsedBlockInfo = UsedBlockInfo(extentCount: nat)

  /** One piece of a stream, backed by exactly one chunk. */
  datatype Segment = Segment(offset: u64, length: u64, chunk: u32) {
    function Limit(): int {
      offset + length
    }

    predicate Has(x: int) {
      InRange(offset, length, x)
    }
  }

  datatype Stream = Stream(
    id: string, kind: StreamKind, diskId: string, partitionId: Option<string>,
    targetOffset: u64, length: u64, capture: CaptureMethod, segments: seq<Segment>,
    usedBlocks: Option<UsedBlockInfo>, fellBack: bool)

  /** Everything about a stream but what it carries. */
  function Header(s: Stream): Stream {
    s.(segments := [])
  }

  datatype ChunkEntry = ChunkEntry(hash: Digest, uncompressedSize: u32, compressedSize: u64)

  datatype Stats = Stats(
    capturedBytes: u64, storedBytes: u64, uniqueChunks: u64, totalSegments: u64, deduplicatedSegments: u64)

  /** The version block at the head of every document. */
  datatype FormatHeader = FormatHeader(
    magic: string, document: DocumentKind, major: u32, minor: u32, minReaderMinor: u32)

  datatype DocumentKind = ManifestKind | LayoutKind | CompletionKind

  datatype CompressionSpec = Zstd(level: int) | Uncompressed

  /** How the chunks are stored, and when. */
  datatype Parameters = Parameters(
    digestBytes: u32, compression: CompressionSpec, root: string, fanout: u32, createdUtc: string)

  /** A filesystem found inside a captured partition. */
  datatype VolumeEntry = VolumeEntry(
    id: string, partitionId: string, indexPath: Option<string>, totalBytes: Option<u64>, usedBytes: Option<u64>)

  datatype Manifest = Manifest(
    format: FormatHeader, parameters: Parameters, uuid: string, chunkSize: u32, volumes: seq<VolumeEntry>,
    streams: seq<Stream>, chunks: seq<ChunkEntry>,
    requiredRestoreBytes: u64, stats: Stats)

  datatype PartitionEntry = PartitionEntry(
    id: string, number: u32, typeGuid: string, uniqueGuid: string, startingOffset: u64, length: u64)

  datatype DiskEntry = DiskEntry(
    id: string, guid: string, sizeBytes: u64, logicalSectorSize: u32, physicalSectorSize: u32, isGpt: bool,
    partitions: seq<PartitionEntry>)

  datatype DiskLayout = DiskLayout(format: FormatHeader, backupUuid: string, disks: seq<DiskEntry>)

  datatype CompletionState = Complete | Failed

  datatype VerificationResult = Passed | NotPassed | NotPerformed

  datatype Verification = Verification(result: VerificationResult, chunksVerified: nat, bytesVerified: nat)

  /** The digest and size of one metadata document. */
  datatype DocumentDigest = DocumentDigest(path: string, hash: Digest, bytes: u64)

  datatype Completion = Completion(
    format: FormatHeader, backupUuid: string, state: CompletionState, completedUtc: string,
    verification: Verification, documents: seq<DocumentDigest>,
    requiredRestoreBytes: u64)

  // ---- versions ------------------------------------------------------------------

  const FORMAT_MAGIC := "MJOLNIRVSS"
  const FORMAT_MAJOR: u32 := 1
  const FORMAT_MINOR: u32 := 0

  function CurrentFormat(kind: DocumentKind): FormatHeader {
    FormatHeader(FORMAT_MAGIC, kind, FORMAT_MAJOR, FORMAT_MINOR, 0)
  }

  /** This build can read the document, as one of that kind. */
  predicate FormatOk(format: FormatHeader, kind: DocumentKind) {
    && format.magic == FORMAT_MAGIC && format.document == kind
    && format.major == FORMAT_MAJOR && format.minReaderMinor <= FORMAT_MINOR
  }

  /** One warning for a document of a newer version that may still be read. */
  function Warnings(format: FormatHeader): nat {
    if format.minReaderMinor <= FORMAT_MINOR < format.minor then 1 else 0
  }

  /** Errors in a version block, and warnings about it. */
  method CheckFormat(format: FormatHeader, kind: DocumentKind) returns (findings: nat, warnings: nat)
    ensures findings == 0 <==> FormatOk(format, kind)
    ensures warnings == Warnings(format) == if format.minReaderMinor == 0 && format.minor > 0 then 1 else 0
  {
    findings, warnings := 0, 0;
    if format.magic != FORMAT_MAGIC {
      findings := findings + 1;
    }
    if format.document != kind {
      findings := findings + 1;
    }
    if format.major != FORMAT_MAJOR {
      findings := findings + 1;
    }
    if format.minReaderMinor > FORMAT_MINOR {
      findings := findings + 1;
    } else if format.minor > FORMAT_MINOR {
      warnings := 1;
    }
  }

  /** The layout of some disks, as this build writes it. */
  function LayoutOf(uuid: string, disks: seq<DiskEntry>): DiskLayout {
    DiskLayout(CurrentFormat(LayoutKind), uuid, disks)
  }

  // ---- segments ----------------------------------------------------------------

  /**
   The segments of one stream fit it, come in order without overlapping, and each
   is exactly as long as the chunk behind it.
   */
  ghost predicate SegmentsOk(segs: seq<Segment>, limit: int, chunks: seq<ChunkEntry>) {
    && (forall i :: 0 <= i < |segs| ==> SegmentOk(segs[i], limit, chunks))
    && (forall i, j :: 0 <= i < j < |segs| ==> segs[i].Limit() <= segs[j].offset)
  }

  predicate SegmentOk(s: Segment, limit: int, chunks: seq<ChunkEntry>) {
    s.length > 0 && s.Limit() <= limit && s.chunk < |chunks| && chunks[s.chunk].uncompressedSize == s.length
  }

  function SegmentRange(s: Segment): ByteRange {
    ByteRange(s.offset, s.length)
  }

  function SegmentRanges(segs: seq<Segment>): (rs: seq<ByteRange>)
    ensures |rs| == |segs| && forall i :: 0 <= i < |segs| ==> rs[i] == SegmentRange(segs[i])
  {
    seq(|segs|, i requires 0 <= i < |segs| => SegmentRange(segs[i]))
  }

  ghost predicate Carried(segs: seq<Segment>, x: int) {
    exists i :: 0 <= i < |segs| && segs[i].Has(x)
  }

  lemma CarriedIsCovered(segs: seq<Segment>, x: int)
    ensures Carried(segs, x) <==> Covered(SegmentRanges(segs), x)
  {
  }

  function SumSegments(segs: seq<Segment>): nat {
    if segs == [] then 0 else SumSegments(segs[..|segs| - 1]) + segs[|segs| - 1].length
  }

  lemma {:induction false} SumSegmentsIsSumLengths(segs: seq<Segment>)
    ensures SumSegments(segs) == SumLengths(SegmentRanges(segs))
  {
    if segs != [] {
      SumSegmentsIsSumLengths(segs[..|segs| - 1]);
      assert SegmentRanges(segs)[..|segs| - 1] == SegmentRanges(segs[..|segs| - 1]);
    }
  }

  lemma {:induction false} SumSegmentsConcat(a: seq<Segment>, b: seq<Segment>)
    ensures SumSegments(a + b) == SumSegments(a) + SumSegments(b)
  {
    if b == [] {
      assert a + b == a;
    } else {
      SumSegmentsConcat(a, b[..|b| - 1]);
      assert (a + b)[..|a + b| - 1] == a + b[..|b| - 1];
    }
  }

  /** A stream whose segment lengths add up to its own length has a segment over every byte. */
  lemma CompleteSumCarriesEveryByte(segs: seq<Segment>, limit: u64, chunks: seq<ChunkEntry>)
    requires SegmentsOk(segs, limit, chunks)
    ensures SumSegments(segs) <= limit
    ensures SumSegments(segs) == limit <==> forall x :: 0 <= x < limit ==> Carried(segs, x)
  {
    var rs := SegmentRanges(segs);
    assert Ascending(rs) by {
      assert forall i :: 0 <= i < |segs| ==> rs[i].Limit() == segs[i].Limit();
    }
    SumSegmentsIsSumLengths(segs);
    FullSumLeavesNoGap(rs, limit);
    forall x
      ensures Carried(segs, x) <==> Covered(rs, x)
    {
      CarriedIsCovered(segs, x);
    }
  }

  // ---- the bytes a stream means --------------------------------------------------

  /** Every segment has a chunk of its own length behind it. */
  ghost predicate Backed(segs: seq<Segment>, contents: seq<Bytes>) {
    forall i :: 0 <= i < |segs| ==> segs[i].chunk < |contents| && |contents[segs[i].chunk]| == segs[i].length
  }

  /** The byte at `x`: from the segment covering it, and zero where there is none. */
  ghost function SegmentByte(segs: seq<Segment>, contents: seq<Bytes>, x: int): Byte
    requires Backed(segs, contents)
  {
    if segs == [] then 0
    else
      var last := segs[|segs| - 1];
      if last.Has(x) then contents[last.chunk][x - last.offset]
      else SegmentByte(segs[..|segs| - 1], contents, x)
  }

  /** Every chunk table entry describes the content it stands for. */
  ghost predicate TableDescribes(codec: Codec, known: iset<Bytes>, chunks: seq<ChunkEntry>, contents: seq<Bytes>) {
    && |chunks| == |contents|
    && forall i :: 0 <= i < |chunks| ==>
         && contents[i] in known
         && chunks[i].hash == codec.name(contents[i])
         && chunks[i].uncompressedSize == |contents[i]|
  }

  lemma {:induction false} UncarriedIsZero(segs: seq<Segment>, contents: seq<Bytes>, x: int)
    requires Backed(segs, contents)
    requires !Carried(segs, x)
    ensures SegmentByte(segs, contents, x) == 0
  {
    if segs != [] {
      var init := segs[..|segs| - 1];
      assert !segs[|segs| - 1].Has(x);
      assert forall i :: 0 <= i < |init| ==> init[i] == segs[i];
      UncarriedIsZero(init, contents, x);
    }
  }

  /** The bytes of a source in `[offset, offset + length)`. */
  function SourceSlice(src: int -> Byte, offset: int, length: nat): Bytes {
    seq(length, k => src(offset + k))
  }

  /** Every segment holds exactly what the source had there. */
  ghost predicate Carries(segs: seq<Segment>, contents: seq<Bytes>, src: int -> Byte) {
    forall i :: 0 <= i < |segs| ==>
      segs[i].chunk < |contents| && contents[segs[i].chunk] == SourceSlice(src, segs[i].offset, segs[i].length)
  }

  /** So the stream reads as the source where something was captured. */
  lemma {:induction false} CarriedIsSource(segs: seq<Segment>, contents: seq<Bytes>, src: int -> Byte, x: int)
    requires Carries(segs, contents, src) && Carried(segs, x)
    ensures SegmentByte(segs, contents, x) == src(x)
  {
    var init, last := segs[..|segs| - 1], segs[|segs| - 1];
    assert forall i :: 0 <= i < |init| ==> init[i] == segs[i];
    if last.Has(x) {
      assert contents[last.chunk][x - last.offset] == src(last.offset + (x - last.offset));
    } else {
      var i :| 0 <= i < |segs| && segs[i].Has(x);
      assert init[i].Has(x);
      CarriedIsSource(init, contents, src, x);
    }
  }

  // ---- what was written ------------------------------------------------------------

  /** One piece handed to a stream: where it goes and the bytes. */
  datatype Piece = Piece(offset: u64, data: Bytes)

  /** The segments record exactly the pieces written, in order. */
  ghost predicate Records(segs: seq<Segment>, log: seq<Piece>, contents: seq<Bytes>) {
    && |segs| == |log|
    && forall i :: 0 <= i < |segs| ==>
         && segs[i].offset == log[i].offset && segs[i].length == |log[i].data|
         && segs[i].chunk < |contents| && contents[segs[i].chunk] == log[i].data
  }

  /** The pieces of a source at the given ranges. */
  function PiecesOf(src: int -> Byte, rs: seq<ByteRange>): seq<Piece> {
    if rs == [] then []
    else
      var last := rs[|rs| - 1];
      PiecesOf(src, rs[..|rs| - 1]) + [Piece(last.offset, SourceSlice(src, last.offset, last.length))]
  }

  lemma PiecesOfSnoc(src: int -> Byte, rs: seq<ByteRange>, r: ByteRange)
    ensures PiecesOf(src, rs + [r]) == PiecesOf(src, rs) + [Piece(r.offset, SourceSlice(src, r.offset, r.length))]
  {
  }

  lemma {:induction false} PiecesOfAt(src: int -> Byte, rs: seq<ByteRange>)
    ensures |PiecesOf(src, rs)| == |rs|
    ensures forall i :: 0 <= i < |rs| ==>
              PiecesOf(src, rs)[i] == Piece(rs[i].offset, SourceSlice(src, rs[i].offset, rs[i].length))
  {
    if rs != [] {
      PiecesOfAt(src, rs[..|rs| - 1]);
    }
  }

  /** A stream that recorded a source's pieces at some ranges has its segments there, holding the source's bytes. */
  lemma RecordedPiecesCarry(segs: seq<Segment>, contents: seq<Bytes>, src: int -> Byte, rs: seq<ByteRange>)
    requires Records(segs, PiecesOf(src, rs), contents)
    ensures SegmentRanges(segs) == rs && Carries(segs, contents, src)
  {
    PiecesOfAt(src, rs);
  }

  // ---- all the segments of a manifest ----------------------------------------------

  function AllSegments(streams: seq<Stream>): seq<Segment> {
    if streams == [] then [] else AllSegments(streams[..|streams| - 1]) + streams[|streams| - 1].segments
  }

  function ChunksUsed(segs: seq<Segment>): set<int> {
    set s | s in segs :: s.chunk
  }

  function StoredSum(chunks: seq<ChunkEntry>): nat {
    if chunks == [] then 0 else StoredSum(chunks[..|chunks| - 1]) + chunks[|chunks| - 1].compressedSize
  }

  /** The totals a manifest has to record, unless one of them does not fit 64 bits. */
  function StatsOf(streams: seq<Stream>, chunks: seq<ChunkEntry>): Result<Stats, ArithError> {
    var all := AllSegments(streams);
    if SumSegments(all) > U64_MAX || StoredSum(chunks) > U64_MAX || |all| > U64_MAX || |chunks| > U64_MAX then
      Failure(Overflow)
    else
      UsedAtMostOnceEach(all);
      Success(Stats(SumSegments(all), StoredSum(chunks), |chunks|, |all|, |all| - |ChunksUsed(all)|))
  }

  lemma {:induction false} UsedAtMostOnceEach(segs: seq<Segment>)
    ensures |ChunksUsed(segs)| <= |segs|
  {
    if segs != [] {
      UsedAtMostOnceEach(segs[..|segs| - 1]);
      ChunksUsedSnoc(segs[..|segs| - 1], segs[|segs| - 1]);
      assert segs == segs[..|segs| - 1] + [segs[|segs| - 1]];
    } else {
      assert ChunksUsed(segs) == {};
    }
  }

  lemma ChunksUsedSnoc(segs: seq<Segment>, s: Segment)
    ensures ChunksUsed(segs + [s]) == ChunksUsed(segs) + {s.chunk}
  {
  }

  // ---- the smallest disk a backup fits ---------------------------------------------

  function HighestEnd(parts: seq<PartitionEntry>): nat {
    if parts == [] then 0
    else
      Max(HighestEnd(parts[..|parts| - 1]), parts[|parts| - 1].startingOffset + parts[|parts| - 1].length)
  }

  function GptReserve(disk: DiskEntry): Result<u64, ArithError> {
    var sector := Max(disk.logicalSectorSize, 512);
    RoundUp(16 * 1024 + sector, sector)
  }

  /** What `required_target_bytes` has to return. */
  function RequiredTarget(disk: DiskEntry): Result<u64, ArithError> {
    if HighestEnd(disk.partitions) > U64_MAX then Failure(Overflow)
    else
      var reserve :- GptReserve(disk);
      AddU64(HighestEnd(disk.partitions), reserve)
  }

  lemma {:induction false} HighestEndIsMax(parts: seq<PartitionEntry>)
    ensures forall i :: 0 <= i < |parts| ==> parts[i].startingOffset + parts[i].length <= HighestEnd(parts)
    ensures parts != [] ==>
              exists i :: 0 <= i < |parts| && parts[i].startingOffset + parts[i].length == HighestEnd(parts)
  {
    if parts != [] {
      var init, last := parts[..|parts| - 1], parts[|parts| - 1];
      HighestEndIsMax(init);
      if HighestEnd(parts) == last.startingOffset + last.length {
        assert parts[|parts| - 1] == last;
      } else if init != [] {
        var i :| 0 <= i < |init| && init[i].startingOffset + init[i].length == HighestEnd(init);
        assert parts[i] == init[i];
      }
    }
  }

  /**
   A disk of the required size holds every partition and leaves room behind the
   last one for a table header and 16 KiB of entries, in whole sectors.
   */
  lemma RequiredTargetHolds(disk: DiskEntry)
    requires RequiredTarget(disk).Success?
    ensures var required, sector := RequiredTarget(disk).value, Max(disk.logicalSectorSize, 512);
            && (forall i :: 0 <= i < |disk.partitions| ==>
                  disk.partitions[i].startingOffset + disk.partitions[i].length + 16 * 1024 + sector <= required)
            && (required - HighestEnd(disk.partitions)) % sector == 0
            && required - HighestEnd(disk.partitions) < 16 * 1024 + 2 * sector
  {
    HighestEndIsMax(disk.partitions);
  }

  /** The least multiple of `granule` that is at least `x`. */
  ghost predicate IsLeastMultiple(t: int, x: int, granule: int)
    requires granule > 0
  {
    x <= t < x + granule && t % granule == 0
  }

  /**
   There is such a size exactly when the last partition's end and the room behind it,
   16 KiB of entries and one sector in whole sectors, together fit 64 bits; and then
   it is their sum.
   */
  lemma RequiredTargetIff(disk: DiskEntry, room: int)
    requires IsLeastMultiple(room, 16 * 1024 + Max(disk.logicalSectorSize, 512), Max(disk.logicalSectorSize, 512))
    ensures RequiredTarget(disk).Success? <==> HighestEnd(disk.partitions) + room <= U64_MAX
    ensures RequiredTarget(disk).Success? ==> RequiredTarget(disk).value == HighestEnd(disk.partitions) + room
  {
    var sector := Max(disk.logicalSectorSize, 512);
    LeastMultipleFits(16 * 1024 + sector, sector, room);
  }

  lemma LeastMultipleFits(x: u64, granule: u64, t: int)
    requires granule > 0 && IsLeastMultiple(t, x, granule) && t <= U64_MAX
    ensures RoundUp(x, granule) == Success(t)
  {
    if NoMultipleAbove(x, granule) {
      assert false;
    }
    OneMultipleInReach(RoundUp(x, granule).value, t, x, granule);
  }

  /** A disk with the usual sectors, its partitions inside it and 32 KiB below the end of 64 bits has one. */
  lemma UsualDiskHasTarget(disk: DiskEntry)
    requires disk.logicalSectorSize == 512 || disk.logicalSectorSize == 4096
    requires forall i :: 0 <= i < |disk.partitions| ==>
               disk.partitions[i].startingOffset + disk.partitions[i].length <= disk.sizeBytes
    requires disk.sizeBytes + 32 * 1024 <= U64_MAX
    ensures RequiredTarget(disk) ==
            Success(HighestEnd(disk.partitions) + if disk.logicalSectorSize == 512 then 16896 else 20480)
  {
    HighestEndIsMax(disk.partitions);
    RequiredTargetIff(disk, if disk.logicalSectorSize == 512 then 16896 else 20480);
  }

  /** The running maximum over the partitions. */
  method RequiredTargetBytes(disk: DiskEntry) returns (r: Result<u64, ArithError>)
    ensures r == RequiredTarget(disk)
  {
    var highest: u64 := 0;
    var parts := disk.partitions;
    for k := 0 to |parts|
      invariant highest == HighestEnd(parts[..k])
    {
      assert parts[..k + 1][..k] == parts[..k];
      HighestEndIsMax(parts);
      var end := RangeEnd(parts[k].startingOffset, parts[k].length);
      if end.Failure? {
        return Failure(end.error);
      }
      highest := Max(highest, end.value);
    }
    assert parts[..|parts|] == parts;
    var reserve := GptReserve(disk);
    if reserve.Failure? {
      return Failure(reserve.error);
    }
    return AddU64(highest, reserve.value);
  }
}
