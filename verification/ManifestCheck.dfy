/**
 Checking a manifest on its own (crates/mjolnir-image/src/manifest.rs).

 Each check collects its findings in a list; what matters is that the list is
 empty exactly when the manifest is sound.
 */
module ManifestCheck {
  import opened Arith
  import opened Store
  import opened Format
  import opened Finalize
  import opened Shapes

  datatype Issue =
    | BadFormat(findings: nat)
    | BadChunkSize
    | ChunkSizeNotAligned
    | BadDigestLength
    | BadCompressionLevel
    | UnsafeRoot
    | FanoutTooLarge
    | NotAGuid
    | NoCreationTime
    | DuplicateVolume(id: string)
    | VolumeOnNoStream(id: string)
    | UnsafeIndexPath(id: string)
    | MoreUsedThanTotal(id: string)
    | TooManyChunks
    | EmptyChunk(index: nat)
    | OversizedChunk(index: nat)
    | NothingStored(index: nat)
    | DuplicateDigest(index: nat, first: nat)
    | DuplicateStream(id: string)
    | EmptyStream(id: string)
    | NoPartitionNamed(id: string)
    | PartitionNamed(id: string)
    | IncompleteStream(id: string)
    | EmptySegment(index: nat)
    | SegmentOverflows(index: nat)
    | SegmentPastEnd(index: nat)
    | SegmentOutOfOrder(index: nat)
    | NoSuchChunk(index: nat)
    | ChunkSizeDiffers(index: nat)
    | StatsUncountable
    | StatsDiffer

  // ---- parameters -----------------------------------------------------------------------

  predicate ParametersOk(m: Manifest) {
    && MIN_CHUNK_SIZE <= m.chunkSize <= MAX_CHUNK_SIZE && m.chunkSize % 4096 == 0
    && m.parameters.digestBytes == DIGEST_BYTES
    && (m.parameters.compression.Zstd? ==> -7 <= m.parameters.compression.level <= 22)
    && IsSafeComponent(m.parameters.root) && m.parameters.fanout <= 4
    && IsGuid(m.uuid) && m.parameters.createdUtc != ""
  }

  method ValidateParameters(m: Manifest) returns (issues: seq<Issue>)
    ensures issues == [] <==> ParametersOk(m)
  {
    issues := [];
    if !(MIN_CHUNK_SIZE <= m.chunkSize <= MAX_CHUNK_SIZE) {
      issues := issues + [BadChunkSize];
    }
    if m.chunkSize % 4096 != 0 {
      issues := issues + [ChunkSizeNotAligned];
    }
    if m.parameters.digestBytes != DIGEST_BYTES {
      issues := issues + [BadDigestLength];
    }
    if m.parameters.compression.Zstd? && !(-7 <= m.parameters.compression.level <= 22) {
      issues := issues + [BadCompressionLevel];
    }
    if !IsSafeComponent(m.parameters.root) {
      issues := issues + [UnsafeRoot];
    }
    if m.parameters.fanout > 4 {
      issues := issues + [FanoutTooLarge];
    }
    var guid := LooksLikeGuid(m.uuid);
    if !guid {
      issues := issues + [NotAGuid];
    }
    if m.parameters.createdUtc == "" {
      issues := issues + [NoCreationTime];
    }
  }

  // ---- the chunk table ---------------------------------------------------------------------

  predicate ChunkOk(c: ChunkEntry, chunkSize: u32) {
    0 < c.uncompressedSize <= chunkSize && c.compressedSize > 0
  }

  /** Every entry is sound and no digest is listed twice. */
  ghost predicate ChunksOk(chunks: seq<ChunkEntry>, chunkSize: u32) {
    && (forall i :: 0 <= i < |chunks| ==> ChunkOk(chunks[i], chunkSize))
    && (forall i, j :: 0 <= i < j < |chunks| ==> chunks[i].hash != chunks[j].hash)
  }

  ghost predicate ChunkTableOk(m: Manifest) {
    |m.chunks| <= U32_MAX && ChunksOk(m.chunks, m.chunkSize)
  }

  /** `seen` maps every digest met so far to a place where it was met. */
  ghost predicate SeenSoFar(seen: map<Digest, nat>, chunks: seq<ChunkEntry>, k: nat)
    requires k <= |chunks|
  {
    && (forall h :: h in seen ==> seen[h] < k && chunks[seen[h]].hash == h)
    && (forall i :: 0 <= i < k ==> chunks[i].hash in seen)
  }

  method ValidateChunk(chunks: seq<ChunkEntry>, chunkSize: u32, k: nat, seen: map<Digest, nat>)
    returns (issues: seq<Issue>)
    requires k < |chunks| && SeenSoFar(seen, chunks, k)
    ensures issues == [] <==>
            ChunkOk(chunks[k], chunkSize) && forall i :: 0 <= i < k ==> chunks[i].hash != chunks[k].hash
  {
    var chunk := chunks[k];
    issues := [];
    if chunk.uncompressedSize == 0 {
      issues := issues + [Issue.EmptyChunk(k)];
    }
    if chunk.uncompressedSize > chunkSize {
      issues := issues + [OversizedChunk(k)];
    }
    if chunk.compressedSize == 0 {
      issues := issues + [NothingStored(k)];
    }
    if chunk.hash in seen {
      issues := issues + [DuplicateDigest(k, seen[chunk.hash])];
    }
  }

  method ValidateChunkTable(m: Manifest) returns (issues: seq<Issue>)
    ensures issues == [] <==> ChunkTableOk(m)
  {
    issues := [];
    var chunks := m.chunks;
    if |chunks| > U32_MAX {
      issues := issues + [TooManyChunks];
    }
    var seen: map<Digest, nat> := map[];
    for k := 0 to |chunks|
      invariant SeenSoFar(seen, chunks, k)
      invariant issues == [] <==> |chunks| <= U32_MAX && ChunksOk(chunks[..k], m.chunkSize)
    {
      var found := ValidateChunk(chunks, m.chunkSize, k, seen);
      assert chunks[..k + 1] == chunks[..k] + [chunks[k]];
      ChunksOkSnoc(chunks[..k], chunks[k], m.chunkSize);
      assert forall i :: 0 <= i < k ==> chunks[..k][i] == chunks[i];
      issues := issues + found;
      seen := seen[chunks[k].hash := k];
    }
    assert chunks[..|chunks|] == chunks;
  }

  lemma ChunksOkSnoc(chunks: seq<ChunkEntry>, c: ChunkEntry, chunkSize: u32)
    ensures ChunksOk(chunks + [c], chunkSize) <==>
            && ChunksOk(chunks, chunkSize) && ChunkOk(c, chunkSize)
            && forall i :: 0 <= i < |chunks| ==> chunks[i].hash != c.hash
  {
    var more := chunks + [c];
    assert forall i :: 0 <= i < |chunks| ==> more[i] == chunks[i];
    assert more[|chunks|] == c;
  }

  // ---- the segments of a stream ------------------------------------------------------------

  predicate Follows(previousEnd: Option<int>, s: Segment) {
    previousEnd.None? || previousEnd.value <= s.offset
  }

  /** Where the last of the segments ends. */
  function EndOf(segs: seq<Segment>): Option<int> {
    if segs == [] then None else Some(segs[|segs| - 1].Limit())
  }

  /** With no segment empty, following the last one is following them all. */
  lemma SegmentsOkSnoc(segs: seq<Segment>, s: Segment, limit: int, chunks: seq<ChunkEntry>)
    ensures SegmentsOk(segs + [s], limit, chunks) <==>
            SegmentsOk(segs, limit, chunks) && SegmentOk(s, limit, chunks) && Follows(EndOf(segs), s)
  {
    var more := segs + [s];
    assert forall i :: 0 <= i < |segs| ==> more[i] == segs[i];
    assert more[|segs|] == s;
    if SegmentsOk(more, limit, chunks) {
      assert SegmentOk(more[|segs|], limit, chunks);
    }
    if SegmentsOk(segs, limit, chunks) && SegmentOk(s, limit, chunks) && Follows(EndOf(segs), s) {
      forall i | 0 <= i < |segs|
        ensures segs[i].Limit() <= s.offset
      {
        assert i < |segs| - 1 ==> segs[i].Limit() <= segs[|segs| - 1].offset;
      }
    }
  }

  /** One segment: its findings, and where the next one may start. */
  method ValidateSegment(s: Segment, k: nat, limit: u64, chunks: seq<ChunkEntry>, previousEnd: Option<int>)
    returns (issues: seq<Issue>, next: Option<int>)
    ensures issues == [] <==> SegmentOk(s, limit, chunks) && Follows(previousEnd, s)
    ensures issues == [] ==> next == Some(s.Limit())
  {
    issues := [];
    if s.length == 0 {
      return [EmptySegment(k)], previousEnd;
    }
    var end := RangeEnd(s.offset, s.length);
    if end.Failure? {
      return [SegmentOverflows(k)], previousEnd;
    }
    if end.value > limit {
      issues := issues + [SegmentPastEnd(k)];
    }
    if previousEnd.Some? && s.offset < previousEnd.value {
      issues := issues + [SegmentOutOfOrder(k)];
    }
    next := Some(end.value);
    if s.chunk >= |chunks| {
      issues := issues + [NoSuchChunk(k)];
    } else if chunks[s.chunk].uncompressedSize != s.length {
      issues := issues + [ChunkSizeDiffers(k)];
    }
  }

  /** Comparing each segment with the one before finds every overlap there is. */
  method ValidateSegments(s: Stream, chunks: seq<ChunkEntry>) returns (issues: seq<Issue>)
    ensures issues == [] <==> SegmentsOk(s.segments, s.length, chunks)
  {
    issues := [];
    var previousEnd: Option<int> := None;
    var segs := s.segments;
    for k := 0 to |segs|
      invariant issues == [] <==> SegmentsOk(segs[..k], s.length, chunks)
      invariant issues == [] ==> previousEnd == EndOf(segs[..k])
    {
      var found, next := ValidateSegment(segs[k], k, s.length, chunks, previousEnd);
      assert segs[..k + 1] == segs[..k] + [segs[k]];
      SegmentsOkSnoc(segs[..k], segs[k], s.length, chunks);
      issues := issues + found;
      previousEnd := next;
    }
    assert segs[..|segs|] == segs;
  }

  // ---- the streams ---------------------------------------------------------------------------

  method CapturedBytes(s: Stream) returns (r: Result<u64, ArithError>)
    ensures r == if SumSegments(s.segments) <= U64_MAX then Success(SumSegments(s.segments)) else Failure(Overflow)
  {
    var total: u64 := 0;
    var segs := s.segments;
    for k := 0 to |segs|
      invariant total == SumSegments(segs[..k])
    {
      assert segs[..k + 1][..k] == segs[..k];
      SumSegmentsPrefix(segs[..k + 1], segs);
      var sum := AddU64(total, segs[k].length);
      if sum.Failure? {
        return Failure(sum.error);
      }
      total := sum.value;
    }
    assert segs[..|segs|] == segs;
    return Success(total);
  }

  /** A stream is sound against a chunk table: a partition stream names a partition, others do not. */
  ghost predicate StreamSound(s: Stream, chunks: seq<ChunkEntry>) {
    && s.length > 0
    && (s.kind.PartitionKind? <==> s.partitionId.Some?)
    && (s.capture.MayBeSparse() || SumSegments(s.segments) == s.length)
    && SegmentsOk(s.segments, s.length, chunks)
  }

  ghost predicate StreamsSound(streams: seq<Stream>, chunks: seq<ChunkEntry>) {
    && (forall i :: 0 <= i < |streams| ==> StreamSound(streams[i], chunks))
    && (forall i, j :: 0 <= i < j < |streams| ==> streams[i].id != streams[j].id)
  }

  lemma StreamsSoundSnoc(streams: seq<Stream>, s: Stream, chunks: seq<ChunkEntry>)
    ensures StreamsSound(streams + [s], chunks) <==>
            && StreamsSound(streams, chunks) && StreamSound(s, chunks)
            && forall i :: 0 <= i < |streams| ==> streams[i].id != s.id
  {
    var more := streams + [s];
    assert forall i :: 0 <= i < |streams| ==> more[i] == streams[i];
    assert more[|streams|] == s;
  }

  method ValidateStream(s: Stream, chunks: seq<ChunkEntry>) returns (issues: seq<Issue>)
    ensures issues == [] <==> StreamSound(s, chunks)
  {
    issues := [];
    if s.length == 0 {
      issues := issues + [EmptyStream(s.id)];
    }
    if s.kind.PartitionKind? && s.partitionId.None? {
      issues := issues + [NoPartitionNamed(s.id)];
    } else if !s.kind.PartitionKind? && s.partitionId.Some? {
      issues := issues + [PartitionNamed(s.id)];
    }
    if !s.capture.MayBeSparse() {
      var captured := CapturedBytes(s);
      if captured.Failure? || captured.value != s.length {
        issues := issues + [IncompleteStream(s.id)];
      }
    }
    var found := ValidateSegments(s, chunks);
    issues := issues + found;
  }

  method ValidateStreams(m: Manifest) returns (issues: seq<Issue>)
    ensures issues == [] <==> StreamsSound(m.streams, m.chunks)
  {
    issues := [];
    var ids: set<string> := {};
    var streams := m.streams;
    for k := 0 to |streams|
      invariant forall id :: id in ids <==> exists i :: 0 <= i < k && streams[i].id == id
      invariant issues == [] <==> StreamsSound(streams[..k], m.chunks)
    {
      if streams[k].id in ids {
        issues := issues + [DuplicateStream(streams[k].id)];
      }
      var found := ValidateStream(streams[k], m.chunks);
      assert streams[..k + 1] == streams[..k] + [streams[k]];
      StreamsSoundSnoc(streams[..k], streams[k], m.chunks);
      assert forall i :: 0 <= i < k ==> streams[..k][i] == streams[i];
      issues := issues + found;
      ids := ids + {streams[k].id};
    }
    assert streams[..|streams|] == streams;
  }

  // ---- the volumes -------------------------------------------------------------------------------

  predicate CarriesPartition(s: Stream, partitionId: string) {
    s.kind.PartitionKind? && s.partitionId == Some(partitionId)
  }

  /** A volume sits on a partition that a stream carries, and its figures and its index path make sense. */
  ghost predicate VolumeOk(v: VolumeEntry, streams: seq<Stream>) {
    && (exists i :: 0 <= i < |streams| && CarriesPartition(streams[i], v.partitionId))
    && (v.indexPath.Some? ==> IsSafeRelativePath(v.indexPath.value))
    && (v.totalBytes.Some? && v.usedBytes.Some? ==> v.usedBytes.value <= v.totalBytes.value)
  }

  ghost predicate VolumesOk(volumes: seq<VolumeEntry>, streams: seq<Stream>) {
    && (forall i :: 0 <= i < |volumes| ==> VolumeOk(volumes[i], streams))
    && (forall i, j :: 0 <= i < j < |volumes| ==> volumes[i].id != volumes[j].id)
  }

  lemma VolumesOkSnoc(volumes: seq<VolumeEntry>, v: VolumeEntry, streams: seq<Stream>)
    ensures VolumesOk(volumes + [v], streams) <==>
            && VolumesOk(volumes, streams) && VolumeOk(v, streams)
            && forall i :: 0 <= i < |volumes| ==> volumes[i].id != v.id
  {
    var more := volumes + [v];
    assert forall i :: 0 <= i < |volumes| ==> more[i] == volumes[i];
    assert more[|volumes|] == v;
  }

  /** Looks at one volume on its own. */
  method ValidateVolume(v: VolumeEntry, streams: seq<Stream>) returns (issues: seq<Issue>)
    ensures issues == [] <==> VolumeOk(v, streams)
  {
    issues := [];
    if !exists i :: 0 <= i < |streams| && CarriesPartition(streams[i], v.partitionId) {
      issues := issues + [VolumeOnNoStream(v.id)];
    }
    if v.indexPath.Some? && !IsSafeRelativePath(v.indexPath.value) {
      issues := issues + [UnsafeIndexPath(v.id)];
    }
    if v.totalBytes.Some? && v.usedBytes.Some? && v.usedBytes.value > v.totalBytes.value {
      issues := issues + [MoreUsedThanTotal(v.id)];
    }
  }

  method ValidateVolumes(volumes: seq<VolumeEntry>, streams: seq<Stream>) returns (issues: seq<Issue>)
    ensures issues == [] <==> VolumesOk(volumes, streams)
  {
    issues := [];
    var ids: set<string> := {};
    for k := 0 to |volumes|
      invariant issues == [] <==> VolumesOk(volumes[..k], streams)
      invariant forall id :: id in ids <==> exists i :: 0 <= i < k && volumes[i].id == id
    {
      VolumesOkSnoc(volumes[..k], volumes[k], streams);
      assert volumes[..k + 1] == volumes[..k] + [volumes[k]];
      if volumes[k].id in ids {
        issues := issues + [DuplicateVolume(volumes[k].id)];
      }
      var found := ValidateVolume(volumes[k], streams);
      issues := issues + found;
      ids := ids + {volumes[k].id};
    }
    assert volumes[..|volumes|] == volumes;
  }

  // ---- the whole manifest ------------------------------------------------------------------------

  ghost predicate StatsOk(m: Manifest) {
    StatsOf(m.streams, m.chunks) == Success(m.stats)
  }

  method ValidateStats(m: Manifest) returns (issues: seq<Issue>)
    ensures issues == [] <==> StatsOk(m)
  {
    var expected := RecomputeStats(m.streams, m.chunks);
    if expected.Failure? {
      return [StatsUncountable];
    }
    if expected.value != m.stats {
      return [StatsDiffer];
    }
    return [];
  }

  ghost predicate ManifestOk(m: Manifest) {
    && FormatOk(m.format, ManifestKind) && ParametersOk(m) && ChunkTableOk(m)
    && StreamsSound(m.streams, m.chunks) && VolumesOk(m.volumes, m.streams) && StatsOk(m)
  }

  /** No error is reported exactly when the manifest is sound throughout. */
  method ValidateManifest(m: Manifest) returns (issues: seq<Issue>, warnings: nat)
    ensures issues == [] <==> ManifestOk(m)
    ensures warnings == Warnings(m.format)
  {
    var format;
    format, warnings := CheckFormat(m.format, ManifestKind);
    issues := if format > 0 then [BadFormat(format)] else [];
    var parameters := ValidateParameters(m);
    var table := ValidateChunkTable(m);
    var streams := ValidateStreams(m);
    var volumes := ValidateVolumes(m.volumes, m.streams);
    var stats := ValidateStats(m);
    issues := issues + parameters + table + streams + volumes + stats;
  }
}
