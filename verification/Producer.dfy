/**
 What a capture writes passes the checks made on it.
 */
module Producer {
  import opened Arith
  import opened Extents
  import opened Overlaps
  import opened Pieces
  import opened Store
  import opened Format
  import opened Shapes
  import opened Writer
  import opened Capture
  import opened CaptureDisk
  import opened LayoutCheck
  import opened CrossCheck
  import opened Finalize
  import opened Acceptance
  import M = ManifestCheck
  import V = Verify

  // ---- the chunk table --------------------------------------------------------------------

  /** Every chunk is used by some segment, so none is larger than a segment may be. */
  lemma UsedChunksAreSound(w: BackupWriter, i: nat)
    requires w.Valid() && w.NoneUnused([]) && i < |w.chunks|
    ensures M.ChunkOk(w.chunks[i], w.chunkSize)
  {
    var all := AllSegments(w.streams);
    assert all + [] == all;
    assert EntryOk(w.store.codec, w.store.known, w.store.files, w.chunks[i], w.contents[i]);
    assert i in Span(0, |w.chunks|);
    var s :| s in all && s.chunk == i;
    var j := SegmentOfStream(w.streams, s);
    assert StreamOk(w.streams[j], w.logs[j], w.chunks, w.contents, w.chunkSize);
    var x :| 0 <= x < |w.streams[j].segments| && w.streams[j].segments[x] == s;
    assert SegmentOk(s, w.streams[j].length, w.chunks);
  }

  lemma {:induction false} SegmentOfStream(streams: seq<Stream>, s: Segment) returns (j: nat)
    requires s in AllSegments(streams)
    ensures j < |streams| && s in streams[j].segments
  {
    if s in streams[|streams| - 1].segments {
      j := |streams| - 1;
    } else {
      j := SegmentOfStream(streams[..|streams| - 1], s);
    }
  }

  lemma WrittenTableIsSound(w: BackupWriter)
    requires w.Valid() && w.NoneUnused([])
    ensures M.ChunksOk(w.chunks, w.chunkSize)
  {
    forall i | 0 <= i < |w.chunks|
      ensures M.ChunkOk(w.chunks[i], w.chunkSize)
    {
      UsedChunksAreSound(w, i);
    }
  }

  // ---- the streams --------------------------------------------------------------------------

  /** The plan calls the disk and its partitions by the names the disk is recorded under. */
  predicate NamesDisk(spec: CaptureSpec) {
    && |spec.partitions| == |spec.disk.partitions| && spec.diskId == spec.disk.id
    && forall k :: 0 <= k < |spec.partitions| ==> spec.partitions[k].partitionId == spec.disk.partitions[k].id
  }

  /** The plan fits the disk: matching ids, distinct stream ids, partitions between head and tail. */
  ghost predicate WellPlanned(spec: CaptureSpec) {
    && NamesDisk(spec)
    && IdsDistinct(PlannedIds(spec))
    && spec.headBytes > 0 && spec.tailBytes > 0 && spec.headBytes + spec.tailBytes <= spec.disk.sizeBytes
    && forall p :: p in spec.disk.partitions ==> Between(spec, p)
  }

  predicate Between(spec: CaptureSpec, p: PartitionEntry) {
    spec.headBytes <= p.startingOffset && p.startingOffset + p.length + spec.tailBytes <= spec.disk.sizeBytes
  }

  /** The ids of the streams a capture makes, in the order it makes them. */
  function PlannedIds(spec: CaptureSpec): (ids: seq<string>)
    ensures |ids| == |spec.partitions| + 2
    ensures forall k :: 0 <= k < |spec.partitions| ==> ids[k] == spec.partitions[k].streamId
    ensures ids[|spec.partitions|] == HeadStreamId(spec) && ids[|spec.partitions| + 1] == TailStreamId(spec)
  {
    seq(|spec.partitions|, k requires 0 <= k < |spec.partitions| => spec.partitions[k].streamId) +
    [HeadStreamId(spec), TailStreamId(spec)]
  }

  /** What a stream's description says, apart from how it was captured. */
  predicate DescribedAs(s: Stream, id: string, kind: StreamKind, diskId: string, partitionId: Option<string>,
      offset: int, length: int) {
    && s.id == id && s.kind == kind && s.diskId == diskId && s.partitionId == partitionId
    && s.targetOffset == offset && s.length == length
  }

  ghost predicate PartitionDescribed(spec: CaptureSpec, s: Stream, k: nat)
    requires k < |spec.partitions| == |spec.disk.partitions|
  {
    DescribedAs(s, spec.partitions[k].streamId, PartitionKind, spec.diskId, Some(spec.partitions[k].partitionId),
                spec.disk.partitions[k].startingOffset, spec.disk.partitions[k].length)
  }

  /** The streams of a captured disk, by their descriptions. */
  ghost predicate Described(spec: CaptureSpec, streams: seq<Stream>)
    requires |spec.partitions| == |spec.disk.partitions|
  {
    var n := |spec.partitions|;
    && |streams| == n + 2
    && (forall k :: 0 <= k < n ==> PartitionDescribed(spec, streams[k], k))
    && DescribedAs(streams[n], HeadStreamId(spec), DiskHead, spec.diskId, None, 0, spec.headBytes)
    && DescribedAs(streams[n + 1], TailStreamId(spec), DiskTail, spec.diskId, None,
        spec.disk.sizeBytes - spec.tailBytes, spec.tailBytes)
  }

  /** In plain fields: a stream a partition under the id planned for it, then the two ends of the disk. */
  lemma DescriptionsAre(spec: CaptureSpec, streams: seq<Stream>, j: nat)
    requires |spec.partitions| == |spec.disk.partitions| && Described(spec, streams) && j < |streams|
    ensures |streams| == |spec.partitions| + 2 && streams[j].diskId == spec.diskId
    ensures var s, n := streams[j], |spec.partitions|;
            && (j < n ==>
                  && s.id == spec.partitions[j].streamId && s.kind == PartitionKind
                  && s.partitionId == Some(spec.partitions[j].partitionId)
                  && s.targetOffset == spec.disk.partitions[j].startingOffset
                  && s.length == spec.disk.partitions[j].length)
            && (j == n ==>
                  && s.id == spec.diskId + "-head" && s.kind == DiskHead && s.partitionId == None
                  && s.targetOffset == 0 && s.length == spec.headBytes)
            && (j == n + 1 ==>
                  && s.id == spec.diskId + "-tail" && s.kind == DiskTail && s.partitionId == None
                  && s.targetOffset + s.length == spec.disk.sizeBytes && s.length == spec.tailBytes)
  {
    if j < |spec.partitions| {
      assert PartitionDescribed(spec, streams[j], j);
    }
  }

  lemma CapturedIsDescribed(spec: CaptureSpec, sources: Sources, streams: seq<Stream>, logs: seq<seq<Piece>>)
    requires SourcesFit(spec, sources) && |spec.partitions| == |spec.disk.partitions|
    requires DiskCaptured(spec, sources, streams, logs, 0)
    ensures Described(spec, streams)
  {
    forall k | 0 <= k < |spec.partitions|
      ensures PartitionDescribed(spec, streams[k], k)
    {
      assert CapturedAt(spec, sources, streams, logs, 0, k);
    }
  }

  ghost predicate StreamIdsDiffer(streams: seq<Stream>) {
    forall a, b :: 0 <= a < b < |streams| ==> streams[a].id != streams[b].id
  }

  lemma DescribedIds(spec: CaptureSpec, streams: seq<Stream>)
    requires WellPlanned(spec) && Described(spec, streams)
    ensures StreamIdsDiffer(streams)
  {
  }

  lemma WrittenStreamIsSound(spec: CaptureSpec, w: BackupWriter, j: nat)
    requires w.Valid() && WellPlanned(spec) && DiskOk(spec.disk) && Described(spec, w.streams) && j < |w.streams|
    ensures M.StreamSound(w.streams[j], w.chunks)
  {
  }

  /**
   The manifest of a captured disk is sound, except that a table of 2^32 chunks, still
   within the bound of the writer, is one more than the check allows.
   */
  lemma WrittenManifestIsSoundIff(spec: CaptureSpec, w: BackupWriter, m: Manifest)
    requires w.Valid() && w.NoneUnused([]) && IsManifestOf(m, w)
    requires M.ParametersOk(m) && M.VolumesOk(m.volumes, m.streams)
    requires WellPlanned(spec) && DiskOk(spec.disk) && Described(spec, w.streams)
    ensures M.ManifestOk(m) <==> |w.chunks| <= U32_MAX
  {
    WrittenTableIsSound(w);
    DescribedIds(spec, w.streams);
    forall j | 0 <= j < |w.streams|
      ensures M.StreamSound(w.streams[j], w.chunks)
    {
      WrittenStreamIsSound(spec, w, j);
    }
  }

  // ---- the documents together ----------------------------------------------------------------

  lemma FoundDisk(disk: DiskEntry)
    ensures FindDisk([disk], disk.id) == Some(disk)
  {
  }

  lemma PartitionIdsDiffer(parts: seq<PartitionEntry>)
    requires IdsDistinct(PartitionIds(parts))
    ensures forall a, b :: 0 <= a < b < |parts| ==> parts[a].id != parts[b].id
  {
  }

  /** The stream of partition `k` is the only one naming it. */
  lemma PartitionListed(spec: CaptureSpec, streams: seq<Stream>, k: nat)
    requires NamesDisk(spec) && Described(spec, streams) && IdsDistinct(PartitionIds(spec.disk.partitions))
    requires k < |spec.partitions|
    ensures CarrierIds(streams, [spec.disk], spec.disk.partitions[k].id) == [streams[k].id]
  {
    FoundDisk(spec.disk);
    PartitionIdsDiffer(spec.disk.partitions);
    forall i | 0 <= i < |streams|
      ensures NamesPartition(streams[i], [spec.disk], spec.disk.partitions[k].id) <==> i == k
    {
      assert i < |spec.partitions| ==> PartitionDescribed(spec, streams[i], i);
    }
    OnlyOneCarrier(streams, [spec.disk], spec.disk.partitions[k].id, k);
  }

  lemma PartitionIsCarried(spec: CaptureSpec, streams: seq<Stream>, k: nat)
    requires NamesDisk(spec) && Described(spec, streams) && IdsDistinct(PartitionIds(spec.disk.partitions))
    requires StreamIdsDiffer(streams) && k < |spec.partitions|
    ensures PartitionCarried(streams, [spec.disk], spec.disk, spec.disk.partitions[k])
  {
    PartitionListed(spec, streams, k);
    FindStreamAt(streams, k);
    assert PartitionDescribed(spec, streams[k], k);
  }

  lemma TableIsListed(spec: CaptureSpec, streams: seq<Stream>)
    requires NamesDisk(spec) && Described(spec, streams)
    ensures TableStreamsOk(streams, spec.disk)
  {
    var n := |spec.partitions|;
    forall i | 0 <= i < |streams|
      ensures streams[i].diskId == spec.disk.id
      ensures streams[i].kind == DiskHead <==> i == n
      ensures streams[i].kind == DiskTail <==> i == n + 1
    {
      assert i < n ==> PartitionDescribed(spec, streams[i], i);
    }
    OnlyOneListed(streams, spec.disk.id, DiskHead, n);
    OnlyOneListed(streams, spec.disk.id, DiskTail, n + 1);
  }

  lemma RequiredCoversDisk(disk: DiskEntry, required: u64)
    requires RequiredRestore([disk]) == Success(required)
    ensures TargetCovered(disk, required)
  {
  }

  lemma StreamIsPlaced(spec: CaptureSpec, streams: seq<Stream>, j: nat)
    requires NamesDisk(spec) && DiskOk(spec.disk) && spec.headBytes <= spec.disk.sizeBytes
    requires Described(spec, streams) && j < |streams|
    ensures PlacedInside(streams[j], [spec.disk])
  {
    FoundDisk(spec.disk);
    if j < |spec.partitions| {
      assert PartitionDescribed(spec, streams[j], j);
      assert PartitionOk(spec.disk.partitions[j], spec.disk);
    }
  }

  lemma StreamIsReferenced(spec: CaptureSpec, streams: seq<Stream>, j: nat)
    requires NamesDisk(spec) && Described(spec, streams) && IdsDistinct(PartitionIds(spec.disk.partitions))
    requires j < |streams|
    ensures Referenced(streams, [spec.disk], streams[j].id)
  {
    if j < |spec.partitions| {
      PartitionListed(spec, streams, j);
      assert streams[j].id in CarrierIds(streams, [spec.disk], spec.disk.partitions[j].id);
    } else {
      assert streams[j] in streams && IsTableStream(streams[j], spec.disk);
    }
    assert Uses(streams, [spec.disk], [spec.disk][0], streams[j].id);
  }

  lemma WrittenDiskIsConsistent(spec: CaptureSpec, m: Manifest)
    requires NamesDisk(spec) && Described(spec, m.streams) && IdsDistinct(PartitionIds(spec.disk.partitions))
    requires StreamIdsDiffer(m.streams) && RequiredRestore([spec.disk]) == Success(m.requiredRestoreBytes)
    ensures DiskConsistent(m, [spec.disk], spec.disk)
  {
    TableIsListed(spec, m.streams);
    RequiredCoversDisk(spec.disk, m.requiredRestoreBytes);
    forall k | 0 <= k < |spec.disk.partitions|
      ensures PartitionCarried(m.streams, [spec.disk], spec.disk, spec.disk.partitions[k])
    {
      PartitionIsCarried(spec, m.streams, k);
    }
  }

  /** What finalising the capture of one disk hands over. */
  ghost predicate DocumentsOfCapture(spec: CaptureSpec, m: Manifest, layout: DiskLayout) {
    && |spec.partitions| == |spec.disk.partitions| && Described(spec, m.streams)
    && RequiredRestore([spec.disk]) == Success(m.requiredRestoreBytes)
    && layout == LayoutOf(m.uuid, [spec.disk])
  }

  /** A volume on a partition that a stream carries is on a partition of the disk. */
  lemma VolumeIsPlaced(spec: CaptureSpec, streams: seq<Stream>, v: VolumeEntry)
    requires NamesDisk(spec) && Described(spec, streams) && M.VolumeOk(v, streams)
    ensures HasPartition([spec.disk], v.partitionId)
  {
    var j :| 0 <= j < |streams| && M.CarriesPartition(streams[j], v.partitionId);
    assert PartitionDescribed(spec, streams[j], j);
    assert spec.disk.partitions[j] in spec.disk.partitions && spec.disk in [spec.disk];
  }

  lemma NamedDiskAgrees(spec: CaptureSpec, m: Manifest, layout: DiskLayout)
    requires DocumentsOfCapture(spec, m, layout) && NamesDisk(spec) && spec.headBytes <= spec.disk.sizeBytes
    requires M.VolumesOk(m.volumes, m.streams) && StreamIdsDiffer(m.streams)
    requires DiskOk(spec.disk) && IdsDistinct(PartitionIds(spec.disk.partitions))
    ensures Consistent(m, layout, None)
  {
    WrittenDiskIsConsistent(spec, m);
    forall j | 0 <= j < |m.streams|
      ensures PlacedInside(m.streams[j], layout.disks) && Referenced(m.streams, layout.disks, m.streams[j].id)
    {
      StreamIsPlaced(spec, m.streams, j);
      StreamIsReferenced(spec, m.streams, j);
    }
    forall i | 0 <= i < |m.volumes|
      ensures HasPartition(layout.disks, m.volumes[i].partitionId)
    {
      VolumeIsPlaced(spec, m.streams, m.volumes[i]);
    }
  }

  /** Partitions of a sound disk do not start at the same place. */
  lemma SameStartSamePartition(disk: DiskEntry, a: nat, b: nat)
    requires DiskOk(disk) && a < |disk.partitions| && b < |disk.partitions|
    requires disk.partitions[a].startingOffset == disk.partitions[b].startingOffset
    ensures a == b
  {
    assert PartitionOk(disk.partitions[a], disk) && PartitionOk(disk.partitions[b], disk);
    if a != b {
      PartitionsApart(disk, a, b);
    }
  }

  /** A partition that is carried is carried by its own stream, which names it. */
  lemma CarriedIsNamed(spec: CaptureSpec, streams: seq<Stream>, k: nat)
    requires |spec.partitions| == |spec.disk.partitions| && Described(spec, streams) && DiskOk(spec.disk)
    requires StreamIdsDiffer(streams) && k < |spec.partitions|
    requires PartitionCarried(streams, [spec.disk], spec.disk, spec.disk.partitions[k])
    ensures spec.partitions[k].partitionId == spec.disk.partitions[k].id
  {
    var j := CarrierFound(streams, [spec.disk], spec.disk, spec.disk.partitions[k]);
    assert j < |spec.partitions| && PartitionDescribed(spec, streams[j], j);
    SameStartSamePartition(spec.disk, j, k);
  }

  lemma AgreeingNamesDisk(spec: CaptureSpec, m: Manifest, layout: DiskLayout)
    requires DocumentsOfCapture(spec, m, layout) && Consistent(m, layout, None)
    requires DiskOk(spec.disk) && StreamIdsDiffer(m.streams)
    ensures NamesDisk(spec) && spec.headBytes <= spec.disk.sizeBytes
  {
    var n := |spec.partitions|;
    assert PlacedInside(m.streams[n], layout.disks);
    assert DiskConsistent(m, layout.disks, layout.disks[0]);
    forall k | 0 <= k < n
      ensures spec.partitions[k].partitionId == spec.disk.partitions[k].id
    {
      CarriedIsNamed(spec, m.streams, k);
    }
  }

  /**
   The two documents of a captured disk agree exactly when the plan called the disk
   and its partitions by their recorded names and its head fits the disk.
   */
  lemma WrittenDocumentsAgreeIff(spec: CaptureSpec, m: Manifest, layout: DiskLayout)
    requires DocumentsOfCapture(spec, m, layout) && M.VolumesOk(m.volumes, m.streams)
    requires DiskOk(spec.disk) && IdsDistinct(PartitionIds(spec.disk.partitions)) && StreamIdsDiffer(m.streams)
    ensures Consistent(m, layout, None) <==> NamesDisk(spec) && spec.headBytes <= spec.disk.sizeBytes
  {
    if Consistent(m, layout, None) {
      AgreeingNamesDisk(spec, m, layout);
    }
    if NamesDisk(spec) && spec.headBytes <= spec.disk.sizeBytes {
      NamedDiskAgrees(spec, m, layout);
    }
  }

  /** If no byte is restored twice the head fits, since it keeps clear of the tail at the end. */
  lemma DisjointHeadFits(spec: CaptureSpec, m: Manifest, layout: DiskLayout)
    requires DocumentsOfCapture(spec, m, layout) && M.StreamsSound(m.streams, m.chunks) && V.StreamsDisjoint(m.streams)
    ensures spec.headBytes <= spec.disk.sizeBytes
  {
    var n := |spec.partitions|;
    assert M.StreamSound(m.streams[n], m.chunks) && M.StreamSound(m.streams[n + 1], m.chunks);
    assert Clear(V.Placement(m.streams[n]), V.Placement(m.streams[n + 1]));
  }

  /** Documents of a capture that pass a full verification agree exactly when the plan used the recorded names. */
  lemma VerifiedDocumentsAgreeIff(spec: CaptureSpec, m: Manifest, layout: DiskLayout, codec: Codec,
      files: map<Digest, Stored>)
    requires DocumentsOfCapture(spec, m, layout) && V.Verified(m, Some(layout), codec, files, V.Full)
    ensures Consistent(m, layout, None) <==> NamesDisk(spec)
  {
    V.VerifiedIsDisjoint(m, Some(layout), codec, files, V.Full);
    DisjointHeadFits(spec, m, layout);
    LayoutOfOneDisk(spec.disk, layout);
    WrittenDocumentsAgreeIff(spec, m, layout);
  }

  lemma LayoutOfOneDisk(disk: DiskEntry, layout: DiskLayout)
    requires LayoutOk(layout) && layout.disks == [disk]
    ensures DiskOk(disk) && IdsDistinct(PartitionIds(disk.partitions))
  {
    assert DiskOk(layout.disks[0]);
    assert layout.disks[..0] == [];
    assert AllPartitionIds(layout.disks) == PartitionIds(disk.partitions);
  }

  lemma WrittenLayoutIsSound(disk: DiskEntry, uuid: string)
    requires DiskOk(disk) && IdsDistinct(PartitionIds(disk.partitions)) && IsGuid(uuid)
    ensures LayoutOk(LayoutOf(uuid, [disk]))
  {
  }

  lemma WrittenTableIsClear(spec: CaptureSpec, m: Manifest)
    requires WellPlanned(spec) && Described(spec, m.streams)
    ensures TableClear(m, spec.disk)
  {
  }

  /**
   What a capture and its finalisation write is accepted, and restores no byte
   twice, exactly when the chunk table holds fewer than 2^32 chunks.
   */
  lemma WrittenBackupIsAcceptedIff(spec: CaptureSpec, w: BackupWriter, m: Manifest, layout: DiskLayout)
    requires w.Valid() && w.NoneUnused([]) && IsManifestOf(m, w)
    requires M.ParametersOk(m) && M.VolumesOk(m.volumes, m.streams)
    requires w.disks == [spec.disk] && layout == LayoutOf(w.uuid, w.disks)
    requires WellPlanned(spec) && DiskOk(spec.disk) && IdsDistinct(PartitionIds(spec.disk.partitions))
    requires Described(spec, w.streams)
    ensures Accepted(m, layout, None) <==> |w.chunks| <= U32_MAX
    ensures |w.chunks| <= U32_MAX ==> V.StreamsDisjoint(m.streams)
  {
    WrittenManifestIsSoundIff(spec, w, m);
    WrittenLayoutIsSound(spec.disk, w.uuid);
    DescribedIds(spec, m.streams);
    WrittenDocumentsAgreeIff(spec, m, layout);
    WrittenTableIsClear(spec, m);
    if |w.chunks| <= U32_MAX {
      AcceptedIsDisjointIff(m, layout, None);
    }
  }

  lemma AcceptedPlacementsFit(m: Manifest, layout: DiskLayout)
    requires Accepted(m, layout, None)
    ensures V.PlacementsFit(m.streams)
  {
    forall j | 0 <= j < |m.streams|
      ensures m.streams[j].length > 0 && m.streams[j].targetOffset + m.streams[j].length <= U64_MAX
    {
      var k := EveryStreamHasADisk(m, layout, None, j);
    }
  }

  lemma WrittenChunksRead(w: BackupWriter)
    requires w.Valid()
    ensures forall i :: 0 <= i < |w.chunks| ==> V.ChunkSound(V.Full, w.store.codec, w.store.files, w.chunks[i])
  {
  }

  /** So a full verification finds nothing against it, again unless there are 2^32 chunks. */
  lemma WrittenBackupVerifiesIff(spec: CaptureSpec, w: BackupWriter, m: Manifest, layout: DiskLayout)
    requires w.Valid() && w.NoneUnused([]) && IsManifestOf(m, w)
    requires M.ParametersOk(m) && M.VolumesOk(m.volumes, m.streams)
    requires w.disks == [spec.disk] && layout == LayoutOf(w.uuid, w.disks)
    requires WellPlanned(spec) && DiskOk(spec.disk) && IdsDistinct(PartitionIds(spec.disk.partitions))
    requires Described(spec, w.streams)
    ensures V.Verified(m, Some(layout), w.store.codec, w.store.files, V.Full) <==> |w.chunks| <= U32_MAX
  {
    WrittenBackupIsAcceptedIff(spec, w, m, layout);
    WrittenChunksRead(w);
    if |w.chunks| <= U32_MAX {
      AcceptedPlacementsFit(m, layout);
      V.ReconstructionIsDisjointness(m.streams);
    }
  }

  /** Nor does a verification that only looks at sizes. */
  lemma WrittenBackupPassesStructure(spec: CaptureSpec, w: BackupWriter, m: Manifest, layout: DiskLayout)
    requires w.Valid() && w.NoneUnused([]) && IsManifestOf(m, w)
    requires M.ParametersOk(m) && M.VolumesOk(m.volumes, m.streams)
    requires w.disks == [spec.disk] && layout == LayoutOf(w.uuid, w.disks)
    requires WellPlanned(spec) && DiskOk(spec.disk) && IdsDistinct(PartitionIds(spec.disk.partitions))
    requires Described(spec, w.streams)
    ensures V.Verified(m, Some(layout), w.store.codec, w.store.files, V.Structure) <==> |w.chunks| <= U32_MAX
  {
    WrittenBackupVerifiesIff(spec, w, m, layout);
    WrittenFilesHaveTheirSize(w);
  }

  lemma WrittenFilesHaveTheirSize(w: BackupWriter)
    requires w.Valid()
    ensures forall i :: 0 <= i < |w.chunks| ==> V.ChunkSound(V.Structure, w.store.codec, w.store.files, w.chunks[i])
  {
    forall i | 0 <= i < |w.chunks|
      ensures V.ChunkSound(V.Structure, w.store.codec, w.store.files, w.chunks[i])
    {
      assert EntryOk(w.store.codec, w.store.known, w.store.files, w.chunks[i], w.contents[i]);
    }
  }

  /** A chunk file of a finished backup that is replaced by one of another length is found by looking at sizes. */
  lemma TruncatedChunkIsFound(w: BackupWriter, m: Manifest, layout: Option<DiskLayout>, i: nat, other: Stored)
    requires w.Valid() && m.chunks == w.chunks && i < |m.chunks|
    requires |other| != |w.store.files[m.chunks[i].hash]|
    ensures !V.Verified(m, layout, w.store.codec, w.store.files[m.chunks[i].hash := other], V.Structure)
  {
    assert EntryOk(w.store.codec, w.store.known, w.store.files, w.chunks[i], w.contents[i]);
    V.ResizedChunkIsFound(m, layout, w.store.codec, w.store.files, i, other);
  }

  // ---- the table and the chunk files --------------------------------------------------------

  /** Each entry has a file of the length recorded, and no two have the same. */
  ghost predicate Filed(chunks: seq<ChunkEntry>, files: map<Digest, Stored>) {
    && (forall i :: 0 <= i < |chunks| ==>
          chunks[i].hash in files && |files[chunks[i].hash]| == chunks[i].compressedSize)
    && (forall i, j :: 0 <= i < j < |chunks| ==> chunks[i].hash != chunks[j].hash)
  }

  lemma WrittenIsFiled(w: BackupWriter)
    requires w.Valid()
    ensures Filed(w.chunks, w.store.files)
  {
    forall i | 0 <= i < |w.chunks|
      ensures EntryOk(w.store.codec, w.store.known, w.store.files, w.chunks[i], w.contents[i])
    {
    }
    forall i, j | 0 <= i < j < |w.chunks|
      ensures w.chunks[i].hash != w.chunks[j].hash
    {
      assert w.chunkIndex[w.chunks[i].hash] == i && w.chunkIndex[w.chunks[j].hash] == j;
    }
  }

  /** The table takes no more than there is, and all of it if there are no other files. */
  lemma {:induction false} StoredIsFileSizes(chunks: seq<ChunkEntry>, files: map<Digest, Stored>)
    requires Filed(chunks, files)
    ensures |chunks| <= |files| && StoredSum(chunks) <= FilesSize(files)
    ensures |chunks| == |files| ==> StoredSum(chunks) == FilesSize(files)
  {
    if chunks != [] {
      var init, last := chunks[..|chunks| - 1], chunks[|chunks| - 1];
      var rest := files - {last.hash};
      forall i | 0 <= i < |init|
        ensures init[i].hash in rest && |rest[init[i].hash]| == init[i].compressedSize
      {
        assert init[i] == chunks[i];
      }
      StoredIsFileSizes(init, rest);
      FilesSizeWithout(files, last.hash);
      assert rest.Keys == files.Keys - {last.hash};
    }
  }

  /** What a capture into an empty store records as stored is the size of all chunk files. */
  lemma StoredBytesAreTheFiles(w: BackupWriter, m: Manifest)
    requires w.Valid() && w.Compact() && w.fromEmpty && IsManifestOf(m, w)
    ensures m.stats.storedBytes == FilesSize(w.store.files)
  {
    WrittenIsFiled(w);
    NoMoreFilesThanRenames(w.store.renames);
    StoredIsFileSizes(w.chunks, w.store.files);
  }

  // ---- a table within the writer's bound that the check refuses --------------------------------

  /** 2^32 different digests: the index in base 256. */
  function Numbered(i: u32): Digest {
    var q := i / 0x100;
    var r := q / 0x100;
    [r / 0x100, r % 0x100, q % 0x100, i % 0x100] + seq(DIGEST_BYTES - 4, _ => 0)
  }

  function NumberOf(h: Digest): u32 {
    var (a: int, b: int, c: int, d: int) := (h[0], h[1], h[2], h[3]);
    ((a * 0x100 + b) * 0x100 + c) * 0x100 + d
  }

  lemma NumberOfInverts(i: u32)
    ensures NumberOf(Numbered(i)) == i
  {
  }

  function FullTable(): seq<ChunkEntry> {
    seq(U32_MAX + 1, i requires 0 <= i <= U32_MAX => ChunkEntry(Numbered(i), 4096, 1))
  }

  /** The index a writer keeps of the full table. */
  function FullIndex(): map<Digest, u32> {
    map h | h in (set i: u32 | 0 <= i <= U32_MAX :: Numbered(i)) :: NumberOf(h)
  }

  lemma FullIndexInverts()
    ensures IndexInverts(FullTable(), FullIndex())
  {
    forall i: u32
      ensures NumberOf(Numbered(i)) == i
    {
      NumberOfInverts(i);
    }
  }

  /**
   A table of 2^32 sound entries meets everything the writer keeps about its table:
   its size is within the writer's bound, no digest comes twice and the index inverts
   it. The check refuses it.
   */
  lemma FullTableIsRefused(m: Manifest)
    requires m.chunks == FullTable() && m.chunkSize >= 4096
    ensures |m.chunks| == U32_MAX + 1 && IndexInverts(m.chunks, FullIndex()) && M.ChunksOk(m.chunks, m.chunkSize)
    ensures !M.ChunkTableOk(m)
  {
    FullIndexInverts();
    forall i, j | 0 <= i < j < |m.chunks|
      ensures m.chunks[i].hash != m.chunks[j].hash
    {
      assert FullIndex()[m.chunks[i].hash] == i && FullIndex()[m.chunks[j].hash] == j;
    }
  }

  // ---- what the totals count ---------------------------------------------------------------------

  /** A stream that recorded the pieces of some ranges carries as many bytes as they hold. */
  lemma RecordedSum(segs: seq<Segment>, contents: seq<Bytes>, src: int -> Byte, pieces: seq<ByteRange>)
    requires Records(segs, PiecesOf(src, pieces), contents)
    ensures SumSegments(segs) == SumLengths(pieces)
  {
    RecordedPiecesCarry(segs, contents, src, pieces);
    SumSegmentsIsSumLengths(segs);
  }

  lemma PartitionSum(spec: CaptureSpec, sources: Sources, k: nat, s: Stream, log: seq<Piece>, contents: seq<Bytes>)
    requires SourcesFit(spec, sources) && k < |spec.partitions| == |spec.disk.partitions|
    requires PartitionCaptured(spec, sources, k, s, log) && Records(s.segments, log, contents)
    ensures SumSegments(s.segments) == SumLengths(RangesFor(spec, sources, k))
  {
    var o := OriginFor(spec, sources, k);
    RangesInOrder(spec, sources, k);
    RecordedSum(s.segments, contents, Source(o), PiecesFor(spec, sources, k));
    CopyPiecesSum(RangesFor(spec, sources, k), DEFAULT_CHUNK_SIZE, o.covers);
  }

  lemma RegionSum(header: Stream, disk: Bytes, s: Stream, log: seq<Piece>, contents: seq<Bytes>)
    requires RegionCaptured(header, disk, s, log) && Records(s.segments, log, contents)
    ensures SumSegments(s.segments) == header.length
  {
    var src := Source(Raw(disk, header.targetOffset));
    var pieces :| GridUpTo(pieces, header.length, header.length, DEFAULT_CHUNK_SIZE) && log == PiecesOf(src, pieces);
    RecordedSum(s.segments, contents, src, pieces);
  }

  lemma AllSegmentsStep(streams: seq<Stream>, k: nat)
    requires k < |streams|
    ensures SumSegments(AllSegments(streams[..k + 1])) ==
            SumSegments(AllSegments(streams[..k])) + SumSegments(streams[k].segments)
  {
    StreamDone(streams, k);
    SumSegmentsConcat(AllSegments(streams[..k]), streams[k].segments);
  }

  /** Every stream records what was written to it. */
  ghost predicate StreamsRecorded(streams: seq<Stream>, logs: seq<seq<Piece>>, contents: seq<Bytes>) {
    && |logs| == |streams|
    && forall j :: 0 <= j < |streams| ==> Records(streams[j].segments, logs[j], contents)
  }

  lemma CapturedStreamSum(spec: CaptureSpec, sources: Sources, streams: seq<Stream>, logs: seq<seq<Piece>>,
      contents: seq<Bytes>, k: nat)
    requires SourcesFit(spec, sources) && k < |spec.partitions| == |spec.disk.partitions|
    requires DiskCaptured(spec, sources, streams, logs, 0) && StreamsRecorded(streams, logs, contents)
    ensures SumSegments(streams[k].segments) == SumLengths(RangesFor(spec, sources, k))
  {
    assert CapturedAt(spec, sources, streams, logs, 0, k);
    PartitionSum(spec, sources, k, streams[k], logs[k], contents);
  }

  lemma {:induction false} PartitionsSum(spec: CaptureSpec, sources: Sources, streams: seq<Stream>,
      logs: seq<seq<Piece>>, contents: seq<Bytes>, k: nat)
    requires SourcesFit(spec, sources) && k <= |spec.partitions| == |spec.disk.partitions|
    requires DiskCaptured(spec, sources, streams, logs, 0) && StreamsRecorded(streams, logs, contents)
    ensures SumSegments(AllSegments(streams[..k])) == ReadSum(spec, sources, k)
  {
    if k > 0 {
      PartitionsSum(spec, sources, streams, logs, contents, k - 1);
      AllSegmentsStep(streams, k - 1);
      CapturedStreamSum(spec, sources, streams, logs, contents, k - 1);
    }
  }

  /** The two ends of the disk carry as many bytes as were asked for. */
  lemma EndsSum(spec: CaptureSpec, sources: Sources, streams: seq<Stream>, logs: seq<seq<Piece>>, contents: seq<Bytes>)
    requires SourcesFit(spec, sources) && |spec.partitions| == |spec.disk.partitions|
    requires DiskCaptured(spec, sources, streams, logs, 0) && StreamsRecorded(streams, logs, contents)
    ensures var n := |spec.partitions|;
            && |streams| == n + 2 && SumSegments(streams[n].segments) == spec.headBytes
            && SumSegments(streams[n + 1].segments) == spec.tailBytes
  {
    var n := |spec.partitions|;
    RegionSum(HeadHeader(spec), sources.disk, streams[n], logs[n], contents);
    RegionSum(TailHeader(spec), sources.disk, streams[n + 1], logs[n + 1], contents);
  }

  lemma LastTwoSum(streams: seq<Stream>, n: nat)
    requires |streams| == n + 2
    ensures SumSegments(AllSegments(streams)) ==
            SumSegments(AllSegments(streams[..n])) + SumSegments(streams[n].segments) +
            SumSegments(streams[n + 1].segments)
  {
    AllSegmentsStep(streams, n);
    AllSegmentsStep(streams, n + 1);
    assert streams[..n + 1 + 1] == streams;
  }

  lemma StreamsRecord(w: BackupWriter)
    requires w.Valid()
    ensures StreamsRecorded(w.streams, w.logs, w.contents)
  {
    forall j | 0 <= j < |w.streams|
      ensures Records(w.streams[j].segments, w.logs[j], w.contents)
    {
      assert StreamOk(w.streams[j], w.logs[j], w.chunks, w.contents, w.chunkSize);
    }
  }

  /** All segments together are as many bytes as the ranges read and the two ends of the disk. */
  lemma CapturedSum(spec: CaptureSpec, sources: Sources, streams: seq<Stream>, logs: seq<seq<Piece>>,
      contents: seq<Bytes>)
    requires SourcesFit(spec, sources) && |spec.partitions| == |spec.disk.partitions|
    requires DiskCaptured(spec, sources, streams, logs, 0) && StreamsRecorded(streams, logs, contents)
    ensures SumSegments(AllSegments(streams)) ==
            ReadSum(spec, sources, |spec.partitions|) + spec.headBytes + spec.tailBytes
  {
    EndsSum(spec, sources, streams, logs, contents);
    PartitionsSum(spec, sources, streams, logs, contents, |spec.partitions|);
    LastTwoSum(streams, |spec.partitions|);
  }

  /** The captured bytes a manifest records are exactly those of the ranges covered. */
  lemma CapturedBytesAreTheRanges(spec: CaptureSpec, sources: Sources, w: BackupWriter, m: Manifest)
    requires SourcesFit(spec, sources) && |spec.partitions| == |spec.disk.partitions|
    requires w.Valid() && DiskCaptured(spec, sources, w.streams, w.logs, 0) && IsManifestOf(m, w)
    ensures m.stats.capturedBytes == ReadSum(spec, sources, |spec.partitions|) + spec.headBytes + spec.tailBytes
  {
    StreamsRecord(w);
    CapturedSum(spec, sources, w.streams, w.logs, w.contents);
  }

  // ---- totals that cannot be recorded --------------------------------------------------------

  lemma {:induction false} NoMoreSegmentsThanBytes(segs: seq<Segment>)
    requires forall s :: s in segs ==> s.length > 0
    ensures |segs| <= SumSegments(segs)
  {
    if segs != [] {
      NoMoreSegmentsThanBytes(segs[..|segs| - 1]);
    }
  }

  lemma WrittenSegmentsHaveBytes(w: BackupWriter)
    requires w.Valid()
    ensures forall s :: s in AllSegments(w.streams) ==> s.length > 0
  {
    forall s | s in AllSegments(w.streams)
      ensures s.length > 0
    {
      var j := SegmentOfStream(w.streams, s);
      var i :| 0 <= i < |w.streams[j].segments| && w.streams[j].segments[i] == s;
      assert StreamOk(w.streams[j], w.logs[j], w.chunks, w.contents, w.chunkSize);
    }
  }

  /** How many bytes a capture reads in all. */
  function ReadTotal(spec: CaptureSpec, sources: Sources): nat
    requires |spec.partitions| == |sources.plans|
  {
    ReadSum(spec, sources, |spec.partitions|) + spec.headBytes + spec.tailBytes
  }

  /** The totals of a captured disk can be settled unless the bytes read or the chunk files are past 64 bits. */
  lemma TotalsSettle(spec: CaptureSpec, sources: Sources, w: BackupWriter)
    requires SourcesFit(spec, sources) && |spec.partitions| == |spec.disk.partitions|
    requires w.Valid() && DiskCaptured(spec, sources, w.streams, w.logs, 0)
    requires StatsOf(w.streams, w.chunks).Failure?
    ensures ReadTotal(spec, sources) > U64_MAX || FilesSize(w.store.files) > U64_MAX
  {
    StreamsRecord(w);
    CapturedSum(spec, sources, w.streams, w.logs, w.contents);
    WrittenSegmentsHaveBytes(w);
    NoMoreSegmentsThanBytes(AllSegments(w.streams));
    WrittenIsFiled(w);
    StoredIsFileSizes(w.chunks, w.store.files);
  }
}
