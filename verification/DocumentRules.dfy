/**
 What a sound backup's documents look like, in their own fields, identifiers and
 bytes: the rules a reader of the format may rely on, and that the checks of
 crates/mjolnir-image decide exactly.
 */
module DocumentRules {
  import opened Arith
  import opened Overlaps
  import opened Format
  import opened Shapes
  import opened LayoutCheck
  import opened CrossCheck
  import opened Acceptance
  import opened BackupFolder
  import M = ManifestCheck

  // ---- texts ------------------------------------------------------------------------------

  const HEX := "0123456789abcdefABCDEF"
  const LETTERS := "abcdefghijklmnopqrstuvwxyz"
  const NAME_CHARS := LETTERS + "0123456789-_"

  lemma HexDigits(c: char)
    ensures IsHexDigit(c) <==> c in HEX
  {
    assert HEX == ['0', '1', '2', '3', '4', '5', '6', '7', '8', '9', 'a', 'b', 'c', 'd', 'e', 'f',
                   'A', 'B', 'C', 'D', 'E', 'F'];
  }

  lemma Letters(c: char)
    ensures 'a' <= c <= 'z' <==> c in LETTERS
  {
    assert LETTERS == ['a', 'b', 'c', 'd', 'e', 'f', 'g', 'h', 'i', 'j', 'k', 'l', 'm', 'n', 'o', 'p', 'q', 'r', 's',
                       't', 'u', 'v', 'w', 'x', 'y', 'z'];
  }

  lemma NameChars(c: char)
    ensures IsNameChar(c) <==> c in NAME_CHARS
  {
    Letters(c);
    assert "0123456789-_" == ['0', '1', '2', '3', '4', '5', '6', '7', '8', '9', '-', '_'];
  }

  /** A GUID is 36 characters: dashes after 8, 12, 16 and 20 digits, and digits of base 16. */
  lemma GuidsAre(text: string)
    ensures IsGuid(text) <==>
              |text| == 36 &&
              forall i :: 0 <= i < 36 ==> if i in {8, 13, 18, 23} then text[i] == '-' else text[i] in HEX
  {
    forall c
      ensures IsHexDigit(c) <==> c in HEX
    {
      HexDigits(c);
    }
  }

  lemma ComponentsAre(name: string)
    ensures IsSafeComponent(name) <==> 1 <= |name| <= 64 && forall c :: c in name ==> c in NAME_CHARS
  {
    forall c
      ensures IsNameChar(c) <==> c in NAME_CHARS
    {
      NameChars(c);
    }
  }

  predicate HasNoSlash(text: string) {
    forall i :: 0 <= i < |text| ==> text[i] != '/'
  }

  /** A name with no slash is safe to follow unless it is empty, stands for a folder or has another character. */
  lemma NamesAre(name: string)
    requires HasNoSlash(name)
    ensures IsSafeRelativePath(name) <==>
              1 <= |name| <= 256 && name != "." && name != ".." && forall c :: c in name ==> c in NAME_CHARS || c == '.'
  {
    forall c
      ensures IsNameChar(c) <==> c in NAME_CHARS
    {
      NameChars(c);
    }
    assert IsSegment(name, 0, |name|) && name[0..|name|] == name;
    forall from, to | 0 <= from <= to <= |name| && IsSegment(name, from, to)
      ensures from == 0 && to == |name|
    {
    }
  }

  /** A longer path is safe exactly when what is before a slash and what is behind it are, and it is not too long. */
  lemma PathsAre(head: string, tail: string)
    ensures IsSafeRelativePath(head + "/" + tail) <==>
              IsSafeRelativePath(head) && IsSafeRelativePath(tail) && |head| + 1 + |tail| <= 256
  {
    var path := head + "/" + tail;
    if IsSafeRelativePath(path) {
      PartsAreSafe(head, tail);
    }
    if IsSafeRelativePath(head) && IsSafeRelativePath(tail) {
      forall from, to | 0 <= from <= |path| && from <= to <= |path| && IsSegment(path, from, to)
        ensures IsSafeSegment(path[from..to])
      {
        SegmentOfPath(head, tail, from, to);
      }
    }
  }

  lemma PartsAreSafe(head: string, tail: string)
    requires IsSafeRelativePath(head + "/" + tail)
    ensures IsSafeRelativePath(head) && IsSafeRelativePath(tail)
  {
    var path, n := head + "/" + tail, |head|;
    forall from, to | 0 <= from <= |head| && from <= to <= |head| && IsSegment(head, from, to)
      ensures IsSafeSegment(head[from..to])
    {
      assert IsSegment(path, from, to) && path[from..to] == head[from..to];
    }
    forall from, to | 0 <= from <= |tail| && from <= to <= |tail| && IsSegment(tail, from, to)
      ensures IsSafeSegment(tail[from..to])
    {
      assert IsSegment(path, n + 1 + from, n + 1 + to) && path[n + 1 + from..n + 1 + to] == tail[from..to];
    }
  }

  lemma SegmentOfPath(head: string, tail: string, from: nat, to: nat)
    requires var path := head + "/" + tail; from <= to <= |path| && IsSegment(path, from, to)
    requires IsSafeRelativePath(head) && IsSafeRelativePath(tail)
    ensures IsSafeSegment((head + "/" + tail)[from..to])
  {
    var path, n := head + "/" + tail, |head|;
    assert path[n] == '/';
    if to <= n {
      assert forall i :: 0 <= i < n ==> path[i] == head[i];
      assert IsSegment(head, from, to) && path[from..to] == head[from..to];
    } else {
      assert n < from;
      assert forall i :: 0 <= i < |tail| ==> tail[i] == path[n + 1 + i];
      assert IsSegment(tail, from - n - 1, to - n - 1) && path[from..to] == tail[from - n - 1..to - n - 1];
    }
  }

  // ---- the manifest ---------------------------------------------------------------------------

  /** The segment lies in a stream of this length, and is as long as the chunk it points to. */
  predicate FitsStream(seg: Segment, length: u64, chunks: seq<ChunkEntry>) {
    && 0 < seg.length && seg.offset + seg.length <= length
    && seg.chunk < |chunks| && chunks[seg.chunk].uncompressedSize == seg.length
  }

  /** Some segment holds the byte. */
  ghost predicate Held(segs: seq<Segment>, x: int) {
    exists i :: 0 <= i < |segs| && segs[i].offset <= x < segs[i].offset + segs[i].length
  }

  /**
   A sound stream: its segments fit it, come one after the other, and together hold
   every byte of it unless it says that it may be sparse.
   */
  ghost predicate PlainStream(s: Stream, chunks: seq<ChunkEntry>) {
    && s.length > 0
    && (s.partitionId.Some? <==> s.kind == PartitionKind)
    && (forall i :: 0 <= i < |s.segments| ==> FitsStream(s.segments[i], s.length, chunks))
    && (forall i, j :: 0 <= i < j < |s.segments| ==>
          s.segments[i].offset + s.segments[i].length <= s.segments[j].offset)
    && (s.capture == VssUsedBlocks || s.capture == Preview || forall x :: 0 <= x < s.length ==> Held(s.segments, x))
  }

  lemma SoundStreamsAre(s: Stream, chunks: seq<ChunkEntry>)
    ensures M.StreamSound(s, chunks) <==> PlainStream(s, chunks)
  {
    assert forall i :: 0 <= i < |s.segments| ==>
        (SegmentOk(s.segments[i], s.length, chunks) <==> FitsStream(s.segments[i], s.length, chunks));
    if SegmentsOk(s.segments, s.length, chunks) {
      CompleteSumCarriesEveryByte(s.segments, s.length, chunks);
      forall x
        ensures Carried(s.segments, x) <==> Held(s.segments, x)
      {
        HeldIsCarried(s.segments, x);
      }
    }
  }

  lemma HeldIsCarried(segs: seq<Segment>, x: int)
    ensures Carried(segs, x) <==> Held(segs, x)
  {
    if Held(segs, x) {
      var i :| 0 <= i < |segs| && segs[i].offset <= x < segs[i].offset + segs[i].length;
      assert segs[i].Has(x);
    }
  }

  /** This build's format, or a later version of it that is read the same way. */
  predicate PlainFormat(format: FormatHeader, kind: DocumentKind) {
    format.magic == "MJOLNIRVSS" && format.document == kind && format.major == 1 && format.minReaderMinor == 0
  }

  predicate PlainParameters(m: Manifest) {
    && 65536 <= m.chunkSize <= 67108864 && m.chunkSize % 4096 == 0
    && m.parameters.digestBytes == 32 && m.parameters.fanout <= 4 && |m.parameters.createdUtc| > 0
    && (m.parameters.compression == Uncompressed ||
        (m.parameters.compression.Zstd? && -7 <= m.parameters.compression.level <= 22))
    && 1 <= |m.parameters.root| <= 64 && (forall c :: c in m.parameters.root ==> c in NAME_CHARS)
    && IsGuid(m.uuid)
  }

  ghost predicate PlainChunks(m: Manifest) {
    && |m.chunks| < 0x1_0000_0000
    && (forall c :: c in m.chunks ==> 1 <= c.uncompressedSize <= m.chunkSize && c.compressedSize >= 1)
    && forall i, j :: 0 <= i < |m.chunks| && 0 <= j < |m.chunks| && m.chunks[i].hash == m.chunks[j].hash ==> i == j
  }

  /** The volume's partition has a stream, its index may be followed, and it uses no more than there is. */
  ghost predicate PlainVolume(v: VolumeEntry, streams: seq<Stream>) {
    && (exists s :: s in streams && s.kind == PartitionKind && s.partitionId == Some(v.partitionId))
    && (v.indexPath == None || IsSafeRelativePath(v.indexPath.value))
    && (v.totalBytes == None || v.usedBytes == None || v.usedBytes.value <= v.totalBytes.value)
  }

  ghost predicate PlainVolumes(m: Manifest) {
    && (forall v :: v in m.volumes ==> PlainVolume(v, m.streams))
    && forall i, j :: 0 <= i < |m.volumes| && 0 <= j < |m.volumes| && m.volumes[i].id == m.volumes[j].id ==> i == j
  }

  ghost predicate PlainStreams(m: Manifest) {
    && (forall s :: s in m.streams ==> PlainStream(s, m.chunks))
    && forall i, j :: 0 <= i < |m.streams| && 0 <= j < |m.streams| && m.streams[i].id == m.streams[j].id ==> i == j
  }

  /** The totals of the manifest are those of its segments and chunks. */
  ghost predicate PlainTotals(m: Manifest) {
    var all := AllSegments(m.streams);
    && m.stats.capturedBytes == SumSegments(all) && m.stats.storedBytes == StoredSum(m.chunks)
    && m.stats.uniqueChunks == |m.chunks| && m.stats.totalSegments == |all|
    && m.stats.deduplicatedSegments == |all| - |set s | s in all :: s.chunk|
  }

  /** No finding about a manifest exactly when all of these hold. */
  lemma SoundManifestsAre(m: Manifest)
    ensures M.ManifestOk(m) <==>
            && PlainFormat(m.format, ManifestKind) && PlainParameters(m) && PlainChunks(m)
            && PlainStreams(m) && PlainVolumes(m) && PlainTotals(m)
  {
    ComponentsAre(m.parameters.root);
    ChunksAre(m);
    StreamsAre(m);
    VolumesAre(m);
    TotalsAre(m);
  }

  lemma ChunksAre(m: Manifest)
    ensures M.ChunkTableOk(m) <==> PlainChunks(m)
  {
    if PlainChunks(m) {
      forall i | 0 <= i < |m.chunks|
        ensures M.ChunkOk(m.chunks[i], m.chunkSize)
      {
        assert m.chunks[i] in m.chunks;
      }
    }
  }

  lemma StreamsAre(m: Manifest)
    ensures M.StreamsSound(m.streams, m.chunks) <==> PlainStreams(m)
  {
    forall s
      ensures M.StreamSound(s, m.chunks) <==> PlainStream(s, m.chunks)
    {
      SoundStreamsAre(s, m.chunks);
    }
    if PlainStreams(m) {
      forall i | 0 <= i < |m.streams|
        ensures M.StreamSound(m.streams[i], m.chunks)
      {
        assert m.streams[i] in m.streams;
      }
    }
  }

  lemma VolumeIs(v: VolumeEntry, streams: seq<Stream>)
    ensures M.VolumeOk(v, streams) <==> PlainVolume(v, streams)
  {
    if PlainVolume(v, streams) {
      var s :| s in streams && s.kind == PartitionKind && s.partitionId == Some(v.partitionId);
      var i :| 0 <= i < |streams| && streams[i] == s;
      assert M.CarriesPartition(streams[i], v.partitionId);
    }
  }

  lemma VolumesAre(m: Manifest)
    ensures M.VolumesOk(m.volumes, m.streams) <==> PlainVolumes(m)
  {
    forall v
      ensures M.VolumeOk(v, m.streams) <==> PlainVolume(v, m.streams)
    {
      VolumeIs(v, m.streams);
    }
    if PlainVolumes(m) {
      forall i | 0 <= i < |m.volumes|
        ensures M.VolumeOk(m.volumes[i], m.streams)
      {
        assert m.volumes[i] in m.volumes;
      }
    }
  }

  lemma TotalsAre(m: Manifest)
    ensures M.StatsOk(m) <==> PlainTotals(m)
  {
    UsedAtMostOnceEach(AllSegments(m.streams));
  }

  // ---- what the totals are made of ----------------------------------------------------------------

  lemma OneStreamMore(streams: seq<Stream>, s: Stream)
    ensures AllSegments(streams + [s]) == AllSegments(streams) + s.segments
  {
    assert (streams + [s])[..|streams|] == streams;
  }

  /** The segments of streams taken together are those of each, in order. */
  lemma {:induction false} SegmentsOfBoth(a: seq<Stream>, b: seq<Stream>)
    ensures AllSegments(a + b) == AllSegments(a) + AllSegments(b)
  {
    if b == [] {
      assert a + b == a;
    } else {
      var init, last := b[..|b| - 1], b[|b| - 1];
      SegmentsOfBoth(a, init);
      OneStreamMore(init, last);
      OneStreamMore(a + init, last);
      assert a + b == a + init + [last] && b == init + [last];
    }
  }

  lemma SegmentsOfOne(s: Stream)
    ensures AllSegments([s]) == s.segments
  {
    assert [s][..0] == [];
  }

  lemma {:induction false} StoredInBoth(a: seq<ChunkEntry>, b: seq<ChunkEntry>)
    ensures StoredSum(a + b) == StoredSum(a) + StoredSum(b)
  {
    if b == [] {
      assert a + b == a;
    } else {
      StoredInBoth(a, b[..|b| - 1]);
      assert (a + b)[..|a + b| - 1] == a + b[..|b| - 1];
    }
  }

  lemma StoredInOne(c: ChunkEntry)
    ensures StoredSum([c]) == c.compressedSize
  {
    assert [c][..0] == [];
  }

  // ---- the layout -------------------------------------------------------------------------------

  /** The partition lies in the disk, after its first sector, in whole sectors. */
  predicate PlainPartition(p: PartitionEntry, disk: DiskEntry)
    requires disk.logicalSectorSize > 0
  {
    && 0 < p.startingOffset && 0 < p.length && p.startingOffset + p.length <= disk.sizeBytes
    && p.startingOffset % disk.logicalSectorSize == 0 && p.length % disk.logicalSectorSize == 0
    && IsGuid(p.typeGuid) && IsGuid(p.uniqueGuid)
  }

  predicate InPartition(p: PartitionEntry, x: int) {
    p.startingOffset <= x < p.startingOffset + p.length
  }

  /** The room a partition table takes behind the last partition: one header sector and 16 KiB of entries. */
  function RoomBehind(sector: u32): nat {
    if sector == 512 then 16896 else 20480
  }

  /** A sound disk: a partition table of sectors of one of two sizes, and no byte in two partitions. */
  ghost predicate PlainDisk(disk: DiskEntry) {
    && disk.isGpt && IsGuid(disk.guid) && disk.logicalSectorSize in {512, 4096}
    && disk.sizeBytes > 0 && disk.sizeBytes % disk.logicalSectorSize == 0
    && disk.physicalSectorSize >= disk.logicalSectorSize && disk.physicalSectorSize % disk.logicalSectorSize == 0
    && |disk.partitions| > 0
    && (forall p :: p in disk.partitions ==>
          PlainPartition(p, disk) &&
          p.startingOffset + p.length + RoomBehind(disk.logicalSectorSize) <= U64_MAX)
    && (forall i, j :: 0 <= i < j < |disk.partitions| ==> disk.partitions[i].number != disk.partitions[j].number)
    && NoByteInTwo(disk.partitions)
  }

  /** No byte of the disk is in two of them. */
  ghost predicate NoByteInTwo(parts: seq<PartitionEntry>) {
    forall i, j :: 0 <= i < |parts| && 0 <= j < |parts| && i != j ==> Apart(parts[i], parts[j])
  }

  ghost predicate Apart(p: PartitionEntry, q: PartitionEntry) {
    forall x :: !(InPartition(p, x) && InPartition(q, x))
  }

  lemma ApartIsClear(p: PartitionEntry, q: PartitionEntry)
    ensures Apart(p, q) <==> Clear(PartitionRange(p), PartitionRange(q))
  {
    ClearIsNoSharedByte(PartitionRange(p), PartitionRange(q));
    forall p: PartitionEntry, x
      ensures InPartition(p, x) <==> PartitionRange(p).Has(x)
    {
    }
  }

  lemma TargetIs(disk: DiskEntry)
    requires disk.logicalSectorSize in {512, 4096}
    ensures RequiredTarget(disk).Success? <==>
              HighestEnd(disk.partitions) + RoomBehind(disk.logicalSectorSize) <= U64_MAX
    ensures RequiredTarget(disk).Success? ==>
              RequiredTarget(disk).value == HighestEnd(disk.partitions) + RoomBehind(disk.logicalSectorSize)
  {
    RequiredTargetIff(disk, RoomBehind(disk.logicalSectorSize));
  }

  lemma SoundDisksAre(disk: DiskEntry)
    ensures DiskOk(disk) <==> PlainDisk(disk)
  {
    if disk.logicalSectorSize in {512, 4096} {
      TargetIs(disk);
      HighestEndIsMax(disk.partitions);
      PartitionsAre(disk);
    }
  }

  lemma PartitionsAre(disk: DiskEntry)
    requires disk.logicalSectorSize in {512, 4096}
    ensures (forall i :: 0 <= i < |disk.partitions| ==> PartitionOk(disk.partitions[i], disk)) <==>
            (forall p :: p in disk.partitions ==> PlainPartition(p, disk))
    ensures Disjoint(PartitionRanges(disk.partitions)) <==> NoByteInTwo(disk.partitions)
  {
    var parts, rs := disk.partitions, PartitionRanges(disk.partitions);
    if forall p :: p in parts ==> PlainPartition(p, disk) {
      forall i | 0 <= i < |parts|
        ensures PartitionOk(parts[i], disk)
      {
        assert parts[i] in parts;
      }
    }
    forall i, j | 0 <= i < |parts| && 0 <= j < |parts|
      ensures Apart(parts[i], parts[j]) <==> Clear(rs[i], rs[j])
    {
      ApartIsClear(parts[i], parts[j]);
    }
  }

  /** Two partitions of the layout, on one disk or on two. */
  predicate BothThere(disks: seq<DiskEntry>, k: int, i: int, l: int, j: int) {
    && 0 <= k < |disks| && 0 <= i < |disks[k].partitions|
    && 0 <= l < |disks| && 0 <= j < |disks[l].partitions|
  }

  /** Sound disks, no two of one id, and no two partitions of one id on any of them. */
  ghost predicate PlainLayout(layout: DiskLayout) {
    var disks := layout.disks;
    && PlainFormat(layout.format, LayoutKind) && IsGuid(layout.backupUuid) && |disks| > 0
    && (forall d :: d in disks ==> PlainDisk(d))
    && (forall k, l :: 0 <= k < |disks| && 0 <= l < |disks| && disks[k].id == disks[l].id ==> k == l)
    && (forall k, i, l, j :: BothThere(disks, k, i, l, j) && disks[k].partitions[i].id == disks[l].partitions[j].id ==>
          k == l && i == j)
  }

  /** The id at any place of the list of all partition ids is that of some partition. */
  lemma {:induction false} PartitionOfId(disks: seq<DiskEntry>, at: nat) returns (k: nat, i: nat)
    requires at < |AllPartitionIds(disks)|
    ensures k < |disks| && i < |disks[k].partitions| && at == IdsBefore(disks, k) + i
    ensures disks[k].partitions[i].id == AllPartitionIds(disks)[at]
  {
    var init := disks[..|disks| - 1];
    if at < |AllPartitionIds(init)| {
      k, i := PartitionOfId(init, at);
      assert init[..k] == disks[..k];
    } else {
      k, i := |init|, at - |AllPartitionIds(init)|;
      assert disks[..k] == init;
    }
  }

  lemma PartitionIdsAre(disks: seq<DiskEntry>)
    ensures IdsDistinct(AllPartitionIds(disks)) <==>
            forall k, i, l, j ::
              BothThere(disks, k, i, l, j) && disks[k].partitions[i].id == disks[l].partitions[j].id ==>
              k == l && i == j
  {
    var ids := AllPartitionIds(disks);
    if IdsDistinct(ids) {
      forall k, i, l, j | BothThere(disks, k, i, l, j) && disks[k].partitions[i].id == disks[l].partitions[j].id
        ensures k == l && i == j
      {
        SamePlaceOfIds(disks, k, i, l, j);
      }
    } else {
      var a, b :| 0 <= a < b < |ids| && ids[a] == ids[b];
      var k, i := PartitionOfId(disks, a);
      var l, j := PartitionOfId(disks, b);
      assert BothThere(disks, k, i, l, j);
    }
  }

  lemma SamePlaceOfIds(disks: seq<DiskEntry>, k: nat, i: nat, l: nat, j: nat)
    requires IdsDistinct(AllPartitionIds(disks)) && BothThere(disks, k, i, l, j)
    requires disks[k].partitions[i].id == disks[l].partitions[j].id
    ensures k == l && i == j
  {
    PartitionIdAt(disks, k, i);
    PartitionIdAt(disks, l, j);
    assert IdsBefore(disks, k) + i == IdsBefore(disks, l) + j;
    if k < l {
      IdsBeforeGrows(disks, k + 1, l);
    } else if l < k {
      IdsBeforeGrows(disks, l + 1, k);
    }
  }

  /** No finding about a layout exactly when it is one of sound disks, each under its own id. */
  lemma SoundLayoutsAre(layout: DiskLayout)
    ensures LayoutOk(layout) <==> PlainLayout(layout)
  {
    var disks := layout.disks;
    forall d
      ensures DiskOk(d) <==> PlainDisk(d)
    {
      SoundDisksAre(d);
    }
    PartitionIdsAre(disks);
    if PlainLayout(layout) {
      forall i | 0 <= i < |disks|
        ensures DiskOk(disks[i])
      {
        assert disks[i] in disks;
      }
    }
  }

  // ---- the completion document ----------------------------------------------------------------------

  ghost predicate Lists(c: Completion, path: string) {
    exists d :: d in c.documents && d.path == path
  }

  /** A complete run that passed, the manifest and the layout listed, and every path safe to follow. */
  ghost predicate PlainCompletion(c: Completion) {
    && PlainFormat(c.format, CompletionKind) && IsGuid(c.backupUuid) && |c.completedUtc| > 0
    && c.state == Complete && c.verification.result == VerificationResult.Passed
    && Lists(c, "manifest.json") && Lists(c, "disk-layout.json")
    && forall d :: d in c.documents ==> IsSafeRelativePath(d.path) && d.bytes > 0
  }

  lemma SoundCompletionsAre(c: Completion)
    ensures CompletionOk(c) <==> PlainCompletion(c)
  {
    if PlainCompletion(c) {
      forall i | 0 <= i < |c.documents|
        ensures DigestSound(c.documents[i])
      {
        assert c.documents[i] in c.documents;
      }
    }
  }

  // ---- the documents against each other ---------------------------------------------------------------

  predicate IsFor(m: Manifest, diskId: string, kind: StreamKind, j: int) {
    0 <= j < |m.streams| && m.streams[j].diskId == diskId && m.streams[j].kind == kind
  }

  /** The disk has one head and no other, and that starts the disk. */
  ghost predicate OneHead(m: Manifest, disk: DiskEntry) {
    exists j :: IsFor(m, disk.id, DiskHead, j) && m.streams[j].targetOffset == 0 &&
                forall other :: IsFor(m, disk.id, DiskHead, other) ==> other == j
  }

  /** The disk has one tail and no other, and that ends where the disk ends. */
  ghost predicate OneTail(m: Manifest, disk: DiskEntry) {
    exists j :: IsFor(m, disk.id, DiskTail, j) && m.streams[j].targetOffset + m.streams[j].length == disk.sizeBytes &&
                forall other :: IsFor(m, disk.id, DiskTail, other) ==> other == j
  }

  predicate Points(m: Manifest, partitionId: string, j: int) {
    0 <= j < |m.streams| && m.streams[j].partitionId == Some(partitionId)
  }

  /** One stream and no other names the partition, and it goes to where that lies. */
  ghost predicate OneCarrier(m: Manifest, disk: DiskEntry, p: PartitionEntry) {
    exists j :: && Points(m, p.id, j) && m.streams[j].diskId == disk.id
                && m.streams[j].targetOffset == p.startingOffset && m.streams[j].length == p.length
                && forall other :: Points(m, p.id, other) ==> other == j
  }

  predicate HasNamed(disk: DiskEntry, partitionId: string) {
    exists p :: p in disk.partitions && p.id == partitionId
  }

  /** The stream lies in a disk of the layout, and names a partition of the layout if it names one. */
  ghost predicate HasItsPlace(s: Stream, disks: seq<DiskEntry>) {
    && (exists d :: d in disks && s.diskId == d.id && s.targetOffset + s.length <= d.sizeBytes)
    && (s.partitionId == None || exists d :: d in disks && HasNamed(d, s.partitionId.value))
  }

  /** A disk of the required size holds all of this one, with room for a table behind the last partition. */
  predicate RoomFor(disk: DiskEntry, required: u64) {
    forall p :: p in disk.partitions ==> p.startingOffset + p.length + RoomBehind(disk.logicalSectorSize) <= required
  }

  /** The disk has its head, its tail and a stream a partition, and there is room for it. */
  ghost predicate DiskServed(m: Manifest, disk: DiskEntry) {
    && OneHead(m, disk) && OneTail(m, disk) && RoomFor(disk, m.requiredRestoreBytes)
    && forall p :: p in disk.partitions ==> OneCarrier(m, disk, p)
  }

  /**
   The documents are of one backup: each disk has its head, its tail and a stream a
   partition, each stream has its place, and the size required is large enough.
   */
  ghost predicate Corresponds(m: Manifest, layout: DiskLayout, completion: Option<Completion>) {
    && layout.backupUuid == m.uuid
    && (completion == None ||
        (completion.value.backupUuid == m.uuid && completion.value.requiredRestoreBytes == m.requiredRestoreBytes))
    && (forall d :: d in layout.disks ==> DiskServed(m, d))
    && (forall s :: s in m.streams ==> HasItsPlace(s, layout.disks))
    && (forall v :: v in m.volumes ==> exists d :: d in layout.disks && HasNamed(d, v.partitionId))
  }

  lemma EndsAre(m: Manifest, disk: DiskEntry)
    ensures TableStreamsOk(m.streams, disk) <==> OneHead(m, disk) && OneTail(m, disk)
  {
    if TableStreamsOk(m.streams, disk) {
      var head := OnlyOneOfKind(m, disk, DiskHead);
      assert IsFor(m, disk.id, DiskHead, head);
      forall j | IsFor(m, disk.id, DiskHead, j)
        ensures j == head
      {
        assert IsOfKind(m, disk, DiskHead, j);
      }
      var tail := OnlyOneOfKind(m, disk, DiskTail);
      assert IsFor(m, disk.id, DiskTail, tail);
      forall j | IsFor(m, disk.id, DiskTail, j)
        ensures j == tail
      {
        assert IsOfKind(m, disk, DiskTail, j);
      }
    }
    if OneHead(m, disk) && OneTail(m, disk) {
      var head :| IsFor(m, disk.id, DiskHead, head) && m.streams[head].targetOffset == 0 &&
        forall other :: IsFor(m, disk.id, DiskHead, other) ==> other == head;
      AloneOfKind(m, disk.id, DiskHead, head);
      var tail :| IsFor(m, disk.id, DiskTail, tail) &&
        m.streams[tail].targetOffset + m.streams[tail].length == disk.sizeBytes &&
        forall other :: IsFor(m, disk.id, DiskTail, other) ==> other == tail;
      AloneOfKind(m, disk.id, DiskTail, tail);
    }
  }

  lemma AloneOfKind(m: Manifest, diskId: string, kind: StreamKind, j: int)
    requires IsFor(m, diskId, kind, j) && forall other :: IsFor(m, diskId, kind, other) ==> other == j
    ensures OfKind(m.streams, diskId, kind) == [m.streams[j]]
  {
    forall i | 0 <= i < |m.streams|
      ensures m.streams[i].diskId == diskId && m.streams[i].kind == kind <==> i == j
    {
      assert IsFor(m, diskId, kind, i) ==> i == j;
    }
    OnlyOneListed(m.streams, diskId, kind, j);
  }

  lemma SameDisk(disks: seq<DiskEntry>, a: nat, b: nat)
    requires IdsDistinct(DiskIds(disks)) && a < |disks| && b < |disks| && disks[a].id == disks[b].id
    ensures a == b
  {
  }

  lemma PlaceIs(s: Stream, disks: seq<DiskEntry>)
    requires IdsDistinct(DiskIds(disks))
    ensures PlacedInside(s, disks) <==>
              exists d :: d in disks && s.diskId == d.id && s.targetOffset + s.length <= d.sizeBytes
  {
    if d :| d in disks && s.diskId == d.id && s.targetOffset + s.length <= d.sizeBytes {
      var a :| 0 <= a < |disks| && disks[a] == d;
      var found := FindDisk(disks, s.diskId).value;
      var b :| 0 <= b < |disks| && disks[b] == found;
      SameDisk(disks, a, b);
    }
  }

  ghost predicate AllPlaced(m: Manifest, disks: seq<DiskEntry>) {
    forall i :: 0 <= i < |m.streams| ==> PlacedInside(m.streams[i], disks)
  }

  lemma CarrierIsOne(m: Manifest, disks: seq<DiskEntry>, disk: DiskEntry, p: PartitionEntry)
    requires M.ManifestOk(m) && AllPlaced(m, disks) && PartitionCarried(m.streams, disks, disk, p)
    ensures OneCarrier(m, disk, p)
  {
    var j := CarrierFound(m.streams, disks, disk, p);
    assert Points(m, p.id, j);
    forall other | Points(m, p.id, other)
      ensures other == j
    {
      assert PlacedInside(m.streams[other], disks);
      OnlyOneNames(m.streams, disks, disk, p, other, j);
    }
  }

  lemma OneIsCarrier(m: Manifest, disks: seq<DiskEntry>, disk: DiskEntry, p: PartitionEntry)
    requires M.ManifestOk(m) && AllPlaced(m, disks) && OneCarrier(m, disk, p)
    ensures PartitionCarried(m.streams, disks, disk, p)
  {
    var j :| Points(m, p.id, j) && m.streams[j].diskId == disk.id
      && m.streams[j].targetOffset == p.startingOffset && m.streams[j].length == p.length
      && forall other :: Points(m, p.id, other) ==> other == j;
    forall i | 0 <= i < |m.streams|
      ensures NamesPartition(m.streams[i], disks, p.id) <==> i == j
    {
      assert PlacedInside(m.streams[i], disks);
      assert Points(m, p.id, i) ==> i == j;
    }
    OnlyOneCarrier(m.streams, disks, p.id, j);
    FoundIsThatStream(m, j);
    assert M.StreamSound(m.streams[j], m.chunks);
  }

  lemma RoomIs(disk: DiskEntry, required: u64)
    requires DiskOk(disk)
    ensures TargetCovered(disk, required) <==> RoomFor(disk, required)
  {
    TargetIs(disk);
    HighestEndIsMax(disk.partitions);
    if RoomFor(disk, required) {
      var i :| 0 <= i < |disk.partitions| &&
        disk.partitions[i].startingOffset + disk.partitions[i].length == HighestEnd(disk.partitions);
      assert disk.partitions[i] in disk.partitions;
    }
  }

  lemma DiskIs(m: Manifest, disks: seq<DiskEntry>, disk: DiskEntry)
    requires M.ManifestOk(m) && AllPlaced(m, disks) && DiskOk(disk)
    ensures DiskConsistent(m, disks, disk) <==>
              && OneHead(m, disk) && OneTail(m, disk) && RoomFor(disk, m.requiredRestoreBytes)
              && forall p :: p in disk.partitions ==> OneCarrier(m, disk, p)
  {
    EndsAre(m, disk);
    RoomIs(disk, m.requiredRestoreBytes);
    forall i | 0 <= i < |disk.partitions|
      ensures PartitionCarried(m.streams, disks, disk, disk.partitions[i]) <==> OneCarrier(m, disk, disk.partitions[i])
    {
      if PartitionCarried(m.streams, disks, disk, disk.partitions[i]) {
        CarrierIsOne(m, disks, disk, disk.partitions[i]);
      }
      if OneCarrier(m, disk, disk.partitions[i]) {
        OneIsCarrier(m, disks, disk, disk.partitions[i]);
      }
    }
  }

  lemma TableStreamIsUsed(m: Manifest, disks: seq<DiskEntry>, j: nat)
    requires M.ManifestOk(m) && AllPlaced(m, disks) && j < |m.streams| && m.streams[j].partitionId == None
    ensures Referenced(m.streams, disks, m.streams[j].id)
  {
    var s := m.streams[j];
    assert M.StreamSound(s, m.chunks) && PlacedInside(s, disks);
    var d := FindDisk(disks, s.diskId).value;
    assert IsTableStream(s, d) && s in m.streams;
    var k :| 0 <= k < |disks| && disks[k] == d;
    assert Uses(m.streams, disks, disks[k], s.id);
  }

  lemma UsedIsNamed(m: Manifest, layout: DiskLayout, j: nat)
    requires M.ManifestOk(m) && j < |m.streams| && m.streams[j].kind == PartitionKind
    requires Referenced(m.streams, layout.disks, m.streams[j].id) && m.streams[j].partitionId.Some?
    ensures exists d :: d in layout.disks && HasNamed(d, m.streams[j].partitionId.value)
  {
    var k, i := StreamNamesAPartition(m, layout, j);
    assert layout.disks[k].partitions[i] in layout.disks[k].partitions;
    assert HasNamed(layout.disks[k], m.streams[j].partitionId.value);
  }

  /** A stream in its disk is used by the layout exactly if the partition it may name is there. */
  lemma UseIs(m: Manifest, layout: DiskLayout, j: nat)
    requires M.ManifestOk(m) && LayoutOk(layout) && AllPlaced(m, layout.disks) && j < |m.streams|
    ensures Referenced(m.streams, layout.disks, m.streams[j].id) <==>
              m.streams[j].partitionId == None ||
              exists d :: d in layout.disks && HasNamed(d, m.streams[j].partitionId.value)
  {
    var s := m.streams[j];
    if s.partitionId == None {
      TableStreamIsUsed(m, layout.disks, j);
    } else {
      assert M.StreamSound(s, m.chunks);
      if Referenced(m.streams, layout.disks, s.id) {
        UsedIsNamed(m, layout, j);
      }
      if d :| d in layout.disks && HasNamed(d, s.partitionId.value) {
        NamedIsUsed(m, layout.disks, d, j);
      }
    }
  }

  lemma NamedIsUsed(m: Manifest, disks: seq<DiskEntry>, d: DiskEntry, j: nat)
    requires AllPlaced(m, disks) && j < |m.streams| && d in disks
    requires m.streams[j].partitionId.Some? && HasNamed(d, m.streams[j].partitionId.value)
    ensures Referenced(m.streams, disks, m.streams[j].id)
  {
    var s := m.streams[j];
    var p :| p in d.partitions && p.id == s.partitionId.value;
    var i :| 0 <= i < |d.partitions| && d.partitions[i] == p;
    assert PlacedInside(s, disks) && NamesPartition(s, disks, p.id) && s in m.streams;
    CarrierMembers(m.streams, disks, p.id, s.id);
    var k :| 0 <= k < |disks| && disks[k] == d;
    assert CarriesOneOf(m.streams, disks, d.partitions, |d.partitions|, s.id);
    assert Uses(m.streams, disks, disks[k], s.id);
  }

  lemma PlacesAre(m: Manifest, layout: DiskLayout)
    requires M.ManifestOk(m) && LayoutOk(layout)
    ensures (forall s :: s in m.streams ==> HasItsPlace(s, layout.disks)) <==>
              && AllPlaced(m, layout.disks)
              && forall i :: 0 <= i < |m.streams| ==> Referenced(m.streams, layout.disks, m.streams[i].id)
  {
    var disks := layout.disks;
    forall s
      ensures PlacedInside(s, disks) <==>
                exists d :: d in disks && s.diskId == d.id && s.targetOffset + s.length <= d.sizeBytes
    {
      PlaceIs(s, disks);
    }
    if forall s :: s in m.streams ==> HasItsPlace(s, disks) {
      forall i | 0 <= i < |m.streams|
        ensures PlacedInside(m.streams[i], disks)
      {
        assert m.streams[i] in m.streams;
      }
    }
    if AllPlaced(m, disks) {
      forall i | 0 <= i < |m.streams|
        ensures HasItsPlace(m.streams[i], disks) <==> Referenced(m.streams, disks, m.streams[i].id)
      {
        assert PlacedInside(m.streams[i], disks);
        UseIs(m, layout, i);
      }
      if forall s :: s in m.streams ==> HasItsPlace(s, disks) {
        forall i | 0 <= i < |m.streams|
          ensures Referenced(m.streams, disks, m.streams[i].id)
        {
          assert m.streams[i] in m.streams;
        }
      }
    }
  }

  lemma VolumePlacesAre(m: Manifest, disks: seq<DiskEntry>)
    ensures VolumesPlaced(m.volumes, disks) <==>
              forall v :: v in m.volumes ==> exists d :: d in disks && HasNamed(d, v.partitionId)
  {
    forall id
      ensures HasPartition(disks, id) <==> exists d :: d in disks && HasNamed(d, id)
    {
    }
    if forall v :: v in m.volumes ==> exists d :: d in disks && HasNamed(d, v.partitionId) {
      forall i | 0 <= i < |m.volumes|
        ensures HasPartition(disks, m.volumes[i].partitionId)
      {
        assert m.volumes[i] in m.volumes;
      }
    }
  }

  lemma DisksAre(m: Manifest, layout: DiskLayout)
    requires M.ManifestOk(m) && LayoutOk(layout) && AllPlaced(m, layout.disks)
    ensures (forall k :: 0 <= k < |layout.disks| ==> DiskConsistent(m, layout.disks, layout.disks[k])) <==>
              forall d :: d in layout.disks ==> DiskServed(m, d)
  {
    var disks := layout.disks;
    forall k | 0 <= k < |disks|
      ensures disks[k] in disks && (DiskConsistent(m, disks, disks[k]) <==> DiskServed(m, disks[k]))
    {
      DiskIs(m, disks, disks[k]);
    }
  }

  /** No finding about sound documents against each other exactly when they are of one backup. */
  lemma AgreeingDocumentsAre(m: Manifest, layout: DiskLayout, completion: Option<Completion>)
    requires M.ManifestOk(m) && LayoutOk(layout)
    ensures Consistent(m, layout, completion) <==> Corresponds(m, layout, completion)
  {
    PlacesAre(m, layout);
    VolumePlacesAre(m, layout.disks);
    if AllPlaced(m, layout.disks) {
      DisksAre(m, layout);
    }
  }

  /**
   The documents of a folder are accepted exactly when the manifest and the layout are
   sound and the three are of one backup.
   */
  lemma AcceptedDocumentsAre(m: Manifest, layout: DiskLayout, completion: Option<Completion>)
    ensures Accepted(m, layout, completion) <==>
              && PlainFormat(m.format, ManifestKind) && PlainParameters(m) && PlainChunks(m)
              && PlainStreams(m) && PlainVolumes(m) && PlainTotals(m)
              && PlainLayout(layout) && Corresponds(m, layout, completion)
  {
    SoundManifestsAre(m);
    SoundLayoutsAre(layout);
    if M.ManifestOk(m) && LayoutOk(layout) {
      AgreeingDocumentsAre(m, layout, completion);
    }
  }

  // ---- what opens ---------------------------------------------------------------------------------------

  /** The folder holds the text of a document under its name. */
  predicate HasText(codec: DocumentCodec, files: Documents, name: string, document: Document) {
    name in files && codec.decode(files[name]) == Some(document)
  }

  /**
   A folder opens exactly when it holds a sound manifest, a sound layout and a sound
   completion document, all of one backup, and every file listed in the last is there
   with the length and the name listed.
   */
  lemma OpenFoldersAre(codec: DocumentCodec, files: Documents, m: Manifest, layout: DiskLayout, c: Completion)
    requires HasText(codec, files, "manifest.json", ManifestDocument(m))
    requires HasText(codec, files, "disk-layout.json", LayoutDocument(layout))
    requires HasText(codec, files, "completion.json", CompletionDocument(c))
    ensures Opens(codec, files) <==>
              && PlainFormat(m.format, ManifestKind) && PlainParameters(m) && PlainChunks(m)
              && PlainStreams(m) && PlainVolumes(m) && PlainTotals(m)
              && PlainLayout(layout) && PlainCompletion(c) && Corresponds(m, layout, Some(c))
              && forall d :: d in c.documents ==>
                   d.path in files && |files[d.path]| == d.bytes && codec.name(files[d.path]) == d.hash
  {
    HeldDocumentsAreUnique(codec, files, m, layout, c);
    AcceptedDocumentsAre(m, layout, Some(c));
    SoundCompletionsAre(c);
    if Opens(codec, files) {
      forall i | 0 <= i < |c.documents|
        ensures var d := c.documents[i];
                d.path in files && |files[d.path]| == d.bytes && codec.name(files[d.path]) == d.hash
      {
        OpenedDocumentsAreRecorded(codec, files, m, layout, c, i);
      }
    }
    if PlainCompletion(c) && forall d :: d in c.documents ==>
        d.path in files && |files[d.path]| == d.bytes && codec.name(files[d.path]) == d.hash {
      forall i | 0 <= i < |c.documents|
        ensures DigestMatches(codec, files, c.documents[i])
      {
        assert c.documents[i] in c.documents;
      }
    }
  }

  /** A folder that opens holds the three documents. */
  lemma NothingElseOpens(codec: DocumentCodec, files: Documents)
    requires Opens(codec, files)
    ensures exists m, layout, c ::
              && HasText(codec, files, "manifest.json", ManifestDocument(m))
              && HasText(codec, files, "disk-layout.json", LayoutDocument(layout))
              && HasText(codec, files, "completion.json", CompletionDocument(c))
  {
    var m, layout, c :| Openable(codec, files, m, layout, c);
    assert HasText(codec, files, "manifest.json", ManifestDocument(m));
    assert HasText(codec, files, "disk-layout.json", LayoutDocument(layout));
    assert HasText(codec, files, "completion.json", CompletionDocument(c));
  }

  lemma AcceptedPartitionFits(m: Manifest, layout: DiskLayout, completion: Option<Completion>, k: nat, i: nat)
    requires Accepted(m, layout, completion) && k < |layout.disks| && i < |layout.disks[k].partitions|
    ensures layout.backupUuid == m.uuid && layout.disks[k].logicalSectorSize > 0
    ensures PlainPartition(layout.disks[k].partitions[i], layout.disks[k])
  {
    AcceptedDocumentsAre(m, layout, completion);
    assert layout.disks[k] in layout.disks && layout.disks[k].partitions[i] in layout.disks[k].partitions;
  }

  /** With the layout of another backup, or one with a partition out of line or out of its disk, no folder opens. */
  lemma WrongLayoutDoesNotOpen(codec: DocumentCodec, files: Documents, m: Manifest, layout: DiskLayout, k: nat, i: nat)
    requires HasText(codec, files, "manifest.json", ManifestDocument(m))
    requires HasText(codec, files, "disk-layout.json", LayoutDocument(layout))
    requires k < |layout.disks| && i < |layout.disks[k].partitions| && layout.disks[k].logicalSectorSize > 0
    requires var disk, p := layout.disks[k], layout.disks[k].partitions[i];
             || layout.backupUuid != m.uuid
             || p.startingOffset % disk.logicalSectorSize != 0 || p.length % disk.logicalSectorSize != 0
             || p.startingOffset + p.length > disk.sizeBytes
    ensures !Opens(codec, files)
  {
    if x, y, c :| Openable(codec, files, x, y, c) {
      AcceptedPartitionFits(x, y, Some(c), k, i);
    }
  }

  /** Nor does one with the completion document of another backup, or of another size required. */
  lemma WrongMarkerDoesNotOpen(codec: DocumentCodec, files: Documents, m: Manifest, c: Completion)
    requires HasText(codec, files, "manifest.json", ManifestDocument(m))
    requires HasText(codec, files, "completion.json", CompletionDocument(c))
    requires c.backupUuid != m.uuid || c.requiredRestoreBytes != m.requiredRestoreBytes
    ensures !Opens(codec, files)
  {
  }
}
