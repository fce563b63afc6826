/**
 Checking the documents of a backup against each other (crates/mjolnir-image/src/set.rs).
 */
module CrossCheck {
  import opened Arith
  import opened Format

  datatype Issue =
    | DifferentBackups
    | CompletionOfAnother
    | CompletionSizeDiffers
    | NotOnAnyDisk(id: string)
    | OutsideItsDisk(id: string)
    | HeadsNotOne(diskId: string)
    | TailsNotOne(diskId: string)
    | HeadNotAtZero(id: string)
    | TailNotAtEnd(id: string)
    | NotCarried(partitionId: string)
    | CarriedBy(partitionId: string, streams: seq<string>)
    | CarrierDiffers(partitionId: string)
    | TargetTooSmall(diskId: string)
    | Unreferenced(id: string)
    | VolumeOnNoPartition(id: string)

  // ---- looking things up ------------------------------------------------------------------

  function FindDisk(disks: seq<DiskEntry>, id: string): (d: Option<DiskEntry>)
    ensures d.Some? ==> d.value in disks && d.value.id == id
    ensures d.None? ==> forall e :: e in disks ==> e.id != id
  {
    if disks == [] then None
    else if disks[0].id == id then Some(disks[0])
    else
      FindDisk(disks[1..], id)
  }

  function FindStream(streams: seq<Stream>, id: string): (s: Option<Stream>)
    ensures s.Some? ==> s.value in streams && s.value.id == id
    ensures s.None? ==> forall t :: t in streams ==> t.id != id
  {
    if streams == [] then None
    else if streams[0].id == id then Some(streams[0])
    else
      FindStream(streams[1..], id)
  }

  /** With ids that differ, a stream is found by its own. */
  lemma FindStreamAt(streams: seq<Stream>, j: nat)
    requires j < |streams| && forall a, b :: 0 <= a < b < |streams| ==> streams[a].id != streams[b].id
    ensures FindStream(streams, streams[j].id) == Some(streams[j])
  {
  }

  predicate NamesPartition(s: Stream, disks: seq<DiskEntry>, partitionId: string) {
    FindDisk(disks, s.diskId).Some? && s.partitionId == Some(partitionId)
  }

  /** The streams naming a partition, in manifest order, as the index lists them. */
  function CarrierIds(streams: seq<Stream>, disks: seq<DiskEntry>, partitionId: string): seq<string> {
    if streams == [] then []
    else
      var before := CarrierIds(streams[..|streams| - 1], disks, partitionId);
      var last := streams[|streams| - 1];
      if NamesPartition(last, disks, partitionId) then before + [last.id] else before
  }

  function OfKind(streams: seq<Stream>, diskId: string, kind: StreamKind): seq<Stream> {
    if streams == [] then []
    else
      var before := OfKind(streams[..|streams| - 1], diskId, kind);
      var last := streams[|streams| - 1];
      if last.diskId == diskId && last.kind == kind then before + [last] else before
  }

  lemma {:induction false} OfKindMembers(streams: seq<Stream>, diskId: string, kind: StreamKind)
    ensures forall s :: s in OfKind(streams, diskId, kind) <==> s in streams && s.diskId == diskId && s.kind == kind
  {
    if streams != [] {
      OfKindMembers(streams[..|streams| - 1], diskId, kind);
      assert streams == streams[..|streams| - 1] + [streams[|streams| - 1]];
    }
  }

  lemma {:induction false} CarrierMembers(streams: seq<Stream>, disks: seq<DiskEntry>, partitionId: string, id: string)
    ensures id in CarrierIds(streams, disks, partitionId) <==>
            exists s :: s in streams && s.id == id && NamesPartition(s, disks, partitionId)
  {
    if streams != [] {
      CarrierMembers(streams[..|streams| - 1], disks, partitionId, id);
      assert streams == streams[..|streams| - 1] + [streams[|streams| - 1]];
    }
  }

  /** The only stream of a kind on a disk is the one listed. */
  lemma {:induction false} OnlyOneListed(streams: seq<Stream>, diskId: string, kind: StreamKind, j: int)
    requires forall i :: 0 <= i < |streams| ==> (streams[i].diskId == diskId && streams[i].kind == kind <==> i == j)
    ensures OfKind(streams, diskId, kind) == if 0 <= j < |streams| then [streams[j]] else []
  {
    if streams != [] {
      var init := streams[..|streams| - 1];
      assert forall i :: 0 <= i < |init| ==> init[i] == streams[i];
      OnlyOneListed(init, diskId, kind, j);
    }
  }

  lemma {:induction false} OnlyOneCarrier(streams: seq<Stream>, disks: seq<DiskEntry>, partitionId: string, j: int)
    requires forall i :: 0 <= i < |streams| ==> (NamesPartition(streams[i], disks, partitionId) <==> i == j)
    ensures CarrierIds(streams, disks, partitionId) == if 0 <= j < |streams| then [streams[j].id] else []
  {
    if streams != [] {
      var init := streams[..|streams| - 1];
      assert forall i :: 0 <= i < |init| ==> init[i] == streams[i];
      OnlyOneCarrier(init, disks, partitionId, j);
    }
  }

  // ---- what has to hold --------------------------------------------------------------------

  predicate PlacedInside(s: Stream, disks: seq<DiskEntry>) {
    var d := FindDisk(disks, s.diskId);
    d.Some? && s.targetOffset + s.length <= d.value.sizeBytes
  }

  /** One head at the start of the disk and one tail at its end. */
  ghost predicate TableStreamsOk(streams: seq<Stream>, disk: DiskEntry) {
    var heads, tails := OfKind(streams, disk.id, DiskHead), OfKind(streams, disk.id, DiskTail);
    && |heads| == 1 && heads[0].targetOffset == 0
    && |tails| == 1 && tails[0].targetOffset + tails[0].length == disk.sizeBytes
  }

  /** The stream describes the same place as the partition. */
  predicate SamePlace(s: Stream, disk: DiskEntry, p: PartitionEntry) {
    s.kind.PartitionKind? && s.diskId == disk.id && s.length == p.length && s.targetOffset == p.startingOffset
  }

  /** Exactly one stream carries the partition, and to its own place. */
  predicate PartitionCarried(streams: seq<Stream>, disks: seq<DiskEntry>, disk: DiskEntry, p: PartitionEntry) {
    var carriers := CarrierIds(streams, disks, p.id);
    |carriers| == 1 &&
    var s := FindStream(streams, carriers[0]);
    s.Some? && SamePlace(s.value, disk, p)
  }

  /** The first `k` partitions of the disk are carried. */
  ghost predicate AllCarried(streams: seq<Stream>, disks: seq<DiskEntry>, disk: DiskEntry, k: nat)
    requires k <= |disk.partitions|
  {
    forall i :: 0 <= i < k ==> PartitionCarried(streams, disks, disk, disk.partitions[i])
  }

  predicate TargetCovered(disk: DiskEntry, required: u64) {
    var target := RequiredTarget(disk);
    target.Success? && target.value <= required
  }

  ghost predicate DiskConsistent(m: Manifest, disks: seq<DiskEntry>, disk: DiskEntry) {
    && TableStreamsOk(m.streams, disk)
    && AllCarried(m.streams, disks, disk, |disk.partitions|)
    && TargetCovered(disk, m.requiredRestoreBytes)
  }

  predicate IsTableStream(s: Stream, disk: DiskEntry) {
    s.diskId == disk.id && (s.kind.DiskHead? || s.kind.DiskTail?)
  }

  /** One of the first `k` partitions is carried by a stream with this id. */
  ghost predicate CarriesOneOf(streams: seq<Stream>, disks: seq<DiskEntry>, parts: seq<PartitionEntry>, k: nat,
      id: string)
    requires k <= |parts|
  {
    exists i :: 0 <= i < k && id in CarrierIds(streams, disks, parts[i].id)
  }

  /** The disk has a use for the stream with this id. */
  ghost predicate Uses(streams: seq<Stream>, disks: seq<DiskEntry>, disk: DiskEntry, id: string) {
    || (exists s :: s in streams && s.id == id && IsTableStream(s, disk))
    || CarriesOneOf(streams, disks, disk.partitions, |disk.partitions|, id)
  }

  ghost predicate Referenced(streams: seq<Stream>, disks: seq<DiskEntry>, id: string) {
    exists k :: 0 <= k < |disks| && Uses(streams, disks, disks[k], id)
  }

  predicate CompletionAgrees(m: Manifest, completion: Option<Completion>) {
    completion.Some? ==>
      completion.value.backupUuid == m.uuid && completion.value.requiredRestoreBytes == m.requiredRestoreBytes
  }

  ghost predicate Consistent(m: Manifest, layout: DiskLayout, completion: Option<Completion>) {
    && layout.backupUuid == m.uuid && CompletionAgrees(m, completion)
    && (forall i :: 0 <= i < |m.streams| ==> PlacedInside(m.streams[i], layout.disks))
    && (forall k :: 0 <= k < |layout.disks| ==> DiskConsistent(m, layout.disks, layout.disks[k]))
    && (forall i :: 0 <= i < |m.streams| ==> Referenced(m.streams, layout.disks, m.streams[i].id))
    && VolumesPlaced(m.volumes, layout.disks)
  }

  predicate HasPartition(disks: seq<DiskEntry>, id: string) {
    exists d :: d in disks && exists p :: p in d.partitions && p.id == id
  }

  /** Every volume sits on a partition of the layout. */
  ghost predicate VolumesPlaced(volumes: seq<VolumeEntry>, disks: seq<DiskEntry>) {
    forall i :: 0 <= i < |volumes| ==> HasPartition(disks, volumes[i].partitionId)
  }

  /** A completion document that agrees with the manifest changes nothing. */
  lemma AgreeingCompletion(m: Manifest, layout: DiskLayout, c: Completion)
    requires c.backupUuid == m.uuid && c.requiredRestoreBytes == m.requiredRestoreBytes
    ensures Consistent(m, layout, Some(c)) <==> Consistent(m, layout, None)
  {
  }

  // ---- the checks -------------------------------------------------------------------------------

  method CheckIdentity(m: Manifest, layout: DiskLayout, completion: Option<Completion>) returns (issues: seq<Issue>)
    ensures issues == [] <==> layout.backupUuid == m.uuid && CompletionAgrees(m, completion)
  {
    issues := [];
    if layout.backupUuid != m.uuid {
      issues := issues + [DifferentBackups];
    }
    if completion.Some? {
      if completion.value.backupUuid != m.uuid {
        issues := issues + [CompletionOfAnother];
      }
      if completion.value.requiredRestoreBytes != m.requiredRestoreBytes {
        issues := issues + [CompletionSizeDiffers];
      }
    }
  }

  type CarrierIndex = map<string, seq<string>>

  function Listed(index: CarrierIndex, partitionId: string): seq<string> {
    if partitionId in index then index[partitionId] else []
  }

  /** The index lists exactly the streams naming each partition. */
  ghost predicate Indexes(index: CarrierIndex, streams: seq<Stream>, disks: seq<DiskEntry>) {
    forall p :: Listed(index, p) == CarrierIds(streams, disks, p)
  }

  /** Checks where every stream goes, and lists the streams by the partition they name. */
  method CheckPlacements(streams: seq<Stream>, disks: seq<DiskEntry>) returns (issues: seq<Issue>, index: CarrierIndex)
    ensures issues == [] <==> forall i :: 0 <= i < |streams| ==> PlacedInside(streams[i], disks)
    ensures Indexes(index, streams, disks)
  {
    issues := [];
    index := map[];
    for k := 0 to |streams|
      invariant issues == [] <==> forall i :: 0 <= i < k ==> PlacedInside(streams[i], disks)
      invariant Indexes(index, streams[..k], disks)
    {
      var s := streams[k];
      assert streams[..k + 1][..k] == streams[..k];
      var disk := FindDisk(disks, s.diskId);
      if disk.None? {
        issues := issues + [NotOnAnyDisk(s.id)];
      } else {
        if s.partitionId.Some? {
          index := index[s.partitionId.value := Listed(index, s.partitionId.value) + [s.id]];
        }
        if EnsureWithin(s.targetOffset, s.length, disk.value.sizeBytes).Failure? {
          issues := issues + [OutsideItsDisk(s.id)];
        }
      }
    }
    assert streams[..|streams|] == streams;
  }

  function StreamIds(streams: seq<Stream>): set<string> {
    set s | s in streams :: s.id
  }

  /** Checks that a disk has one head at its start and one tail at its end. */
  method CheckTableStreams(streams: seq<Stream>, disk: DiskEntry) returns (issues: seq<Issue>, referenced: set<string>)
    ensures issues == [] <==> TableStreamsOk(streams, disk)
    ensures forall id :: id in referenced <==> exists s :: s in streams && s.id == id && IsTableStream(s, disk)
  {
    var heads, tails := OfKind(streams, disk.id, DiskHead), OfKind(streams, disk.id, DiskTail);
    OfKindMembers(streams, disk.id, DiskHead);
    OfKindMembers(streams, disk.id, DiskTail);
    referenced := StreamIds(heads) + StreamIds(tails);
    issues := [];
    if |heads| != 1 {
      issues := issues + [HeadsNotOne(disk.id)];
    }
    if |tails| != 1 {
      issues := issues + [TailsNotOne(disk.id)];
    }
    for k := 0 to |heads|
      invariant issues == [] <==> |heads| == |tails| == 1 && forall i :: 0 <= i < k ==> heads[i].targetOffset == 0
    {
      if heads[k].targetOffset != 0 {
        issues := issues + [HeadNotAtZero(heads[k].id)];
      }
    }
    for k := 0 to |tails|
      invariant issues == [] <==>
                && |heads| == |tails| == 1 && heads[0].targetOffset == 0
                && forall i :: 0 <= i < k ==> tails[i].targetOffset + tails[i].length == disk.sizeBytes
    {
      var end := RangeEnd(tails[k].targetOffset, tails[k].length);
      if end.Failure? || end.value != disk.sizeBytes {
        issues := issues + [TailNotAtEnd(tails[k].id)];
      }
    }
  }

  /** Checks that exactly one stream carries a partition, and to the right place. */
  method CheckPartition(streams: seq<Stream>, disks: seq<DiskEntry>, disk: DiskEntry, p: PartitionEntry,
      carriers: seq<string>)
    returns (issues: seq<Issue>)
    requires carriers == CarrierIds(streams, disks, p.id)
    ensures issues == [] <==> PartitionCarried(streams, disks, disk, p)
  {
    if carriers == [] {
      return [NotCarried(p.id)];
    }
    if |carriers| > 1 {
      return [CarriedBy(p.id, carriers)];
    }
    CarrierMembers(streams, disks, p.id, carriers[0]);
    var stream := FindStream(streams, carriers[0]).value;
    issues := [];
    if !stream.kind.PartitionKind? {
      issues := issues + [CarrierDiffers(p.id)];
    }
    if stream.diskId != disk.id {
      issues := issues + [CarrierDiffers(p.id)];
    }
    if stream.length != p.length {
      issues := issues + [CarrierDiffers(p.id)];
    }
    if stream.targetOffset != p.startingOffset {
      issues := issues + [CarrierDiffers(p.id)];
    }
  }

  function AsSet(ids: seq<string>): (s: set<string>)
    ensures forall id :: id in s <==> id in ids
  {
    set id | id in ids
  }

  ghost predicate NotesCarriers(referenced: set<string>, streams: seq<Stream>, disks: seq<DiskEntry>,
      parts: seq<PartitionEntry>, k: nat)
    requires k <= |parts|
  {
    forall id :: id in referenced <==> CarriesOneOf(streams, disks, parts, k, id)
  }

  lemma CarriersNoted(streams: seq<Stream>, disks: seq<DiskEntry>, parts: seq<PartitionEntry>, k: nat,
      referenced: set<string>)
    requires k < |parts| && NotesCarriers(referenced, streams, disks, parts, k)
    ensures NotesCarriers(referenced + AsSet(CarrierIds(streams, disks, parts[k].id)), streams, disks, parts, k + 1)
  {
  }

  /** Checks the partitions of a disk, and notes the streams that carry them. */
  method CheckPartitions(streams: seq<Stream>, disks: seq<DiskEntry>, disk: DiskEntry, index: CarrierIndex)
    returns (issues: seq<Issue>, referenced: set<string>)
    requires Indexes(index, streams, disks)
    ensures issues == [] <==> AllCarried(streams, disks, disk, |disk.partitions|)
    ensures NotesCarriers(referenced, streams, disks, disk.partitions, |disk.partitions|)
  {
    issues, referenced := [], {};
    var parts := disk.partitions;
    for k := 0 to |parts|
      invariant issues == [] <==> AllCarried(streams, disks, disk, k)
      invariant NotesCarriers(referenced, streams, disks, parts, k)
    {
      var carriers := Listed(index, parts[k].id);
      assert carriers == CarrierIds(streams, disks, parts[k].id);
      var found := CheckPartition(streams, disks, disk, parts[k], carriers);
      issues := issues + found;
      CarriersNoted(streams, disks, parts, k, referenced);
      referenced := referenced + AsSet(carriers);
    }
  }

  /** Checks everything recorded about one disk, and notes which streams it uses. */
  method CheckDisk(m: Manifest, disks: seq<DiskEntry>, disk: DiskEntry, index: CarrierIndex)
    returns (issues: seq<Issue>, referenced: set<string>)
    requires Indexes(index, m.streams, disks)
    ensures issues == [] <==> DiskConsistent(m, disks, disk)
    ensures forall id :: id in referenced <==> Uses(m.streams, disks, disk, id)
  {
    var table, tableStreams := CheckTableStreams(m.streams, disk);
    var parts, carriers := CheckPartitions(m.streams, disks, disk, index);
    issues, referenced := table + parts, tableStreams + carriers;
    var target := RequiredTargetBytes(disk);
    if target.Failure? || target.value > m.requiredRestoreBytes {
      issues := issues + [TargetTooSmall(disk.id)];
    }
  }

  /** No finding is reported exactly when the documents are consistent. */
  method CheckDocuments(m: Manifest, layout: DiskLayout, completion: Option<Completion>) returns (issues: seq<Issue>)
    ensures issues == [] <==> Consistent(m, layout, completion)
  {
    issues := CheckIdentity(m, layout, completion);
    var disks := layout.disks;
    var placement, index := CheckPlacements(m.streams, disks);
    var perDisk, referenced := CheckDisks(m, disks, index);
    var unused := CheckReferenced(m.streams, disks, referenced);
    var volumes := CheckVolumes(m.volumes, disks);
    issues := issues + placement + perDisk + unused + volumes;
  }

  method CheckVolumes(volumes: seq<VolumeEntry>, disks: seq<DiskEntry>) returns (issues: seq<Issue>)
    ensures issues == [] <==> VolumesPlaced(volumes, disks)
  {
    issues := [];
    for k := 0 to |volumes|
      invariant issues == [] <==> forall i :: 0 <= i < k ==> HasPartition(disks, volumes[i].partitionId)
    {
      if !HasPartition(disks, volumes[k].partitionId) {
        issues := issues + [VolumeOnNoPartition(volumes[k].id)];
      }
    }
  }

  method CheckDisks(m: Manifest, disks: seq<DiskEntry>, index: CarrierIndex)
    returns (issues: seq<Issue>, referenced: set<string>)
    requires Indexes(index, m.streams, disks)
    ensures issues == [] <==> forall k :: 0 <= k < |disks| ==> DiskConsistent(m, disks, disks[k])
    ensures forall id :: id in referenced <==> Referenced(m.streams, disks, id)
  {
    issues, referenced := [], {};
    for k := 0 to |disks|
      invariant issues == [] <==> forall i :: 0 <= i < k ==> DiskConsistent(m, disks, disks[i])
      invariant forall id :: id in referenced <==> exists i :: 0 <= i < k && Uses(m.streams, disks, disks[i], id)
    {
      var found, used := CheckDisk(m, disks, disks[k], index);
      issues := issues + found;
      referenced := referenced + used;
    }
  }

  method CheckReferenced(streams: seq<Stream>, disks: seq<DiskEntry>, referenced: set<string>)
    returns (issues: seq<Issue>)
    requires forall id :: id in referenced <==> Referenced(streams, disks, id)
    ensures issues == [] <==> forall i :: 0 <= i < |streams| ==> Referenced(streams, disks, streams[i].id)
  {
    issues := [];
    for k := 0 to |streams|
      invariant issues == [] <==> forall i :: 0 <= i < k ==> Referenced(streams, disks, streams[i].id)
    {
      if streams[k].id !in referenced {
        issues := issues + [Unreferenced(streams[k].id)];
      }
    }
  }
}
