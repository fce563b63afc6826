/**
 Checking a disk layout on its own (crates/mjolnir-image/src/disk_layout.rs).
 */
module LayoutCheck {
  import opened Arith
  import opened Sorting
  import opened Extents
  import opened Overlaps
  import opened Format
  import opened Shapes

  datatype Issue =
    | BadFormat(findings: nat)
    | NotAGuid(object: string)
    | NoDisks
    | DuplicateDisk(id: string)
    | EmptyDisk
    | NotGpt
    | BadSectorSize
    | SizeNotInSectors
    | BadPhysicalSectorSize
    | NoPartitions
    | DuplicatePartition(id: string)
    | DuplicateNumber(number: u32)
    | EmptyPartition(id: string)
    | OutsideDisk(id: string)
    | NotAligned(id: string)
    | AtOffsetZero(id: string)
    | PartitionsOverlap
    | TargetUncountable

  // ---- one partition ----------------------------------------------------------------------

  predicate SectorOk(disk: DiskEntry) {
    disk.logicalSectorSize == 512 || disk.logicalSectorSize == 4096
  }

  predicate PartitionOk(p: PartitionEntry, disk: DiskEntry) {
    && p.length > 0 && p.startingOffset > 0 && IsGuid(p.typeGuid) && IsGuid(p.uniqueGuid)
    && p.startingOffset + p.length <= disk.sizeBytes
    && (SectorOk(disk) ==> p.startingOffset % disk.logicalSectorSize == 0 && p.length % disk.logicalSectorSize == 0)
  }

  method ValidatePartition(p: PartitionEntry, disk: DiskEntry) returns (issues: seq<Issue>)
    ensures issues == [] <==> PartitionOk(p, disk)
  {
    issues := [];
    if p.length == 0 {
      issues := issues + [EmptyPartition(p.id)];
    }
    var typeOk := LooksLikeGuid(p.typeGuid);
    if !typeOk {
      issues := issues + [NotAGuid(p.id)];
    }
    var uniqueOk := LooksLikeGuid(p.uniqueGuid);
    if !uniqueOk {
      issues := issues + [NotAGuid(p.id)];
    }
    if EnsureWithin(p.startingOffset, p.length, disk.sizeBytes).Failure? {
      issues := issues + [OutsideDisk(p.id)];
    }
    if SectorOk(disk) {
      if p.startingOffset % disk.logicalSectorSize != 0 || p.length % disk.logicalSectorSize != 0 {
        issues := issues + [NotAligned(p.id)];
      }
    }
    if p.startingOffset == 0 {
      issues := issues + [AtOffsetZero(p.id)];
    }
  }

  // ---- the partitions of a disk ---------------------------------------------------------------

  function PartitionRange(p: PartitionEntry): ByteRange {
    ByteRange(p.startingOffset, p.length)
  }

  function PartitionRanges(parts: seq<PartitionEntry>): (rs: seq<ByteRange>)
    ensures |rs| == |parts| && forall i :: 0 <= i < |parts| ==> rs[i] == PartitionRange(parts[i])
  {
    seq(|parts|, i requires 0 <= i < |parts| => PartitionRange(parts[i]))
  }

  ghost predicate IdsDistinct(ids: seq<string>) {
    forall i, j :: 0 <= i < j < |ids| ==> ids[i] != ids[j]
  }

  function PartitionIds(parts: seq<PartitionEntry>): (ids: seq<string>)
    ensures |ids| == |parts| && forall i :: 0 <= i < |parts| ==> ids[i] == parts[i].id
  {
    seq(|parts|, i requires 0 <= i < |parts| => parts[i].id)
  }

  ghost predicate EachPartitionOk(parts: seq<PartitionEntry>, disk: DiskEntry) {
    && (forall i :: 0 <= i < |parts| ==> PartitionOk(parts[i], disk))
    && (forall i, j :: 0 <= i < j < |parts| ==> parts[i].number != parts[j].number)
  }

  /** None of the ids has been met before, and none comes twice. */
  ghost predicate NewIds(known: set<string>, ids: seq<string>) {
    IdsDistinct(ids) && forall i :: 0 <= i < |ids| ==> ids[i] !in known
  }

  function IdSet(ids: seq<string>): set<string> {
    set id | id in ids
  }

  lemma NewIdsSnoc(known: set<string>, ids: seq<string>, id: string)
    ensures NewIds(known, ids + [id]) <==> NewIds(known, ids) && id !in known + IdSet(ids)
    ensures IdSet(ids + [id]) == IdSet(ids) + {id}
  {
    var more := ids + [id];
    assert forall i :: 0 <= i < |ids| ==> more[i] == ids[i];
    assert more[|ids|] == id;
  }

  lemma EachPartitionOkSnoc(parts: seq<PartitionEntry>, p: PartitionEntry, disk: DiskEntry)
    ensures EachPartitionOk(parts + [p], disk) <==>
            && EachPartitionOk(parts, disk) && PartitionOk(p, disk)
            && forall i :: 0 <= i < |parts| ==> parts[i].number != p.number
  {
    var more := parts + [p];
    assert forall i :: 0 <= i < |parts| ==> more[i] == parts[i];
    assert more[|parts|] == p;
  }

  /** The numbers of the first `k` partitions. */
  ghost predicate NumbersOf(numbers: set<u32>, parts: seq<PartitionEntry>, k: nat)
    requires k <= |parts|
  {
    forall n :: n in numbers <==> exists i :: 0 <= i < k && parts[i].number == n
  }

  lemma NumbersStep(numbers: set<u32>, parts: seq<PartitionEntry>, k: nat)
    requires k < |parts| && NumbersOf(numbers, parts, k)
    ensures NumbersOf(numbers + {parts[k].number}, parts, k + 1)
    ensures parts[k].number in numbers <==> exists i :: 0 <= i < k && parts[..k][i].number == parts[k].number
  {
    assert forall i :: 0 <= i < k ==> parts[..k][i] == parts[i];
  }

  lemma PartitionIdsSnoc(parts: seq<PartitionEntry>, p: PartitionEntry)
    ensures PartitionIds(parts + [p]) == PartitionIds(parts) + [p.id]
  {
  }

  /** One partition, against the ids and numbers met before it. */
  method ValidateNextPartition(part: PartitionEntry, disk: DiskEntry, ids: set<string>, numbers: set<u32>)
    returns (issues: seq<Issue>)
    ensures issues == [] <==> PartitionOk(part, disk) && part.id !in ids && part.number !in numbers
  {
    issues := [];
    if part.id in ids {
      issues := issues + [DuplicatePartition(part.id)];
    }
    if part.number in numbers {
      issues := issues + [DuplicateNumber(part.number)];
    }
    var found := ValidatePartition(part, disk);
    issues := issues + found;
  }

  /** Checks each partition of a disk, against the ids met on the disks before it. */
  method ValidatePartitions(disk: DiskEntry, known: set<string>) returns (issues: seq<Issue>, ids: set<string>)
    ensures issues == [] <==> EachPartitionOk(disk.partitions, disk) && NewIds(known, PartitionIds(disk.partitions))
    ensures ids == known + IdSet(PartitionIds(disk.partitions))
  {
    issues := [];
    ids := known;
    var numbers: set<u32> := {};
    var parts := disk.partitions;
    for k := 0 to |parts|
      invariant ids == known + IdSet(PartitionIds(parts[..k]))
      invariant NumbersOf(numbers, parts, k)
      invariant issues == [] <==> EachPartitionOk(parts[..k], disk) && NewIds(known, PartitionIds(parts[..k]))
    {
      var part := parts[k];
      var found := ValidateNextPartition(part, disk, ids, numbers);
      assert parts[..k + 1] == parts[..k] + [part];
      PartitionIdsSnoc(parts[..k], part);
      EachPartitionOkSnoc(parts[..k], part, disk);
      NewIdsSnoc(known, PartitionIds(parts[..k]), part.id);
      NumbersStep(numbers, parts, k);
      issues := issues + found;
      ids := ids + {part.id};
      numbers := numbers + {part.number};
    }
    assert parts[..|parts|] == parts;
  }

  // ---- one disk ---------------------------------------------------------------------------------

  predicate GeometryOk(disk: DiskEntry) {
    && disk.sizeBytes > 0 && disk.isGpt && IsGuid(disk.guid) && SectorOk(disk)
    && disk.sizeBytes % disk.logicalSectorSize == 0
    && disk.physicalSectorSize >= disk.logicalSectorSize
    && disk.physicalSectorSize % disk.logicalSectorSize == 0
  }

  method ValidateGeometry(disk: DiskEntry) returns (issues: seq<Issue>)
    ensures issues == [] <==> GeometryOk(disk)
  {
    issues := [];
    if disk.sizeBytes == 0 {
      issues := issues + [EmptyDisk];
    }
    if !disk.isGpt {
      issues := issues + [NotGpt];
    }
    var guid := LooksLikeGuid(disk.guid);
    if !guid {
      issues := issues + [NotAGuid(disk.id)];
    }
    if !SectorOk(disk) {
      issues := issues + [BadSectorSize];
    } else {
      if disk.sizeBytes % disk.logicalSectorSize != 0 {
        issues := issues + [SizeNotInSectors];
      }
      if disk.physicalSectorSize < disk.logicalSectorSize || disk.physicalSectorSize % disk.logicalSectorSize != 0 {
        issues := issues + [BadPhysicalSectorSize];
      }
    }
  }

  /** A sound disk: partitions inside it, on sector boundaries, and no two sharing a byte. */
  ghost predicate DiskOk(disk: DiskEntry) {
    && GeometryOk(disk) && disk.partitions != []
    && EachPartitionOk(disk.partitions, disk)
    && Disjoint(PartitionRanges(disk.partitions))
    && RequiredTarget(disk).Success?
  }

  lemma PartitionsNotEmpty(parts: seq<PartitionEntry>, disk: DiskEntry)
    requires EachPartitionOk(parts, disk)
    ensures NoneEmpty(PartitionRanges(parts)) && AllEndsFit(PartitionRanges(parts))
  {
  }

  method ValidateDisk(disk: DiskEntry, known: set<string>) returns (issues: seq<Issue>, ids: set<string>)
    ensures issues == [] <==> DiskOk(disk) && NewIds(known, PartitionIds(disk.partitions))
    ensures ids == known + IdSet(PartitionIds(disk.partitions))
  {
    issues := ValidateGeometry(disk);
    if disk.partitions == [] {
      issues := issues + [NoPartitions];
    }
    var found, all := ValidatePartitions(disk, known);
    issues := issues + found;
    ids := all;
    var ranges := PartitionRanges(disk.partitions);
    if found == [] {
      PartitionsNotEmpty(disk.partitions, disk);
      SortedCheckIsComplete(ranges);
    }
    var overlaps := CheckAdjacent(SortByKey(ranges, RangeKey));
    if overlaps > 0 {
      issues := issues + [PartitionsOverlap];
    }
    var target := RequiredTargetBytes(disk);
    if target.Failure? {
      issues := issues + [TargetUncountable];
    }
  }

  // ---- the whole layout ---------------------------------------------------------------------------

  function DiskIds(disks: seq<DiskEntry>): (ids: seq<string>)
    ensures |ids| == |disks| && forall i :: 0 <= i < |disks| ==> ids[i] == disks[i].id
  {
    seq(|disks|, i requires 0 <= i < |disks| => disks[i].id)
  }

  /** The ids of all partitions, disk by disk. */
  function AllPartitionIds(disks: seq<DiskEntry>): seq<string> {
    if disks == [] then [] else AllPartitionIds(disks[..|disks| - 1]) + PartitionIds(disks[|disks| - 1].partitions)
  }

  ghost predicate DisksOk(disks: seq<DiskEntry>) {
    && (forall i :: 0 <= i < |disks| ==> DiskOk(disks[i]))
    && IdsDistinct(DiskIds(disks)) && IdsDistinct(AllPartitionIds(disks))
  }

  /** A sound layout: sound disks, and no id used twice for a disk or for a partition. */
  ghost predicate LayoutOk(layout: DiskLayout) {
    FormatOk(layout.format, LayoutKind) && IsGuid(layout.backupUuid) && layout.disks != [] && DisksOk(layout.disks)
  }

  lemma IdsConcat(a: seq<string>, b: seq<string>)
    ensures IdsDistinct(a + b) <==> IdsDistinct(a) && NewIds(IdSet(a), b)
    ensures IdSet(a + b) == IdSet(a) + IdSet(b)
  {
    var all := a + b;
    assert forall i :: 0 <= i < |a| ==> all[i] == a[i];
    assert forall j :: 0 <= j < |b| ==> all[|a| + j] == b[j];
    if IdsDistinct(a) && NewIds(IdSet(a), b) {
      forall i, j | 0 <= i < j < |all|
        ensures all[i] != all[j]
      {
        if i < |a| <= j {
          assert all[i] in IdSet(a) && all[j] == b[j - |a|];
        }
      }
    }
    if IdsDistinct(all) {
      forall j | 0 <= j < |b|
        ensures b[j] !in IdSet(a)
      {
        assert forall i :: 0 <= i < |a| ==> all[i] != all[|a| + j];
      }
      forall i, j | 0 <= i < j < |b|
        ensures b[i] != b[j]
      {
        assert all[|a| + i] != all[|a| + j];
      }
    }
  }

  lemma DisksOkSnoc(disks: seq<DiskEntry>, d: DiskEntry)
    ensures DisksOk(disks + [d]) <==>
            DisksOk(disks) && DiskOk(d) && d.id !in IdSet(DiskIds(disks)) &&
            NewIds(IdSet(AllPartitionIds(disks)), PartitionIds(d.partitions))
    ensures IdSet(DiskIds(disks + [d])) == IdSet(DiskIds(disks)) + {d.id}
    ensures IdSet(AllPartitionIds(disks + [d])) == IdSet(AllPartitionIds(disks)) + IdSet(PartitionIds(d.partitions))
  {
    var more := disks + [d];
    assert more[..|disks|] == disks;
    assert DiskIds(more) == DiskIds(disks) + [d.id];
    NewIdsSnoc({}, DiskIds(disks), d.id);
    IdsConcat(AllPartitionIds(disks), PartitionIds(d.partitions));
    assert forall i :: 0 <= i < |disks| ==> more[i] == disks[i];
    assert more[|disks|] == d;
  }

  /** Looks at the layout apart from its disks. */
  method ValidateHead(layout: DiskLayout) returns (issues: seq<Issue>, warnings: nat)
    ensures warnings == Warnings(layout.format)
    ensures issues == [] <==>
              FormatOk(layout.format, LayoutKind) && IsGuid(layout.backupUuid) && layout.disks != []
  {
    var format;
    format, warnings := CheckFormat(layout.format, LayoutKind);
    issues := if format > 0 then [BadFormat(format)] else [];
    var guid := LooksLikeGuid(layout.backupUuid);
    if !guid {
      issues := issues + [NotAGuid(layout.backupUuid)];
    }
    if layout.disks == [] {
      issues := issues + [NoDisks];
    }
  }

  /** No error is reported exactly when the layout is sound throughout. */
  method ValidateLayout(layout: DiskLayout) returns (issues: seq<Issue>, warnings: nat)
    ensures warnings == Warnings(layout.format)
    ensures issues == [] <==> LayoutOk(layout)
  {
    var disks := layout.disks;
    issues, warnings := ValidateHead(layout);
    ghost var headOk := issues == [];
    var diskIds: set<string>, partitionIds: set<string> := {}, {};
    for k := 0 to |disks|
      invariant diskIds == IdSet(DiskIds(disks[..k]))
      invariant partitionIds == IdSet(AllPartitionIds(disks[..k]))
      invariant issues == [] <==> headOk && DisksOk(disks[..k])
    {
      if disks[k].id in diskIds {
        issues := issues + [DuplicateDisk(disks[k].id)];
      }
      var found, ids := ValidateDisk(disks[k], partitionIds);
      DisksOkSnoc(disks[..k], disks[k]);
      assert disks[..k + 1] == disks[..k] + [disks[k]];
      issues := issues + found;
      diskIds := diskIds + {disks[k].id};
      partitionIds := ids;
    }
    assert disks[..|disks|] == disks;
  }
}
