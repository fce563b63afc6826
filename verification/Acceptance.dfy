/**
 What the linear checks of a backup's documents add up to: the facts about all
 partitions and all streams that a restore relies on.
 */
module Acceptance {
  import opened Arith
  import opened Overlaps
  import opened Store
  import opened Format
  import opened Shapes
  import opened LayoutCheck
  import opened CrossCheck
  import M = ManifestCheck
  import V = Verify

  /** The documents pass every check made on them when a backup is opened. */
  ghost predicate Accepted(m: Manifest, layout: DiskLayout, completion: Option<Completion>) {
    M.ManifestOk(m) && LayoutOk(layout) && Consistent(m, layout, completion)
  }

  // ---- identifiers ------------------------------------------------------------------------

  lemma SameIdSameStream(m: Manifest, i: nat, j: nat)
    requires M.ManifestOk(m) && i < |m.streams| && j < |m.streams| && m.streams[i].id == m.streams[j].id
    ensures i == j
  {
  }

  lemma FoundIsThatStream(m: Manifest, j: nat)
    requires M.ManifestOk(m) && j < |m.streams|
    ensures FindStream(m.streams, m.streams[j].id) == Some(m.streams[j])
  {
  }

  lemma SameIdSameDisk(layout: DiskLayout, a: nat, b: nat)
    requires LayoutOk(layout) && a < |layout.disks| && b < |layout.disks| && layout.disks[a].id == layout.disks[b].id
    ensures a == b
  {
  }

  /** Where in the list of all partition ids the ids of disk `k` start. */
  function IdsBefore(disks: seq<DiskEntry>, k: nat): nat
    requires k <= |disks|
  {
    |AllPartitionIds(disks[..k])|
  }

  lemma {:induction false} PartitionIdAt(disks: seq<DiskEntry>, k: nat, i: nat)
    requires k < |disks| && i < |disks[k].partitions|
    ensures IdsBefore(disks, k) + i < IdsBefore(disks, k + 1) <= |AllPartitionIds(disks)|
    ensures AllPartitionIds(disks)[IdsBefore(disks, k) + i] == disks[k].partitions[i].id
  {
    var init := disks[..|disks| - 1];
    assert disks[..k + 1][..k] == disks[..k];
    if k < |disks| - 1 {
      PartitionIdAt(init, k, i);
      assert init[..k] == disks[..k] && init[..k + 1] == disks[..k + 1];
    } else {
      assert init[..k] == disks[..k] == init;
      assert disks[..k + 1] == disks;
    }
  }

  lemma {:induction false} IdsBeforeGrows(disks: seq<DiskEntry>, a: nat, b: nat)
    requires a <= b <= |disks|
    ensures IdsBefore(disks, a) <= IdsBefore(disks, b)
  {
    if a < b {
      assert disks[..b][..b - 1] == disks[..b - 1];
      IdsBeforeGrows(disks, a, b - 1);
    }
  }

  /** A partition id belongs to one partition of one disk. */
  lemma SameIdSamePartition(layout: DiskLayout, a: nat, i: nat, b: nat, j: nat)
    requires LayoutOk(layout) && a < |layout.disks| && b < |layout.disks|
    requires i < |layout.disks[a].partitions| && j < |layout.disks[b].partitions|
    requires layout.disks[a].partitions[i].id == layout.disks[b].partitions[j].id
    ensures a == b && i == j
  {
    var disks := layout.disks;
    PartitionIdAt(disks, a, i);
    PartitionIdAt(disks, b, j);
    assert IdsBefore(disks, a) + i == IdsBefore(disks, b) + j;
    if a < b {
      IdsBeforeGrows(disks, a + 1, b);
    } else if b < a {
      IdsBeforeGrows(disks, b + 1, a);
    }
  }

  // ---- partitions and their streams --------------------------------------------------------

  /** Stream `j` is the one that carries partition `i` of disk `k`. */
  ghost predicate IsCarrier(m: Manifest, layout: DiskLayout, j: int, k: int, i: int) {
    && 0 <= j < |m.streams| && 0 <= k < |layout.disks| && 0 <= i < |layout.disks[k].partitions|
    && m.streams[j].partitionId == Some(layout.disks[k].partitions[i].id)
    && SamePlace(m.streams[j], layout.disks[k], layout.disks[k].partitions[i])
  }

  lemma {:induction false} TwoCarriersAreListed(streams: seq<Stream>, disks: seq<DiskEntry>, partitionId: string,
      a: nat, b: nat)
    requires a < b < |streams|
    requires NamesPartition(streams[a], disks, partitionId) && NamesPartition(streams[b], disks, partitionId)
    ensures |CarrierIds(streams, disks, partitionId)| > 1
  {
    var init := streams[..|streams| - 1];
    if b < |init| {
      TwoCarriersAreListed(init, disks, partitionId, a, b);
    } else {
      assert init[a] == streams[a] && init[a] in init;
      CarrierMembers(init, disks, partitionId, streams[a].id);
    }
  }

  ghost predicate Names(m: Manifest, j: int, partitionId: string) {
    0 <= j < |m.streams| && m.streams[j].partitionId == Some(partitionId)
  }

  lemma EachPartitionCarried(m: Manifest, layout: DiskLayout, completion: Option<Completion>, k: nat, i: nat)
    requires Accepted(m, layout, completion) && k < |layout.disks| && i < |layout.disks[k].partitions|
    ensures PartitionCarried(m.streams, layout.disks, layout.disks[k], layout.disks[k].partitions[i])
  {
    assert DiskConsistent(m, layout.disks, layout.disks[k]);
    assert AllCarried(m.streams, layout.disks, layout.disks[k], |layout.disks[k].partitions|);
  }

  /** The carrier of a partition, among streams with different ids. */
  lemma CarrierFound(streams: seq<Stream>, disks: seq<DiskEntry>, disk: DiskEntry, p: PartitionEntry) returns (j: nat)
    requires PartitionCarried(streams, disks, disk, p)
    requires forall a, b :: 0 <= a < b < |streams| ==> streams[a].id != streams[b].id
    ensures j < |streams| && NamesPartition(streams[j], disks, p.id) && SamePlace(streams[j], disk, p)
  {
    var carriers := CarrierIds(streams, disks, p.id);
    CarrierMembers(streams, disks, p.id, carriers[0]);
    var s :| s in streams && s.id == carriers[0] && NamesPartition(s, disks, p.id);
    j :| 0 <= j < |streams| && streams[j] == s;
    FindStreamAt(streams, j);
  }

  /** No other stream names the partition. */
  lemma OnlyOneNames(streams: seq<Stream>, disks: seq<DiskEntry>, disk: DiskEntry, p: PartitionEntry, a: nat, b: nat)
    requires PartitionCarried(streams, disks, disk, p) && a < |streams| && b < |streams|
    requires NamesPartition(streams[a], disks, p.id) && NamesPartition(streams[b], disks, p.id)
    ensures a == b
  {
    if a < b {
      TwoCarriersAreListed(streams, disks, p.id, a, b);
    } else if b < a {
      TwoCarriersAreListed(streams, disks, p.id, b, a);
    }
  }

  /** Every partition has one stream, to its own place, and no other stream names it. */
  lemma PartitionHasOneStream(m: Manifest, layout: DiskLayout, completion: Option<Completion>, k: nat, i: nat)
    returns (j: nat)
    requires Accepted(m, layout, completion) && k < |layout.disks| && i < |layout.disks[k].partitions|
    ensures IsCarrier(m, layout, j, k, i)
    ensures forall other :: Names(m, other, layout.disks[k].partitions[i].id) ==> other == j
  {
    var disks, p := layout.disks, layout.disks[k].partitions[i];
    EachPartitionCarried(m, layout, completion, k, i);
    j := CarrierFound(m.streams, disks, disks[k], p);
    forall other | Names(m, other, p.id)
      ensures other == j
    {
      assert PlacedInside(m.streams[other], disks);
      OnlyOneNames(m.streams, disks, disks[k], p, other, j);
    }
  }

  /** A partition stream that is referenced names a partition. */
  lemma StreamNamesAPartition(m: Manifest, layout: DiskLayout, j: nat) returns (k: nat, i: nat)
    requires M.ManifestOk(m) && j < |m.streams| && m.streams[j].kind.PartitionKind?
    requires Referenced(m.streams, layout.disks, m.streams[j].id)
    ensures k < |layout.disks| && i < |layout.disks[k].partitions| && Names(m, j, layout.disks[k].partitions[i].id)
  {
    var disks, id := layout.disks, m.streams[j].id;
    k :| 0 <= k < |disks| && Uses(m.streams, disks, disks[k], id);
    NotATableStream(m, disks[k], j);
    i :| 0 <= i < |disks[k].partitions| && id in CarrierIds(m.streams, disks, disks[k].partitions[i].id);
    CarrierMembers(m.streams, disks, disks[k].partitions[i].id, id);
    var s :| s in m.streams && s.id == id && NamesPartition(s, disks, disks[k].partitions[i].id);
    var x :| 0 <= x < |m.streams| && m.streams[x] == s;
    SameIdSameStream(m, x, j);
  }

  /** Every partition stream carries one partition. */
  lemma StreamHasOnePartition(m: Manifest, layout: DiskLayout, completion: Option<Completion>, j: nat)
    returns (k: nat, i: nat)
    requires Accepted(m, layout, completion) && j < |m.streams| && m.streams[j].kind.PartitionKind?
    ensures IsCarrier(m, layout, j, k, i)
    ensures forall a, b :: IsCarrier(m, layout, j, a, b) ==> a == k && b == i
  {
    k, i := StreamNamesAPartition(m, layout, j);
    var only := PartitionHasOneStream(m, layout, completion, k, i);
    forall a, b | IsCarrier(m, layout, j, a, b)
      ensures a == k && b == i
    {
      SameIdSamePartition(layout, a, b, k, i);
    }
  }

  lemma NotATableStream(m: Manifest, disk: DiskEntry, j: nat)
    requires M.ManifestOk(m) && j < |m.streams| && m.streams[j].kind.PartitionKind?
    ensures !exists s :: s in m.streams && s.id == m.streams[j].id && IsTableStream(s, disk)
  {
  }

  // ---- heads and tails ---------------------------------------------------------------------------

  ghost predicate IsOfKind(m: Manifest, disk: DiskEntry, kind: StreamKind, j: int) {
    0 <= j < |m.streams| && m.streams[j].diskId == disk.id && m.streams[j].kind == kind
  }

  lemma {:induction false} TwoOfKindAreListed(streams: seq<Stream>, diskId: string, kind: StreamKind, a: nat, b: nat)
    requires a < b < |streams|
    requires streams[a].diskId == streams[b].diskId == diskId && streams[a].kind == streams[b].kind == kind
    ensures |OfKind(streams, diskId, kind)| > 1
  {
    var init := streams[..|streams| - 1];
    if b < |init| {
      TwoOfKindAreListed(init, diskId, kind, a, b);
    } else {
      assert init[a] == streams[a] && init[a] in init;
      OfKindMembers(init, diskId, kind);
    }
  }

  lemma OnlyOneOfKind(m: Manifest, disk: DiskEntry, kind: StreamKind) returns (j: nat)
    requires |OfKind(m.streams, disk.id, kind)| == 1
    ensures IsOfKind(m, disk, kind, j) && m.streams[j] == OfKind(m.streams, disk.id, kind)[0]
    ensures forall other :: IsOfKind(m, disk, kind, other) ==> other == j
  {
    OfKindMembers(m.streams, disk.id, kind);
    var s := OfKind(m.streams, disk.id, kind)[0];
    assert s in OfKind(m.streams, disk.id, kind);
    j :| 0 <= j < |m.streams| && m.streams[j] == s;
    forall other | IsOfKind(m, disk, kind, other)
      ensures other == j
    {
      if other < j {
        TwoOfKindAreListed(m.streams, disk.id, kind, other, j);
      } else if j < other {
        TwoOfKindAreListed(m.streams, disk.id, kind, j, other);
      }
    }
  }

  /** Every disk has one head, at its start, and one tail, ending where the disk ends. */
  lemma DiskHasOneHeadAndTail(m: Manifest, layout: DiskLayout, completion: Option<Completion>, k: nat)
    returns (head: nat, tail: nat)
    requires Accepted(m, layout, completion) && k < |layout.disks|
    ensures IsOfKind(m, layout.disks[k], DiskHead, head) && m.streams[head].targetOffset == 0
    ensures forall j :: IsOfKind(m, layout.disks[k], DiskHead, j) ==> j == head
    ensures IsOfKind(m, layout.disks[k], DiskTail, tail)
    ensures m.streams[tail].targetOffset + m.streams[tail].length == layout.disks[k].sizeBytes
    ensures forall j :: IsOfKind(m, layout.disks[k], DiskTail, j) ==> j == tail
  {
    assert DiskConsistent(m, layout.disks, layout.disks[k]);
    head := OnlyOneOfKind(m, layout.disks[k], DiskHead);
    tail := OnlyOneOfKind(m, layout.disks[k], DiskTail);
  }

  /** There is no stream besides: each one belongs to a disk of the layout and lies inside it. */
  lemma EveryStreamHasADisk(m: Manifest, layout: DiskLayout, completion: Option<Completion>, j: nat) returns (k: nat)
    requires Accepted(m, layout, completion) && j < |m.streams|
    ensures k < |layout.disks| && m.streams[j].diskId == layout.disks[k].id
    ensures m.streams[j].length > 0 && m.streams[j].targetOffset + m.streams[j].length <= layout.disks[k].sizeBytes
    ensures || IsOfKind(m, layout.disks[k], DiskHead, j)
            || IsOfKind(m, layout.disks[k], DiskTail, j)
            || exists i :: IsCarrier(m, layout, j, k, i)
  {
    assert PlacedInside(m.streams[j], layout.disks);
    assert M.StreamSound(m.streams[j], m.chunks);
    var d := FindDisk(layout.disks, m.streams[j].diskId).value;
    k :| 0 <= k < |layout.disks| && layout.disks[k] == d;
    if m.streams[j].kind.PartitionKind? {
      var a, b := StreamHasOnePartition(m, layout, completion, j);
      SameIdSameDisk(layout, a, k);
    }
  }

  // ---- no byte restored twice -----------------------------------------------------------------------

  lemma PartitionsApart(disk: DiskEntry, a: nat, b: nat)
    requires DiskOk(disk) && a < |disk.partitions| && b < |disk.partitions| && a != b
    ensures Clear(PartitionRange(disk.partitions[a]), PartitionRange(disk.partitions[b]))
  {
  }

  lemma CarrierPlacement(m: Manifest, layout: DiskLayout, j: nat, k: nat, i: nat)
    requires IsCarrier(m, layout, j, k, i)
    ensures V.Placement(m.streams[j]) == PartitionRange(layout.disks[k].partitions[i])
    ensures m.streams[j].diskId == layout.disks[k].id
  {
  }

  lemma CarriersDiffer(m: Manifest, layout: DiskLayout, completion: Option<Completion>, a: nat, b: nat, k: nat, i: nat)
    requires Accepted(m, layout, completion) && IsCarrier(m, layout, a, k, i) && IsCarrier(m, layout, b, k, i)
    ensures a == b
  {
    var only := PartitionHasOneStream(m, layout, completion, k, i);
    assert Names(m, a, layout.disks[k].partitions[i].id) && Names(m, b, layout.disks[k].partitions[i].id);
  }

  /** Streams of different partitions never share a byte of a disk. */
  lemma PartitionStreamsAreDisjoint(m: Manifest, layout: DiskLayout, completion: Option<Completion>, a: nat, b: nat)
    requires Accepted(m, layout, completion) && a < |m.streams| && b < |m.streams| && a != b
    requires m.streams[a].kind.PartitionKind? && m.streams[b].kind.PartitionKind?
    requires m.streams[a].diskId == m.streams[b].diskId
    ensures Clear(V.Placement(m.streams[a]), V.Placement(m.streams[b]))
  {
    var ka, ia := StreamHasOnePartition(m, layout, completion, a);
    var kb, ib := StreamHasOnePartition(m, layout, completion, b);
    CarrierPlacement(m, layout, a, ka, ia);
    CarrierPlacement(m, layout, b, kb, ib);
    SameIdSameDisk(layout, ka, kb);
    if ia == ib {
      CarriersDiffer(m, layout, completion, a, b, ka, ia);
    }
    PartitionsApart(layout.disks[ka], ia, ib);
  }

  // ---- what the checks on opening leave open ------------------------------------------------------

  predicate HeadClear(head: Stream, p: PartitionEntry) {
    head.length <= p.startingOffset
  }

  predicate TailClear(tail: Stream, p: PartitionEntry) {
    p.startingOffset + p.length <= tail.targetOffset
  }

  /** The head and the tail of a disk keep clear of its partitions and of each other. */
  ghost predicate TableClear(m: Manifest, disk: DiskEntry) {
    PartitionsClear(m, disk) && EndsClear(m, disk)
  }

  ghost predicate PartitionsClear(m: Manifest, disk: DiskEntry) {
    && (forall j, p :: IsOfKind(m, disk, DiskHead, j) && p in disk.partitions ==> HeadClear(m.streams[j], p))
    && (forall j, p :: IsOfKind(m, disk, DiskTail, j) && p in disk.partitions ==> TailClear(m.streams[j], p))
  }

  ghost predicate EndsClear(m: Manifest, disk: DiskEntry) {
    forall j, t :: IsOfKind(m, disk, DiskHead, j) && IsOfKind(m, disk, DiskTail, t) ==>
      m.streams[j].length <= m.streams[t].targetOffset
  }

  /** Where a head or a tail lies. */
  lemma TablePlaced(m: Manifest, layout: DiskLayout, completion: Option<Completion>, k: nat, t: nat)
    requires Accepted(m, layout, completion) && k < |layout.disks| && t < |m.streams|
    requires IsTableStream(m.streams[t], layout.disks[k])
    ensures m.streams[t].length > 0
    ensures m.streams[t].kind.DiskHead? ==> m.streams[t].targetOffset == 0
    ensures m.streams[t].kind.DiskTail? ==> m.streams[t].targetOffset + m.streams[t].length == layout.disks[k].sizeBytes
  {
    var head, tail := DiskHasOneHeadAndTail(m, layout, completion, k);
    assert if m.streams[t].kind.DiskHead? then
        IsOfKind(m, layout.disks[k], DiskHead, t) else IsOfKind(m, layout.disks[k], DiskTail, t);
    assert M.StreamSound(m.streams[t], m.chunks);
  }

  lemma PartitionPlaced(layout: DiskLayout, k: nat, i: nat)
    requires LayoutOk(layout) && k < |layout.disks| && i < |layout.disks[k].partitions|
    ensures PartitionOk(layout.disks[k].partitions[i], layout.disks[k])
  {
  }

  /** A table stream in its place overlaps a partition exactly when it does not keep clear of it. */
  lemma TableVersusPartition(t: Stream, s: Stream, p: PartitionEntry, disk: DiskEntry)
    requires PartitionOk(p, disk) && V.Placement(s) == PartitionRange(p) && t.length > 0
    requires if t.kind.DiskHead? then t.targetOffset == 0 else t.targetOffset + t.length == disk.sizeBytes
    ensures Clear(V.Placement(t), V.Placement(s)) <==> if t.kind.DiskHead? then HeadClear(t, p) else TailClear(t, p)
  {
  }

  lemma TableAndPartition(m: Manifest, layout: DiskLayout, completion: Option<Completion>, k: nat, t: nat, s: nat,
      i: nat)
    requires Accepted(m, layout, completion) && k < |layout.disks| && t < |m.streams|
    requires IsTableStream(m.streams[t], layout.disks[k]) && IsCarrier(m, layout, s, k, i)
    ensures Clear(V.Placement(m.streams[t]), V.Placement(m.streams[s])) <==>
            if m.streams[t].kind.DiskHead? then HeadClear(m.streams[t], layout.disks[k].partitions[i])
            else TailClear(m.streams[t], layout.disks[k].partitions[i])
  {
    TablePlaced(m, layout, completion, k, t);
    PartitionPlaced(layout, k, i);
    CarrierPlacement(m, layout, s, k, i);
    TableVersusPartition(m.streams[t], m.streams[s], layout.disks[k].partitions[i], layout.disks[k]);
  }

  lemma HeadVersusTail(head: Stream, tail: Stream, size: int)
    requires head.length > 0 && tail.length > 0 && head.targetOffset == 0 && tail.targetOffset + tail.length == size
    ensures Clear(V.Placement(head), V.Placement(tail)) <==> head.length <= tail.targetOffset
  {
  }

  lemma HeadAndTail(m: Manifest, layout: DiskLayout, completion: Option<Completion>, k: nat, head: nat, tail: nat)
    requires Accepted(m, layout, completion) && k < |layout.disks|
    requires IsOfKind(m, layout.disks[k], DiskHead, head) && IsOfKind(m, layout.disks[k], DiskTail, tail)
    ensures Clear(V.Placement(m.streams[head]), V.Placement(m.streams[tail])) <==>
              m.streams[head].length <= m.streams[tail].targetOffset
  {
    TablePlaced(m, layout, completion, k, head);
    TablePlaced(m, layout, completion, k, tail);
    HeadVersusTail(m.streams[head], m.streams[tail], layout.disks[k].sizeBytes);
  }

  /** A table stream that keeps clear shares no byte with any other stream of its disk. */
  lemma TableStreamClear(m: Manifest, layout: DiskLayout, completion: Option<Completion>, k: nat, t: nat, b: nat)
    requires Accepted(m, layout, completion) && k < |layout.disks| && TableClear(m, layout.disks[k])
    requires t < |m.streams| && b < |m.streams| && t != b && IsTableStream(m.streams[t], layout.disks[k])
    requires m.streams[b].diskId == layout.disks[k].id
    ensures Clear(V.Placement(m.streams[t]), V.Placement(m.streams[b]))
  {
    var disk := layout.disks[k];
    if m.streams[b].kind.PartitionKind? {
      var kb, i := StreamHasOnePartition(m, layout, completion, b);
      SameIdSameDisk(layout, k, kb);
      TableAndPartition(m, layout, completion, k, t, b, i);
      assert disk.partitions[i] in disk.partitions;
      assert IsOfKind(m, disk, m.streams[t].kind, t);
    } else {
      OneOfEachKind(m, layout, completion, k, t, b);
      if m.streams[t].kind.DiskHead? {
        HeadAndTail(m, layout, completion, k, t, b);
      } else {
        HeadAndTail(m, layout, completion, k, b, t);
      }
    }
  }

  lemma OneOfEachKind(m: Manifest, layout: DiskLayout, completion: Option<Completion>, k: nat, a: nat, b: nat)
    requires Accepted(m, layout, completion) && k < |layout.disks| && a < |m.streams| && b < |m.streams| && a != b
    requires IsTableStream(m.streams[a], layout.disks[k]) && IsTableStream(m.streams[b], layout.disks[k])
    ensures m.streams[a].kind != m.streams[b].kind
  {
    assert DiskConsistent(m, layout.disks, layout.disks[k]);
    var only := OnlyOneOfKind(m, layout.disks[k], m.streams[a].kind);
    assert IsOfKind(m, layout.disks[k], m.streams[a].kind, a);
    assert IsOfKind(m, layout.disks[k], m.streams[b].kind, b);
  }

  lemma PairClear(m: Manifest, layout: DiskLayout, completion: Option<Completion>, a: nat, b: nat)
    requires Accepted(m, layout, completion) && (forall k :: 0 <= k < |layout.disks| ==> TableClear(m, layout.disks[k]))
    requires a < |m.streams| && b < |m.streams| && a != b && m.streams[a].diskId == m.streams[b].diskId
    ensures Clear(V.Placement(m.streams[a]), V.Placement(m.streams[b]))
  {
    var k := EveryStreamHasADisk(m, layout, completion, a);
    if !m.streams[a].kind.PartitionKind? {
      TableStreamClear(m, layout, completion, k, a, b);
    } else if !m.streams[b].kind.PartitionKind? {
      TableStreamClear(m, layout, completion, k, b, a);
    } else {
      PartitionStreamsAreDisjoint(m, layout, completion, a, b);
    }
  }

  lemma TableStreamKeepsClear(m: Manifest, layout: DiskLayout, completion: Option<Completion>, k: nat, j: nat, i: nat)
    requires Accepted(m, layout, completion) && k < |layout.disks| && V.StreamsDisjoint(m.streams)
    requires j < |m.streams| && IsTableStream(m.streams[j], layout.disks[k]) && i < |layout.disks[k].partitions|
    ensures if m.streams[j].kind.DiskHead? then HeadClear(m.streams[j], layout.disks[k].partitions[i])
            else TailClear(m.streams[j], layout.disks[k].partitions[i])
  {
    var s := PartitionHasOneStream(m, layout, completion, k, i);
    TableAndPartition(m, layout, completion, k, j, s, i);
    DisjointPair(m.streams, j, s);
  }

  lemma DisjointKeepsPartitionsClear(m: Manifest, layout: DiskLayout, completion: Option<Completion>, k: nat, j: nat,
      p: PartitionEntry)
    requires Accepted(m, layout, completion) && k < |layout.disks| && V.StreamsDisjoint(m.streams)
    requires IsOfKind(m, layout.disks[k], DiskHead, j) || IsOfKind(m, layout.disks[k], DiskTail, j)
    requires p in layout.disks[k].partitions
    ensures if m.streams[j].kind.DiskHead? then HeadClear(m.streams[j], p) else TailClear(m.streams[j], p)
  {
    var i :| 0 <= i < |layout.disks[k].partitions| && layout.disks[k].partitions[i] == p;
    TableStreamKeepsClear(m, layout, completion, k, j, i);
  }

  lemma DisjointKeepsEndsClear(m: Manifest, layout: DiskLayout, completion: Option<Completion>, k: nat, j: nat, t: nat)
    requires Accepted(m, layout, completion) && k < |layout.disks| && V.StreamsDisjoint(m.streams)
    requires IsOfKind(m, layout.disks[k], DiskHead, j) && IsOfKind(m, layout.disks[k], DiskTail, t)
    ensures m.streams[j].length <= m.streams[t].targetOffset
  {
    HeadAndTail(m, layout, completion, k, j, t);
    DisjointPair(m.streams, j, t);
  }

  lemma DisjointKeepsClear(m: Manifest, layout: DiskLayout, completion: Option<Completion>, k: nat)
    requires Accepted(m, layout, completion) && k < |layout.disks| && V.StreamsDisjoint(m.streams)
    ensures PartitionsClear(m, layout.disks[k])
  {
    var disk := layout.disks[k];
    forall j, p | (IsOfKind(m, disk, DiskHead, j) || IsOfKind(m, disk, DiskTail, j)) && p in disk.partitions
      ensures if m.streams[j].kind.DiskHead? then HeadClear(m.streams[j], p) else TailClear(m.streams[j], p)
    {
      DisjointKeepsPartitionsClear(m, layout, completion, k, j, p);
    }
  }

  lemma DisjointKeepsTableClear(m: Manifest, layout: DiskLayout, completion: Option<Completion>, k: nat)
    requires Accepted(m, layout, completion) && k < |layout.disks| && V.StreamsDisjoint(m.streams)
    ensures TableClear(m, layout.disks[k])
  {
    var disk := layout.disks[k];
    DisjointKeepsClear(m, layout, completion, k);
    forall j, t | IsOfKind(m, disk, DiskHead, j) && IsOfKind(m, disk, DiskTail, t)
      ensures m.streams[j].length <= m.streams[t].targetOffset
    {
      DisjointKeepsEndsClear(m, layout, completion, k, j, t);
    }
  }

  lemma DisjointPair(streams: seq<Stream>, a: nat, b: nat)
    requires V.StreamsDisjoint(streams) && a < |streams| && b < |streams| && a != b
    requires streams[a].diskId == streams[b].diskId
    ensures Clear(V.Placement(streams[a]), V.Placement(streams[b]))
  {
  }

  /**
   Documents accepted on opening restore no byte twice exactly when, on every disk,
   the head and the tail keep clear of the partitions and of each other.
   */
  lemma AcceptedIsDisjointIff(m: Manifest, layout: DiskLayout, completion: Option<Completion>)
    requires Accepted(m, layout, completion)
    ensures V.StreamsDisjoint(m.streams) <==> forall k :: 0 <= k < |layout.disks| ==> TableClear(m, layout.disks[k])
  {
    if V.StreamsDisjoint(m.streams) {
      forall k | 0 <= k < |layout.disks|
        ensures TableClear(m, layout.disks[k])
      {
        DisjointKeepsTableClear(m, layout, completion, k);
      }
    }
    if forall k :: 0 <= k < |layout.disks| ==> TableClear(m, layout.disks[k]) {
      forall a, b | 0 <= a < b < |m.streams| && m.streams[a].diskId == m.streams[b].diskId
        ensures Clear(V.Placement(m.streams[a]), V.Placement(m.streams[b]))
      {
        PairClear(m, layout, completion, a, b);
      }
    }
  }

  // ---- a head over a partition is accepted ------------------------------------------------------

  function Fill(b: Byte): Digest {
    seq(DIGEST_BYTES, _ => b)
  }

  /** One disk of 64 KiB whose only partition is its second sector. */
  function SmallDisk(): DiskEntry {
    DiskEntry("disk", NilGuid(), 65536, 512, 512, true, [PartitionEntry("part", 1, NilGuid(), NilGuid(), 512, 512)])
  }

  function SmallChunks(): seq<ChunkEntry> {
    [ChunkEntry(Fill(0), 1024, 1), ChunkEntry(Fill(1), 512, 1)]
  }

  /** A head of two sectors, over the partition. */
  function WideHead(): Stream {
    Stream("head", DiskHead, "disk", None, 0, 1024, RawFull, [Segment(0, 1024, 0)], None, false)
  }

  /** The partition's stream, which holds nothing. */
  function SparseData(): Stream {
    Stream("data", PartitionKind, "disk", Some("part"), 512, 512, VssUsedBlocks, [], None, false)
  }

  function OneSectorTail(): Stream {
    Stream("tail", DiskTail, "disk", None, 65024, 512, RawFull, [Segment(0, 512, 1)], None, false)
  }

  function SmallParameters(): Parameters {
    Parameters(DIGEST_BYTES, Uncompressed, "chunks", 0, "1970")
  }

  function SmallLayout(): DiskLayout {
    LayoutOf(NilGuid(), [SmallDisk()])
  }

  function SmallManifest(): Manifest {
    Manifest(CurrentFormat(ManifestKind), SmallParameters(), NilGuid(), 65536, [],
      [WideHead(), SparseData(), OneSectorTail()], SmallChunks(), 17920, Stats(1536, 2, 2, 2, 0))
  }

  lemma SegmentsOfThree(a: Stream, b: Stream, c: Stream)
    ensures AllSegments([a, b, c]) == a.segments + b.segments + c.segments
  {
    assert [a, b, c][..2] == [a, b] && [a, b][..1] == [a] && [a][..0] == [];
    assert AllSegments([a]) == a.segments;
    assert AllSegments([a, b]) == a.segments + b.segments;
  }

  lemma KindsOfThree(a: Stream, b: Stream, c: Stream, diskId: string, kind: StreamKind)
    ensures OfKind([a, b, c], diskId, kind) ==
            (if a.diskId == diskId && a.kind == kind then [a] else []) +
            (if b.diskId == diskId && b.kind == kind then [b] else []) +
            (if c.diskId == diskId && c.kind == kind then [c] else [])
  {
    assert [a, b, c][..2] == [a, b] && [a, b][..1] == [a] && [a][..0] == [];
    assert OfKind([a], diskId, kind) == if a.diskId == diskId && a.kind == kind then [a] else [];
    assert OfKind([a, b], diskId, kind) ==
           OfKind([a], diskId, kind) + if b.diskId == diskId && b.kind == kind then [b] else [];
  }

  lemma CarriersOfThree(a: Stream, b: Stream, c: Stream, disks: seq<DiskEntry>, partitionId: string)
    ensures CarrierIds([a, b, c], disks, partitionId) ==
            (if NamesPartition(a, disks, partitionId) then [a.id] else []) +
            (if NamesPartition(b, disks, partitionId) then [b.id] else []) +
            (if NamesPartition(c, disks, partitionId) then [c.id] else [])
  {
    assert [a, b, c][..2] == [a, b] && [a, b][..1] == [a] && [a][..0] == [];
    assert CarrierIds([a], disks, partitionId) == if NamesPartition(a, disks, partitionId) then [a.id] else [];
    assert CarrierIds([a, b], disks, partitionId) ==
           CarrierIds([a], disks, partitionId) + if NamesPartition(b, disks, partitionId) then [b.id] else [];
  }

  lemma SumsOfTwo(x: Segment, y: Segment, c: ChunkEntry, d: ChunkEntry)
    ensures SumSegments([x, y]) == x.length + y.length
    ensures ChunksUsed([x, y]) == {x.chunk, y.chunk}
    ensures StoredSum([c, d]) == c.compressedSize + d.compressedSize
    ensures SumSegments([x]) == x.length
  {
    assert [x, y][..1] == [x] && [x][..0] == [];
    assert [c, d][..1] == [c] && [c][..0] == [];
    assert SumSegments([x]) == x.length;
    assert StoredSum([c]) == c.compressedSize;
    assert x in [x, y] && y in [x, y];
  }

  lemma ListsOfOne(disk: DiskEntry, p: PartitionEntry)
    requires disk.partitions == [p]
    ensures AllPartitionIds([disk]) == [p.id]
    ensures HighestEnd([p]) == p.startingOffset + p.length
    ensures FindDisk([disk], disk.id) == Some(disk)
  {
  }

  lemma SmallStats()
    ensures M.StatsOk(SmallManifest())
  {
    var head, tail := WideHead().segments[0], OneSectorTail().segments[0];
    SegmentsOfThree(WideHead(), SparseData(), OneSectorTail());
    assert AllSegments(SmallManifest().streams) == [head, tail];
    SumsOfTwo(head, tail, SmallChunks()[0], SmallChunks()[1]);
  }

  lemma SmallStreamsSound()
    ensures M.StreamsSound(SmallManifest().streams, SmallChunks())
  {
  }

  lemma SmallManifestOk()
    ensures M.ManifestOk(SmallManifest())
  {
    SmallStats();
    SmallStreamsSound();
    assert SmallChunks()[0].hash[0] != SmallChunks()[1].hash[0];
  }

  lemma SmallDiskOk()
    ensures DiskOk(SmallDisk()) && RequiredTarget(SmallDisk()) == Success(17920)
  {
  }

  lemma SmallLayoutOk()
    ensures LayoutOk(SmallLayout())
  {
  }

  lemma SmallTableListed()
    ensures TableStreamsOk(SmallManifest().streams, SmallDisk())
  {
    KindsOfThree(WideHead(), SparseData(), OneSectorTail(), "disk", DiskHead);
    KindsOfThree(WideHead(), SparseData(), OneSectorTail(), "disk", DiskTail);
  }

  lemma SmallDiskConsistent()
    ensures DiskConsistent(SmallManifest(), [SmallDisk()], SmallDisk())
  {
    var disk, disks, streams := SmallDisk(), [SmallDisk()], SmallManifest().streams;
    ListsOfOne(disk, disk.partitions[0]);
    SmallTableListed();
    CarriersOfThree(WideHead(), SparseData(), OneSectorTail(), disks, "part");
    SmallManifestOk();
    FoundIsThatStream(SmallManifest(), 1);
    assert PartitionCarried(streams, disks, disk, disk.partitions[0]);
    SmallDiskOk();
  }

  lemma SmallStreamsUsed(id: string)
    requires id == "head" || id == "data" || id == "tail"
    ensures Referenced(SmallManifest().streams, [SmallDisk()], id)
  {
    var disk, disks, streams := SmallDisk(), [SmallDisk()], SmallManifest().streams;
    ListsOfOne(disk, disk.partitions[0]);
    CarriersOfThree(WideHead(), SparseData(), OneSectorTail(), disks, "part");
    assert WideHead() in streams && OneSectorTail() in streams;
    assert IsTableStream(WideHead(), disk) && IsTableStream(OneSectorTail(), disk);
    assert "data" in CarrierIds(streams, disks, disk.partitions[0].id);
    assert Uses(streams, disks, disks[0], id);
  }

  lemma SmallStreamsPlacedAndUsed(i: nat)
    requires i < 3
    ensures PlacedInside(SmallManifest().streams[i], [SmallDisk()])
    ensures Referenced(SmallManifest().streams, [SmallDisk()], SmallManifest().streams[i].id)
  {
    var s := SmallManifest().streams[i];
    SmallPlaced(s);
    SmallStreamsUsed(s.id);
  }

  lemma SmallDocumentsConsistent()
    ensures Consistent(SmallManifest(), SmallLayout(), None)
  {
    SmallDiskConsistent();
    forall i | 0 <= i < 3
      ensures PlacedInside(SmallManifest().streams[i], [SmallDisk()])
      ensures Referenced(SmallManifest().streams, [SmallDisk()], SmallManifest().streams[i].id)
    {
      SmallStreamsPlacedAndUsed(i);
    }
  }

  lemma SmallPlaced(s: Stream)
    requires s.diskId == "disk" && s.targetOffset + s.length <= 65536
    ensures PlacedInside(s, [SmallDisk()])
  {
  }

  lemma SmallStreamsOverlap()
    ensures !V.StreamsDisjoint(SmallManifest().streams)
  {
    var streams := SmallManifest().streams;
    assert !Clear(V.Placement(WideHead()), V.Placement(SparseData()));
    if V.StreamsDisjoint(streams) {
      DisjointPair(streams, 0, 1);
    }
  }

  /** Documents can be accepted on opening although two of their streams share bytes. */
  lemma AcceptedStreamsCanOverlap()
    ensures Accepted(SmallManifest(), SmallLayout(), None)
    ensures !V.StreamsDisjoint(SmallManifest().streams)
  {
    SmallManifestOk();
    SmallLayoutOk();
    SmallDocumentsConsistent();
    SmallStreamsOverlap();
  }
}
