/**
 Closing a backup: the totals, the required disk size and the two documents
 (crates/mjolnir-image/src/writer.rs, crates/mjolnir-image/src/manifest.rs).
 */
module Finalize {
  import opened Arith
  import opened Extents
  import opened Format
  import opened Writer

  // ---- the totals ---------------------------------------------------------------------

  /** The running totals after some segments. */
  datatype Tally = Tally(captured: nat, total: nat, dedup: nat, seen: set<int>)

  ghost predicate Tallied(t: Tally, segs: seq<Segment>) {
    && t.captured == SumSegments(segs) && t.total == |segs|
    && t.seen == ChunksUsed(segs) && t.dedup == |segs| - |t.seen|
  }

  lemma TallyOne(t: Tally, segs: seq<Segment>, s: Segment)
    requires Tallied(t, segs)
    ensures var dedup := if s.chunk in t.seen then t.dedup + 1 else t.dedup;
            Tallied(Tally(t.captured + s.length, t.total + 1, dedup, t.seen + {s.chunk}), segs + [s])
  {
  }

  /** The segments of the first streams are the first segments. */
  lemma {:induction false} AllSegmentsPrefix(streams: seq<Stream>, j: nat)
    requires j <= |streams|
    ensures AllSegments(streams[..j]) <= AllSegments(streams)
    ensures j < |streams| ==> AllSegments(streams[..j]) + streams[j].segments <= AllSegments(streams)
  {
    if j < |streams| {
      var init := streams[..|streams| - 1];
      AllSegmentsPrefix(init, j);
      assert init[..j] == streams[..j];
      if j == |streams| - 1 {
        assert init[..j] == init;
      }
    } else {
      assert streams[..j] == streams;
    }
  }

  lemma {:induction false} SumSegmentsPrefix(a: seq<Segment>, b: seq<Segment>)
    requires a <= b
    ensures SumSegments(a) <= SumSegments(b)
  {
    assert b == a + b[|a|..];
    SumSegmentsConcat(a, b[|a|..]);
  }

  lemma {:induction false} StoredSumPrefix(chunks: seq<ChunkEntry>, k: nat)
    requires k <= |chunks|
    ensures StoredSum(chunks[..k]) <= StoredSum(chunks)
  {
    if k < |chunks| {
      StoredSumPrefix(chunks[..|chunks| - 1], k);
      assert chunks[..|chunks| - 1][..k] == chunks[..k];
    } else {
      assert chunks[..k] == chunks;
    }
  }

  lemma StreamDone(streams: seq<Stream>, j: nat)
    requires j < |streams|
    ensures AllSegments(streams[..j]) + streams[j].segments == AllSegments(streams[..j + 1])
  {
    assert streams[..j + 1][..j] == streams[..j];
  }

  /** Tallies one segment, or finds that a total does not fit. */
  method TallySegment(t: Tally, s: Segment, ghost before: seq<Segment>, ghost all: seq<Segment>)
    returns (r: Result<Tally, ArithError>)
    requires Tallied(t, before) && t.captured <= U64_MAX && t.total <= U64_MAX && before + [s] <= all
    ensures r.Success? ==> Tallied(r.value, before + [s]) && r.value.captured <= U64_MAX && r.value.total <= U64_MAX
    ensures r.Failure? ==> r.error == Overflow && (SumSegments(all) > U64_MAX || |all| > U64_MAX)
  {
    TallyOne(t, before, s);
    SumSegmentsPrefix(before + [s], all);
    var captured := AddU64(t.captured, s.length);
    if captured.Failure? {
      return Failure(captured.error);
    }
    var total := AddU64(t.total, 1);
    if total.Failure? {
      return Failure(total.error);
    }
    var dedup := t.dedup;
    if s.chunk in t.seen {
      var more := AddU64(t.dedup, 1);
      if more.Failure? {
        assert false;
      }
      dedup := more.value;
    }
    return Success(Tally(captured.value, total.value, dedup, t.seen + {s.chunk}));
  }

  /** Tallies the segments of one stream. */
  method TallyStream(t: Tally, segs: seq<Segment>, ghost before: seq<Segment>, ghost all: seq<Segment>)
    returns (r: Result<Tally, ArithError>)
    requires Tallied(t, before) && t.captured <= U64_MAX && t.total <= U64_MAX && before + segs <= all
    ensures r.Success? ==> Tallied(r.value, before + segs) && r.value.captured <= U64_MAX && r.value.total <= U64_MAX
    ensures r.Failure? ==> r.error == Overflow && (SumSegments(all) > U64_MAX || |all| > U64_MAX)
  {
    var tally := t;
    assert before + segs[..0] == before;
    for i := 0 to |segs|
      invariant Tallied(tally, before + segs[..i]) && tally.captured <= U64_MAX && tally.total <= U64_MAX
    {
      assert (before + segs[..i]) + [segs[i]] == before + segs[..i + 1];
      assert before + segs == (before + segs[..i + 1]) + segs[i + 1..];
      r := TallySegment(tally, segs[i], before + segs[..i], all);
      if r.Failure? {
        return r;
      }
      tally := r.value;
    }
    assert segs[..|segs|] == segs;
    return Success(tally);
  }

  /** The totals of a manifest, counted in one pass over its segments and one over its chunks. */
  method RecomputeStats(streams: seq<Stream>, chunks: seq<ChunkEntry>) returns (r: Result<Stats, ArithError>)
    ensures r == StatsOf(streams, chunks)
  {
    ghost var all := AllSegments(streams);
    var tally := Tally(0, 0, 0, {});
    assert ChunksUsed([]) == {};
    for j := 0 to |streams|
      invariant Tallied(tally, AllSegments(streams[..j])) && tally.captured <= U64_MAX && tally.total <= U64_MAX
    {
      AllSegmentsPrefix(streams, j);
      StreamDone(streams, j);
      var tallied := TallyStream(tally, streams[j].segments, AllSegments(streams[..j]), all);
      if tallied.Failure? {
        return Failure(tallied.error);
      }
      tally := tallied.value;
    }
    assert streams[..|streams|] == streams;
    r := CountChunks(tally, streams, chunks);
  }

  method CountChunks(tally: Tally, ghost streams: seq<Stream>, chunks: seq<ChunkEntry>)
    returns (r: Result<Stats, ArithError>)
    requires Tallied(tally, AllSegments(streams)) && tally.captured <= U64_MAX && tally.total <= U64_MAX
    ensures r == StatsOf(streams, chunks)
  {
    var stored: u64, unique: u64 := 0, 0;
    for k := 0 to |chunks|
      invariant stored == StoredSum(chunks[..k]) && unique == k <= U64_MAX
    {
      assert chunks[..k + 1][..k] == chunks[..k];
      StoredSumPrefix(chunks, k + 1);
      var more := AddU64(stored, chunks[k].compressedSize);
      if more.Failure? {
        return Failure(more.error);
      }
      stored := more.value;
      var one := AddU64(unique, 1);
      if one.Failure? {
        return Failure(one.error);
      }
      unique := one.value;
    }
    assert chunks[..|chunks|] == chunks;
    UsedAtMostOnceEach(AllSegments(streams));
    return Success(Stats(tally.captured, stored, unique, tally.total, tally.dedup));
  }

  /**
   With no unused chunk, every segment either brought a new chunk or was
   deduplicated.
   */
  lemma StatsConserve(streams: seq<Stream>, chunks: seq<ChunkEntry>)
    requires StatsOf(streams, chunks).Success? && ChunksUsed(AllSegments(streams)) == Span(0, |chunks|)
    ensures var stats := StatsOf(streams, chunks).value;
            stats.totalSegments == stats.uniqueChunks + stats.deduplicatedSegments
  {
    SpanSize(0, |chunks|);
    UsedAtMostOnceEach(AllSegments(streams));
  }

  // ---- the required disk size -------------------------------------------------------------

  function RequiredRestore(disks: seq<DiskEntry>): Result<u64, ArithError> {
    if disks == [] then Success(0)
    else
      var before :- RequiredRestore(disks[..|disks| - 1]);
      var last :- RequiredTarget(disks[|disks| - 1]);
      Success(Max(before, last))
  }

  /** It is large enough for every disk, and for no smaller reason. */
  lemma {:induction false} RequiredRestoreIsMax(disks: seq<DiskEntry>)
    ensures RequiredRestore(disks).Success? <==> forall i :: 0 <= i < |disks| ==> RequiredTarget(disks[i]).Success?
    ensures RequiredRestore(disks).Success? ==>
              forall i :: 0 <= i < |disks| ==> RequiredTarget(disks[i]).value <= RequiredRestore(disks).value
    ensures RequiredRestore(disks).Success? && disks != [] ==>
              exists i :: 0 <= i < |disks| && RequiredTarget(disks[i]).value == RequiredRestore(disks).value
  {
    if disks != [] {
      var init, last := disks[..|disks| - 1], disks[|disks| - 1];
      RequiredRestoreIsMax(init);
      assert forall i :: 0 <= i < |init| ==> init[i] == disks[i];
      if RequiredRestore(disks).Success? {
        if RequiredTarget(last).value == RequiredRestore(disks).value {
          assert disks[|disks| - 1] == last;
        } else if init != [] {
          var i :| 0 <= i < |init| && RequiredTarget(init[i]).value == RequiredRestore(init).value;
          assert disks[i] == init[i];
        }
      }
    }
  }

  lemma {:induction false} RequiredRestorePrefix(disks: seq<DiskEntry>, k: nat)
    requires k <= |disks| && RequiredRestore(disks[..k]).Failure?
    ensures RequiredRestore(disks) == RequiredRestore(disks[..k])
  {
    if k < |disks| {
      RequiredRestorePrefix(disks[..|disks| - 1], k) by {
        assert disks[..|disks| - 1][..k] == disks[..k];
      }
      assert disks[..|disks| - 1][..k] == disks[..k];
    } else {
      assert disks[..k] == disks;
    }
  }

  method ComputeRequiredRestoreBytes(disks: seq<DiskEntry>) returns (r: Result<u64, ArithError>)
    ensures r == RequiredRestore(disks)
  {
    var required: u64 := 0;
    for k := 0 to |disks|
      invariant RequiredRestore(disks[..k]) == Success(required)
    {
      assert disks[..k + 1][..k] == disks[..k];
      var target := RequiredTargetBytes(disks[k]);
      if target.Failure? {
        RequiredRestorePrefix(disks, k + 1);
        return Failure(target.error);
      }
      required := Max(required, target.value);
    }
    assert disks[..|disks|] == disks;
    return Success(required);
  }

  // ---- the documents ---------------------------------------------------------------------------

  /** The manifest that has to come out of what was written. */
  ghost predicate IsManifestOf(m: Manifest, w: BackupWriter)
    reads w
  {
    && m.format == CurrentFormat(ManifestKind) && m.parameters == w.parameters && m.volumes == w.volumes
    && m.uuid == w.uuid && m.chunkSize == w.chunkSize && m.streams == w.streams && m.chunks == w.chunks
    && StatsOf(w.streams, w.chunks) == Success(m.stats)
    && RequiredRestore(w.disks) == Success(m.requiredRestoreBytes)
  }

  /** Settles the totals and hands over the two documents. */
  method FinalizeBackup(w: BackupWriter) returns (r: Result<(Manifest, DiskLayout), ArithError>)
    ensures r.Success? ==> IsManifestOf(r.value.0, w) && r.value.1 == LayoutOf(w.uuid, w.disks)
    ensures r.Failure? ==> StatsOf(w.streams, w.chunks).Failure? || RequiredRestore(w.disks).Failure?
  {
    var stats := RecomputeStats(w.streams, w.chunks);
    if stats.Failure? {
      return Failure(stats.error);
    }
    var required := ComputeRequiredRestoreBytes(w.disks);
    if required.Failure? {
      return Failure(required.error);
    }
    return Success((Manifest(CurrentFormat(ManifestKind), w.parameters, w.uuid, w.chunkSize, w.volumes, w.streams,
                             w.chunks, required.value, stats.value),
                    LayoutOf(w.uuid, w.disks)));
  }
}
