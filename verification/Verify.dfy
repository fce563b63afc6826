/**
 Verifying a finished backup (crates/mjolnir-image/src/verify.rs).
 */
module Verify {
  import opened Arith
  import opened Sorting
  import opened Extents
  import opened ExtentOps
  import opened Overlaps
  import opened Store
  import opened Format
  import M = ManifestCheck
  import L = LayoutCheck

  // ---- no two streams over the same bytes -----------------------------------------------

  function Placement(s: Stream): ByteRange {
    ByteRange(s.targetOffset, s.length)
  }

  /** Where the streams of one disk go, in manifest order. */
  function PlacedOn(streams: seq<Stream>, diskId: string): seq<ByteRange> {
    if streams == [] then []
    else
      var before := PlacedOn(streams[..|streams| - 1], diskId);
      var last := streams[|streams| - 1];
      if last.diskId == diskId then before + [Placement(last)] else before
  }

  function DiskIdsOf(streams: seq<Stream>): set<string> {
    set s | s in streams :: s.diskId
  }

  ghost predicate NeighboursClearOn(streams: seq<Stream>, diskId: string) {
    AdjacentClear(SortByKey(PlacedOn(streams, diskId), RangeKey))
  }

  /** Sorts the streams of each disk and compares neighbours. */
  method CheckReconstruction(streams: seq<Stream>) returns (findings: nat)
    ensures findings == 0 <==> forall d :: d in DiskIdsOf(streams) ==> NeighboursClearOn(streams, d)
  {
    findings := 0;
    var left := DiskIdsOf(streams);
    ghost var checked: set<string> := {};
    while left != {}
      invariant checked + left == DiskIdsOf(streams)
      invariant findings == 0 <==> forall d :: d in checked ==> NeighboursClearOn(streams, d)
      decreases |left|
    {
      var d :| d in left;
      var found := CheckAdjacent(SortByKey(PlacedOn(streams, d), RangeKey));
      assert found == 0 <==> NeighboursClearOn(streams, d);
      findings := findings + found;
      left := left - {d};
      checked := checked + {d};
    }
    assert checked == DiskIdsOf(streams);
  }

  /** No two streams restored to the same disk share a byte. */
  ghost predicate StreamsDisjoint(streams: seq<Stream>) {
    forall i, j :: 0 <= i < j < |streams| && streams[i].diskId == streams[j].diskId ==>
      Clear(Placement(streams[i]), Placement(streams[j]))
  }

  ghost predicate StreamsDisjointOn(streams: seq<Stream>, diskId: string) {
    forall i, j :: 0 <= i < j < |streams| && streams[i].diskId == streams[j].diskId == diskId ==>
      Clear(Placement(streams[i]), Placement(streams[j]))
  }

  lemma PairwiseSnoc(rs: seq<ByteRange>, r: ByteRange)
    ensures Disjoint(rs + [r]) <==> Disjoint(rs) && forall i :: 0 <= i < |rs| ==> Clear(rs[i], r)
  {
    var more := rs + [r];
    assert forall i :: 0 <= i < |rs| ==> more[i] == rs[i];
    assert more[|rs|] == r;
  }

  lemma {:induction false} PlacedMembers(streams: seq<Stream>, diskId: string, r: ByteRange)
    ensures r in PlacedOn(streams, diskId) <==>
              exists i :: 0 <= i < |streams| && streams[i].diskId == diskId && Placement(streams[i]) == r
  {
    if streams != [] {
      var init, last := streams[..|streams| - 1], streams[|streams| - 1];
      PlacedMembers(init, diskId, r);
      assert forall i :: 0 <= i < |init| ==> init[i] == streams[i];
      if last.diskId == diskId && Placement(last) == r {
        assert streams[|streams| - 1] == last;
      }
    }
  }

  lemma {:induction false} PlacedDisjoint(streams: seq<Stream>, diskId: string)
    ensures Disjoint(PlacedOn(streams, diskId)) <==> StreamsDisjointOn(streams, diskId)
  {
    if streams != [] {
      var init, last := streams[..|streams| - 1], streams[|streams| - 1];
      PlacedDisjoint(init, diskId);
      var placed := PlacedOn(init, diskId);
      assert forall i :: 0 <= i < |init| ==> init[i] == streams[i];
      if last.diskId == diskId {
        PairwiseSnoc(placed, Placement(last));
        if forall i :: 0 <= i < |placed| ==> Clear(placed[i], Placement(last)) {
          forall i | 0 <= i < |init| && init[i].diskId == diskId
            ensures Clear(Placement(init[i]), Placement(last))
          {
            PlacedMembers(init, diskId, Placement(init[i]));
          }
        }
        if forall i :: 0 <= i < |init| && init[i].diskId == diskId ==> Clear(Placement(init[i]), Placement(last)) {
          forall k | 0 <= k < |placed|
            ensures Clear(placed[k], Placement(last))
          {
            PlacedMembers(init, diskId, placed[k]);
          }
        }
      }
    }
  }

  ghost predicate PlacementsFit(streams: seq<Stream>) {
    forall i :: 0 <= i < |streams| ==> streams[i].length > 0 && streams[i].targetOffset + streams[i].length <= U64_MAX
  }

  lemma PlacedFit(streams: seq<Stream>, diskId: string)
    requires PlacementsFit(streams)
    ensures NoneEmpty(PlacedOn(streams, diskId)) && AllEndsFit(PlacedOn(streams, diskId))
  {
  }

  /** For streams that are not empty and lie where 64 bits reach, neighbours decide for all pairs. */
  lemma ReconstructionIsDisjointness(streams: seq<Stream>)
    requires PlacementsFit(streams)
    ensures (forall d :: d in DiskIdsOf(streams) ==> NeighboursClearOn(streams, d)) <==> StreamsDisjoint(streams)
  {
    forall d
      ensures NeighboursClearOn(streams, d) <==> StreamsDisjointOn(streams, d)
    {
      PlacedFit(streams, d);
      SortedCheckIsComplete(PlacedOn(streams, d));
      PlacedDisjoint(streams, d);
    }
    if forall d :: d in DiskIdsOf(streams) ==> NeighboursClearOn(streams, d) {
      forall i, j | 0 <= i < j < |streams| && streams[i].diskId == streams[j].diskId
        ensures Clear(Placement(streams[i]), Placement(streams[j]))
      {
        assert streams[i] in streams;
        assert StreamsDisjointOn(streams, streams[i].diskId);
      }
    }
  }

  // ---- what is not carried -------------------------------------------------------------------

  datatype Uncovered = Uncovered(stream: string, bytes: nat, gaps: nat)

  /** The gaps of a stream: where its segments leave it uncovered. */
  ghost predicate IsGapsOfStream(gaps: seq<ByteRange>, s: Stream) {
    IsGapsOf(gaps, SegmentRanges(s.segments), s.length)
  }

  lemma SegmentsAscend(segs: seq<Segment>, limit: u64, chunks: seq<ChunkEntry>)
    requires SegmentsOk(segs, limit, chunks)
    ensures Ascending(SegmentRanges(segs))
  {
  }

  /** What is covered and what is not add up to the whole. */
  lemma CoveredAndGapsAddUp(rs: seq<ByteRange>, limit: u64, gaps: seq<ByteRange>)
    requires Ascending(rs) && (forall i :: 0 <= i < |rs| ==> rs[i].Limit() <= limit) && IsGapsOf(gaps, rs, limit)
    ensures SumLengths(rs) + SumLengths(gaps) == limit
  {
    NormalIsAscending(gaps);
    SumCountsBytes(rs);
    SumCountsBytes(gaps);
    SpanSize(0, limit);
    var a, b := CoveredBytes(rs), CoveredBytes(gaps);
    assert a !! b;
    forall x
      ensures x in a + b <==> x in Span(0, limit)
    {
      if Covered(rs, x) {
        var i :| 0 <= i < |rs| && rs[i].Has(x);
        assert rs[i].Limit() <= limit;
      }
    }
    assert a + b == Span(0, limit);
  }

  /** Walks the segments and counts where they leave room. */
  method CountGaps(s: Stream, ghost chunks: seq<ChunkEntry>) returns (gaps: nat)
    ensures SegmentsOk(s.segments, s.length, chunks) ==> forall g :: IsGapsOfStream(g, s) ==> gaps == |g|
  {
    ghost var rs := SegmentRanges(s.segments);
    ghost var sound := SegmentsOk(s.segments, s.length, chunks);
    ghost var listed: seq<ByteRange> := [];
    if sound {
      SegmentsAscend(s.segments, s.length, chunks);
    }
    gaps := 0;
    var cursor: u64 := 0;
    for k := 0 to |s.segments|
      invariant sound ==> GapsSoFar(listed, rs, k, s.length) && gaps == |listed| && cursor == CursorAfter(rs, k)
    {
      var seg := s.segments[k];
      if sound {
        assert SegmentOk(seg, s.length, chunks);
        GapStep(listed, rs, k, s.length);
        listed := WithGap(listed, cursor, seg.offset);
      }
      if seg.offset > cursor {
        gaps := gaps + 1;
      }
      cursor := Max(cursor, Min(seg.offset + seg.length, U64_MAX));
    }
    if sound {
      GapsFinish(listed, rs, |rs|, s.length);
      listed := WithGap(listed, cursor, s.length);
      forall g | IsGapsOfStream(g, s)
        ensures g == listed
      {
        UniqueNormalForm(g, listed);
      }
    }
    if cursor < s.length {
      gaps := gaps + 1;
    }
  }

  /** The summary for one stream agrees with the gaps, in bytes and in number. */
  ghost predicate Summarises(r: Option<Uncovered>, s: Stream, gaps: seq<ByteRange>) {
    r == if !s.capture.MayBeSparse() || gaps == [] then None else Some(Uncovered(s.id, SumLengths(gaps), |gaps|))
  }

  /** It is right about every sound stream, whichever way its gaps are listed. */
  ghost predicate SummaryRight(r: Option<Uncovered>, s: Stream, chunks: seq<ChunkEntry>) {
    SegmentsOk(s.segments, s.length, chunks) ==> forall g :: IsGapsOfStream(g, s) ==> Summarises(r, s, g)
  }

  method UncoveredIn(s: Stream, ghost chunks: seq<ChunkEntry>) returns (r: Option<Uncovered>)
    ensures SummaryRight(r, s, chunks)
  {
    if !s.capture.MayBeSparse() {
      return None;
    }
    var captured := M.CapturedBytes(s);
    if SegmentsOk(s.segments, s.length, chunks) {
      forall g | IsGapsOfStream(g, s)
        ensures captured.Success? && s.length - captured.value == SumLengths(g) && (g == [] <==> SumLengths(g) == 0)
      {
        GapBytes(s, chunks, g);
      }
    }
    if captured.Failure? {
      return None;
    }
    var bytes: u64 := Max(s.length - captured.value, 0);
    if bytes == 0 {
      return None;
    }
    var gaps := CountGaps(s, chunks);
    return Some(Uncovered(s.id, bytes, gaps));
  }

  lemma GapBytes(s: Stream, chunks: seq<ChunkEntry>, gaps: seq<ByteRange>)
    requires SegmentsOk(s.segments, s.length, chunks) && IsGapsOfStream(gaps, s)
    ensures SumSegments(s.segments) + SumLengths(gaps) == s.length
    ensures gaps == [] <==> SumLengths(gaps) == 0
  {
    SegmentsAscend(s.segments, s.length, chunks);
    SumSegmentsIsSumLengths(s.segments);
    forall i | 0 <= i < |s.segments|
      ensures SegmentRanges(s.segments)[i].Limit() <= s.length
    {
      assert SegmentOk(s.segments[i], s.length, chunks);
    }
    CoveredAndGapsAddUp(SegmentRanges(s.segments), s.length, gaps);
  }

  /** The same gaps are those the interval algebra finds around the stream's extents. */
  lemma GapsOfExtents(s: Stream, extents: seq<ByteRange>, gaps: seq<ByteRange>)
    requires IsNormalFormOf(extents, SegmentRanges(s.segments)) && IsGapsOf(gaps, extents, s.length)
    ensures IsGapsOfStream(gaps, s)
  {
  }

  /** The summaries of the streams that have something to report. */
  function Reported(results: seq<Option<Uncovered>>): seq<Uncovered> {
    if results == [] then []
    else
      var before := Reported(results[..|results| - 1]);
      if results[|results| - 1].Some? then before + [results[|results| - 1].value] else before
  }

  /** One summary a stream, each right, and listed where there is something to report. */
  ghost predicate ReportsAll(out: seq<Uncovered>, streams: seq<Stream>, chunks: seq<ChunkEntry>) {
    exists results ::
      && out == Reported(results) && |results| == |streams|
      && forall i :: 0 <= i < |streams| ==> SummaryRight(results[i], streams[i], chunks)
  }

  lemma ReportOneMore(out: seq<Uncovered>, streams: seq<Stream>, chunks: seq<ChunkEntry>, s: Stream,
      r: Option<Uncovered>)
    requires ReportsAll(out, streams, chunks) && SummaryRight(r, s, chunks)
    ensures ReportsAll(out + if r.Some? then [r.value] else [], streams + [s], chunks)
  {
    var results :| out == Reported(results) && |results| == |streams| &&
      forall i :: 0 <= i < |streams| ==> SummaryRight(results[i], streams[i], chunks);
    var more := results + [r];
    assert more[..|results|] == results;
    assert out + (if r.Some? then [r.value] else []) == Reported(more);
  }

  /** Summarises every stream. */
  method CollectUncovered(m: Manifest) returns (out: seq<Uncovered>)
    ensures ReportsAll(out, m.streams, m.chunks)
  {
    out := [];
    assert Reported([]) == out;
    for k := 0 to |m.streams|
      invariant ReportsAll(out, m.streams[..k], m.chunks)
    {
      var r := UncoveredIn(m.streams[k], m.chunks);
      ReportOneMore(out, m.streams[..k], m.chunks, m.streams[k], r);
      assert m.streams[..k + 1] == m.streams[..k] + [m.streams[k]];
      out := out + if r.Some? then [r.value] else [];
    }
    assert m.streams[..|m.streams|] == m.streams;
  }

  lemma {:induction false} ReportedMembers(results: seq<Option<Uncovered>>, u: Uncovered)
    ensures u in Reported(results) <==> exists i :: 0 <= i < |results| && results[i] == Some(u)
  {
    if results != [] {
      var init := results[..|results| - 1];
      ReportedMembers(init, u);
      assert forall i :: 0 <= i < |init| ==> init[i] == results[i];
      if results[|results| - 1] == Some(u) {
        assert u in Reported(results);
      }
    }
  }

  /** A sparse stream with gaps is reported, with their bytes and their number. */
  lemma GapsAreReported(out: seq<Uncovered>, streams: seq<Stream>, chunks: seq<ChunkEntry>, j: nat,
      gaps: seq<ByteRange>)
    requires ReportsAll(out, streams, chunks) && j < |streams|
    requires SegmentsOk(streams[j].segments, streams[j].length, chunks)
    requires streams[j].capture == VssUsedBlocks || streams[j].capture == Preview
    requires IsGapsOfStream(gaps, streams[j]) && gaps != []
    ensures Uncovered(streams[j].id, SumLengths(gaps), |gaps|) in out
  {
    var results :| out == Reported(results) && |results| == |streams| &&
      forall i :: 0 <= i < |streams| ==> SummaryRight(results[i], streams[i], chunks);
    assert Summarises(results[j], streams[j], gaps);
    ReportedMembers(results, Uncovered(streams[j].id, SumLengths(gaps), |gaps|));
  }

  /** Nothing else is reported. */
  lemma OnlyGapsAreReported(out: seq<Uncovered>, streams: seq<Stream>, chunks: seq<ChunkEntry>, u: Uncovered)
    returns (j: nat)
    requires ReportsAll(out, streams, chunks) && u in out
    ensures j < |streams|
    ensures SegmentsOk(streams[j].segments, streams[j].length, chunks) ==>
              forall gaps :: IsGapsOfStream(gaps, streams[j]) ==>
                && gaps != [] && u == Uncovered(streams[j].id, SumLengths(gaps), |gaps|)
                && (streams[j].capture == VssUsedBlocks || streams[j].capture == Preview)
  {
    var results :| out == Reported(results) && |results| == |streams| &&
      forall i :: 0 <= i < |streams| ==> SummaryRight(results[i], streams[i], chunks);
    ReportedMembers(results, u);
    j :| 0 <= j < |results| && results[j] == Some(u);
    assert SummaryRight(results[j], streams[j], chunks);
  }

  // ---- the chunks ----------------------------------------------------------------------------

  datatype Depth = Structure | Full

  datatype VerifyError = Cancelled | TooManyBytes

  datatype VerifyReport = VerifyReport(findings: nat, warnings: nat, chunksVerified: nat, bytesVerified: u64,
      uncovered: seq<Uncovered>) {
    predicate HasPassed() {
      findings == 0
    }

    /** The record that goes into the completion document. */
    function ToRecord(): Verification {
      Verification(if HasPassed() then VerificationResult.Passed else NotPassed, chunksVerified, bytesVerified)
    }
  }

  /** The file under the chunk's name decodes to bytes of that name and of the recorded size. */
  ghost predicate ChunkReads(codec: Codec, files: map<Digest, Stored>, c: ChunkEntry) {
    && c.hash in files && codec.decode(files[c.hash]).Some?
    && |codec.decode(files[c.hash]).value| == c.uncompressedSize
    && codec.name(codec.decode(files[c.hash]).value) == c.hash
  }

  predicate ChunkIsThere(files: map<Digest, Stored>, c: ChunkEntry) {
    c.hash in files && |files[c.hash]| == c.compressedSize
  }

  /** What one chunk has to show at each depth. */
  ghost predicate ChunkSound(depth: Depth, codec: Codec, files: map<Digest, Stored>, c: ChunkEntry) {
    if depth.Full? then ChunkReads(codec, files, c) else ChunkIsThere(files, c)
  }

  /** Nothing stops the chunk from being looked at: its file can be read, and unlocked where it has to be. */
  predicate Accessible(depth: Depth, locked: bool, unreadable: set<Digest>, c: ChunkEntry) {
    c.hash !in unreadable && (depth.Full? ==> !locked)
  }

  /** The first `k` chunks can be read and are sound. */
  ghost predicate ChunksSound(depth: Depth, codec: Codec, files: map<Digest, Stored>, locked: bool,
      unreadable: set<Digest>, chunks: seq<ChunkEntry>, k: nat)
    requires k <= |chunks|
  {
    forall i :: 0 <= i < k ==>
      ChunkSound(depth, codec, files, chunks[i]) && Accessible(depth, locked, unreadable, chunks[i])
  }

  function SizeSum(chunks: seq<ChunkEntry>): nat {
    if chunks == [] then 0 else SizeSum(chunks[..|chunks| - 1]) + chunks[|chunks| - 1].uncompressedSize
  }

  /** Looks at one chunk. */
  method VerifyChunk(c: ChunkEntry, store: ChunkStore, depth: Depth) returns (ok: bool, size: nat)
    ensures ok <==>
              ChunkSound(depth, store.codec, store.files, c) && Accessible(depth, store.locked, store.unreadable, c)
    ensures size == if ok && depth.Full? then c.uncompressedSize else 0
  {
    match depth {
      case Structure =>
        size := 0;
        if c.hash !in store.files || c.hash in store.unreadable {
          return false, 0;
        }
        return |store.files[c.hash]| == c.compressedSize, 0;
      case Full =>
        var data := store.Get(c.hash, c.uncompressedSize);
        if data.Success? {
          return true, |data.value|;
        }
        if ChunkReads(store.codec, store.files, c) {
          assert store.Holds(c.hash, store.codec.decode(store.files[c.hash]).value);
        }
        return false, 0;
    }
  }

  /** Looks at every chunk of the table. */
  method VerifyChunks(chunks: seq<ChunkEntry>, store: ChunkStore, depth: Depth, mayCancel: bool)
    returns (r: Result<(nat, nat, u64), VerifyError>)
    ensures r.Success? ==>
              (r.value.0 == 0 <==>
                ChunksSound(depth, store.codec, store.files, store.locked, store.unreadable, chunks, |chunks|))
    ensures r.Success? && r.value.0 == 0 ==>
              (r.value.1, r.value.2) == if depth.Full? then (|chunks|, SizeSum(chunks)) else (0, 0)
    ensures r.Failure? ==> if r.error == Cancelled then mayCancel else SizeSum(chunks) > U64_MAX
  {
    var findings, verified, bytes: u64 := 0, 0, 0;
    for k := 0 to |chunks|
      invariant findings == 0 <==>
                ChunksSound(depth, store.codec, store.files, store.locked, store.unreadable, chunks, k)
      invariant findings == 0 ==> (verified, bytes) == if depth.Full? then (k, SizeSum(chunks[..k])) else (0, 0)
      invariant bytes <= SizeSum(chunks[..k])
    {
      var cancelled := *;
      if mayCancel && cancelled {
        return Failure(Cancelled);
      }
      assert chunks[..k + 1][..k] == chunks[..k];
      var ok, size := VerifyChunk(chunks[k], store, depth);
      if !ok {
        findings := findings + 1;
      } else if depth.Full? {
        verified := verified + 1;
        SizeSumGrows(chunks, k + 1);
        var sum := AddU64(bytes, size);
        if sum.Failure? {
          return Failure(TooManyBytes);
        }
        bytes := sum.value;
      }
    }
    assert chunks[..|chunks|] == chunks;
    return Success((findings, verified, bytes));
  }

  /** The sizes of tables taken together are those of each. */
  lemma {:induction false} SizeSumOfBoth(a: seq<ChunkEntry>, b: seq<ChunkEntry>)
    ensures SizeSum(a + b) == SizeSum(a) + SizeSum(b)
  {
    if b == [] {
      assert a + b == a;
    } else {
      SizeSumOfBoth(a, b[..|b| - 1]);
      assert (a + b)[..|a + b| - 1] == a + b[..|b| - 1];
    }
  }

  lemma SizeSumOfOne(c: ChunkEntry)
    ensures SizeSum([c]) == c.uncompressedSize
  {
    assert [c][..0] == [];
  }

  lemma {:induction false} SizeSumGrows(chunks: seq<ChunkEntry>, k: nat)
    requires k <= |chunks|
    ensures SizeSum(chunks[..k]) <= SizeSum(chunks)
  {
    if k < |chunks| {
      assert chunks[..|chunks| - 1][..k] == chunks[..k];
      SizeSumGrows(chunks[..|chunks| - 1], k);
    } else {
      assert chunks[..k] == chunks;
    }
  }

  /** The sizes of a table of at most 2^32 chunks add up to less than 64 bits can say. */
  lemma SizesFit(chunks: seq<ChunkEntry>)
    requires |chunks| <= U32_MAX + 1
    ensures SizeSum(chunks) <= U64_MAX
  {
    SizeSumBound(chunks);
  }

  lemma {:induction false} SizeSumBound(chunks: seq<ChunkEntry>)
    ensures SizeSum(chunks) <= |chunks| * U32_MAX
  {
    if chunks != [] {
      SizeSumBound(chunks[..|chunks| - 1]);
    }
  }

  // ---- everything together ---------------------------------------------------------------------

  /** A backup that verification has nothing to say against. */
  ghost predicate Verified(m: Manifest, layout: Option<DiskLayout>, codec: Codec, files: map<Digest, Stored>,
      depth: Depth) {
    && M.ManifestOk(m) && (layout.Some? ==> L.LayoutOk(layout.value))
    && (forall d :: d in DiskIdsOf(m.streams) ==> NeighboursClearOn(m.streams, d))
    && forall i :: 0 <= i < |m.chunks| ==> ChunkSound(depth, codec, files, m.chunks[i])
  }

  /** Every chunk of the manifest can be looked at. */
  ghost predicate AllReadable(m: Manifest, depth: Depth, locked: bool, unreadable: set<Digest>) {
    forall i :: 0 <= i < |m.chunks| ==> Accessible(depth, locked, unreadable, m.chunks[i])
  }

  /**
   A report passes exactly on a sound manifest and layout that restore no byte twice,
   with every chunk readable and, at full depth, reading back.
   */
  method VerifyBackup(m: Manifest, layout: Option<DiskLayout>, store: ChunkStore, depth: Depth, mayCancel: bool)
    returns (r: Result<VerifyReport, VerifyError>)
    ensures r.Success? ==>
              (r.value.HasPassed() <==>
                && Verified(m, layout, store.codec, store.files, depth)
                && AllReadable(m, depth, store.locked, store.unreadable))
    ensures r.Success? && r.value.HasPassed() && depth.Full? ==>
              r.value.chunksVerified == |m.chunks| && r.value.bytesVerified == SizeSum(m.chunks)
    ensures r.Success? ==>
              r.value.warnings == Warnings(m.format) + if layout.Some? then Warnings(layout.value.format) else 0
    ensures r.Success? ==> ReportsAll(r.value.uncovered, m.streams, m.chunks)
    ensures r.Failure? ==> if r.error == Cancelled then mayCancel else SizeSum(m.chunks) > U64_MAX
  {
    var manifestIssues, warnings := M.ValidateManifest(m);
    var findings := |manifestIssues|;
    if layout.Some? {
      var layoutIssues, layoutWarnings := L.ValidateLayout(layout.value);
      findings, warnings := findings + |layoutIssues|, warnings + layoutWarnings;
    }
    var overlaps := CheckReconstruction(m.streams);
    var uncovered := CollectUncovered(m);
    var chunks := VerifyChunks(m.chunks, store, depth, mayCancel);
    if chunks.Failure? {
      return Failure(chunks.error);
    }
    var (bad, verified, bytes) := chunks.value;
    return Success(VerifyReport(findings + overlaps + bad, warnings, verified, bytes, uncovered));
  }

  /** A verified backup restores no byte of a disk twice. */
  lemma VerifiedIsDisjoint(m: Manifest, layout: Option<DiskLayout>, codec: Codec, files: map<Digest, Stored>,
      depth: Depth)
    requires Verified(m, layout, codec, files, depth)
    ensures StreamsDisjoint(m.streams)
  {
    forall i, j | 0 <= i < j < |m.streams| && m.streams[i].diskId == m.streams[j].diskId
      ensures Clear(Placement(m.streams[i]), Placement(m.streams[j]))
    {
      var d := m.streams[i].diskId;
      assert m.streams[i] in m.streams && d in DiskIdsOf(m.streams);
      assert NoneEmpty(PlacedOn(m.streams, d)) by {
        forall k | 0 <= k < |PlacedOn(m.streams, d)|
          ensures PlacedOn(m.streams, d)[k].length > 0
        {
          PlacedMembers(m.streams, d, PlacedOn(m.streams, d)[k]);
          var x :| 0 <= x < |m.streams| && Placement(m.streams[x]) == PlacedOn(m.streams, d)[k];
          assert M.StreamSound(m.streams[x], m.chunks);
        }
      }
      SortedCheckIsComplete(PlacedOn(m.streams, d));
      PlacedDisjoint(m.streams, d);
      assert NeighboursClearOn(m.streams, d) && StreamsDisjointOn(m.streams, d);
    }
  }

  // ---- what verification finds ------------------------------------------------------------

  /** A backup that passes has each chunk's file there, of the size recorded. */
  lemma PassedHasFiles(m: Manifest, layout: Option<DiskLayout>, codec: Codec, files: map<Digest, Stored>, i: nat)
    requires Verified(m, layout, codec, files, Structure) && i < |m.chunks|
    ensures m.chunks[i].hash in files && |files[m.chunks[i].hash]| == m.chunks[i].compressedSize
  {
    assert ChunkSound(Structure, codec, files, m.chunks[i]);
  }

  /** A backup that passes in full has bytes of each chunk's size and name behind its file. */
  lemma PassedHasBytes(m: Manifest, layout: Option<DiskLayout>, codec: Codec, files: map<Digest, Stored>, i: nat)
    requires Verified(m, layout, codec, files, Full) && i < |m.chunks|
    ensures m.chunks[i].hash in files
    ensures exists data :: codec.decode(files[m.chunks[i].hash]) == Some(data) &&
              |data| == m.chunks[i].uncompressedSize && codec.name(data) == m.chunks[i].hash
  {
    assert ChunkSound(Full, codec, files, m.chunks[i]);
  }

  /** Once a chunk's file has gone, no verification passes. */
  lemma MissingChunkIsFound(m: Manifest, layout: Option<DiskLayout>, codec: Codec, files: map<Digest, Stored>,
      depth: Depth, i: nat)
    requires i < |m.chunks|
    ensures !Verified(m, layout, codec, files - {m.chunks[i].hash}, depth)
  {
    var fewer := files - {m.chunks[i].hash};
    if Verified(m, layout, codec, fewer, depth) {
      if depth.Full? {
        PassedHasBytes(m, layout, codec, fewer, i);
      } else {
        PassedHasFiles(m, layout, codec, fewer, i);
      }
    }
  }

  /** A file of another length is found without reading it. */
  lemma ResizedChunkIsFound(m: Manifest, layout: Option<DiskLayout>, codec: Codec, files: map<Digest, Stored>, i: nat,
      other: Stored)
    requires i < |m.chunks| && |other| != m.chunks[i].compressedSize
    ensures !Verified(m, layout, codec, files[m.chunks[i].hash := other], Structure)
  {
    if Verified(m, layout, codec, files[m.chunks[i].hash := other], Structure) {
      PassedHasFiles(m, layout, codec, files[m.chunks[i].hash := other], i);
    }
  }

  /** A file that decodes to anything but the chunk's bytes is found by reading it. */
  lemma AlteredChunkIsFound(m: Manifest, layout: Option<DiskLayout>, codec: Codec, known: iset<Bytes>,
      files: map<Digest, Stored>, i: nat, data: Bytes, other: Stored)
    requires i < |m.chunks| && Lawful(codec, known)
    requires data in known && m.chunks[i].hash == codec.name(data)
    requires codec.decode(other).Some? ==> codec.decode(other).value in known && codec.decode(other).value != data
    ensures !Verified(m, layout, codec, files[m.chunks[i].hash := other], Full)
  {
    if Verified(m, layout, codec, files[m.chunks[i].hash := other], Full) {
      PassedHasBytes(m, layout, codec, files[m.chunks[i].hash := other], i);
    }
  }
}
