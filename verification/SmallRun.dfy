/**
 A whole run over a small disk of zeros, under any name a plan may give the disk. It is
 verified and marked complete, and its folder opens if the name is the recorded one
 (crates/mjolnir-backup/src/run.rs, crates/mjolnir-image/src/set.rs).
 */
module SmallRun {
  import opened Arith
  import opened Extents
  import opened Pieces
  import opened Store
  import opened Format
  import opened Shapes
  import opened Capture
  import opened CaptureDisk
  import opened Acceptance
  import opened Producer
  import opened BackupFolder
  import opened Codecs
  import opened RunProtocol
  import M = ManifestCheck
  import V = Verify

  /** A run marked complete opens exactly if its plan called the disk and its partitions by their recorded names. */
  lemma CompletedRunOpensIffNamed(rules: Rules, states: seq<RunState>, i: nat, spec: CaptureSpec)
    requires DocumentsLawful(rules.documents) && IsRun(rules, states) && i + 1 < |states|
    requires MarksPassed(rules, states[i], states[i + 1])
    requires DocumentsOfCapture(spec, states[i].stage.m, states[i].stage.layout)
    ensures Opens(rules.documents, DocumentsOf(states[i + 1].log)) <==> NamesDisk(spec)
  {
    CompletedRunOpensIff(rules, states, i);
    RunKeeps(rules, states, i);
    VerifiedDocumentsAgreeIff(spec, states[i].stage.m, states[i].stage.layout, rules.chunks, ChunksOf(states[i].log));
  }

  // ---- the plan -------------------------------------------------------------------------------

  /** The small disk, called `id`, with a partition whose plan lists nothing. */
  function ZeroPlan(id: string): CaptureSpec {
    CaptureSpec(id, SmallDisk(), 512, 512, [PartitionCapture("part", "data", VssUsedBlocks, 512)])
  }

  function ZeroSources(): Sources {
    Sources(seq(65536, _ => 0), [None], [PlanOf([])])
  }

  function Zeros(): Bytes {
    seq(512, _ => 0)
  }

  /** Head and tail hold the same sector of zeros, so both come to the only chunk. */
  function ZeroSector(header: Stream): Stream {
    header.(segments := [Segment(0, 512, 0)])
  }

  function ZeroData(id: string): Stream {
    Stream("data", PartitionKind, id, Some("part"), 512, 512, VssUsedBlocks, [], Some(UsedBlockInfo(0)), false)
  }

  function ZeroHead(id: string): Stream {
    ZeroSector(HeadHeader(ZeroPlan(id)))
  }

  function ZeroTail(id: string): Stream {
    ZeroSector(TailHeader(ZeroPlan(id)))
  }

  function ZeroManifest(id: string, name: Digest, storedBytes: u64): Manifest {
    Manifest(CurrentFormat(ManifestKind), SmallParameters(), NilGuid(), DEFAULT_CHUNK_SIZE, [],
      [ZeroData(id), ZeroHead(id), ZeroTail(id)],
      [ChunkEntry(name, 512, storedBytes)], 17920, Stats(1024, storedBytes, 1, 2, 1))
  }

  function ZeroLogs(): seq<seq<Piece>> {
    [[], [Piece(0, Zeros())], [Piece(0, Zeros())]]
  }

  // ---- its streams are a capture of that disk ----------------------------------------------------

  lemma ZeroRegionCaptured(header: Stream)
    requires header.segments == [] && header.length == 512
    ensures RegionCaptured(header, ZeroSources().disk, ZeroSector(header), [Piece(0, Zeros())])
  {
    var ps := [GridPiece(0, 512, DEFAULT_CHUNK_SIZE)];
    var src := Source(Raw(ZeroSources().disk, header.targetOffset));
    assert ps[..0] == [];
    assert SumLengths(ps) == 512;
    assert GridUpTo(ps, header.length, header.length, DEFAULT_CHUNK_SIZE);
    PiecesOfAt(src, ps);
    assert SourceSlice(src, 0, 512) == Zeros();
    assert PiecesOf(src, ps) == [Piece(0, Zeros())];
  }

  lemma ZeroCaptured(id: string, m: Manifest)
    requires m.streams == [ZeroData(id), ZeroHead(id), ZeroTail(id)]
    ensures SourcesFit(ZeroPlan(id), ZeroSources())
    ensures DiskCaptured(ZeroPlan(id), ZeroSources(), m.streams, ZeroLogs(), 0)
    ensures StreamsRecorded(m.streams, ZeroLogs(), [Zeros()])
  {
    ZeroRegionCaptured(HeadHeader(ZeroPlan(id)));
    ZeroRegionCaptured(TailHeader(ZeroPlan(id)));
    assert CapturedAt(ZeroPlan(id), ZeroSources(), m.streams, ZeroLogs(), 0, 0);
  }

  // ---- which passes every check of a verification --------------------------------------------------

  lemma ZeroSegments(id: string, name: Digest, storedBytes: u64)
    ensures AllSegments(ZeroManifest(id, name, storedBytes).streams) == [Segment(0, 512, 0), Segment(0, 512, 0)]
    ensures SumSegments([Segment(0, 512, 0)]) == 512
  {
    SegmentsOfThree(ZeroData(id), ZeroHead(id), ZeroTail(id));
    assert [Segment(0, 512, 0)][..0] == [];
  }

  lemma ZeroStats(id: string, name: Digest, storedBytes: u64)
    ensures M.StatsOk(ZeroManifest(id, name, storedBytes))
  {
    var s, c := Segment(0, 512, 0), ChunkEntry(name, 512, storedBytes);
    ZeroSegments(id, name, storedBytes);
    SumsOfTwo(s, s, c, c);
    assert [c][..0] == [];
    assert ChunksUsed([s, s]) == {0};
  }

  lemma ZeroIdsDiffer(id: string)
    ensures ZeroHead(id).id != ZeroTail(id).id
    ensures ZeroData(id).id != ZeroHead(id).id && ZeroData(id).id != ZeroTail(id).id
  {
    assert ZeroHead(id).id == id + "-head" && ZeroTail(id).id == id + "-tail";
    assert ZeroHead(id).id[|id| + 1] != ZeroTail(id).id[|id| + 1];
    assert |ZeroData(id).id| < |ZeroHead(id).id| == |ZeroTail(id).id|;
  }

  lemma ZeroStreamsSound(id: string, name: Digest, storedBytes: u64)
    ensures M.StreamsSound(ZeroManifest(id, name, storedBytes).streams, ZeroManifest(id, name, storedBytes).chunks)
  {
    ZeroSegments(id, name, storedBytes);
    ZeroIdsDiffer(id);
  }

  lemma ZeroStreamsClear(id: string, name: Digest, storedBytes: u64)
    ensures var streams := ZeroManifest(id, name, storedBytes).streams;
            forall d :: d in V.DiskIdsOf(streams) ==> V.NeighboursClearOn(streams, d)
  {
    V.ReconstructionIsDisjointness(ZeroManifest(id, name, storedBytes).streams);
  }

  lemma ZeroVerifies(id: string, codec: Codec, stored: Stored, files: map<Digest, Stored>)
    requires codec.decode(stored) == Some(Zeros()) && 0 < |stored| <= U64_MAX
    requires codec.name(Zeros()) in files && files[codec.name(Zeros())] == stored
    ensures V.Verified(ZeroManifest(id, codec.name(Zeros()), |stored|), Some(SmallLayout()), codec, files, V.Full)
  {
    var name, bytes := codec.name(Zeros()), |stored|;
    ZeroStats(id, name, bytes);
    ZeroStreamsSound(id, name, bytes);
    ZeroStreamsClear(id, name, bytes);
    SmallLayoutOk();
    assert |Zeros()| == 512;
  }

  // ---- and its run is marked complete ----------------------------------------------------------------

  function ZeroManifestFor(id: string, rules: Rules, stored: Stored): Manifest
    requires |stored| <= U64_MAX
  {
    ZeroManifest(id, rules.chunks.name(Zeros()), |stored|)
  }

  /** Every step of a run: the chunk, the manifest, the layout, the verification and the marker. */
  function ZeroRun(id: string, rules: Rules, stored: Stored): seq<RunState>
    requires |stored| <= U64_MAX && BothFit(rules.documents, ZeroManifestFor(id, rules, stored), SmallLayout())
  {
    var m, layout := ZeroManifestFor(id, rules, stored), SmallLayout();
    var passed := Verification(Passed, 1, 512);
    var c := CompletionFor(rules.documents, m, layout, passed, "1970");
    var chunk := [ChunkRename(rules.chunks.name(Zeros()), stored)];
    var first := chunk + [RenameOf(rules, MANIFEST_FILE, ManifestDocument(m))];
    var second := first + [RenameOf(rules, LAYOUT_FILE, LayoutDocument(layout))];
    var last := second + [RenameOf(rules, COMPLETION_FILE, CompletionDocument(c))];
    [RunState(Capturing, []), RunState(Capturing, chunk), RunState(ManifestWritten(m), first),
     RunState(DocumentsWritten(m, layout), second), RunState(Checked(m, layout, passed), second),
     RunState(Finished(c), last)]
  }

  lemma ZeroChunkStays(id: string, rules: Rules, stored: Stored)
    requires |stored| <= U64_MAX && BothFit(rules.documents, ZeroManifestFor(id, rules, stored), SmallLayout())
    ensures ChunksOf(ZeroRun(id, rules, stored)[3].log) == map[rules.chunks.name(Zeros()) := stored]
    ensures DocumentsOf(ZeroRun(id, rules, stored)[3].log) ==
            FolderOf(rules.documents, ZeroManifestFor(id, rules, stored), SmallLayout())
  {
    var states := ZeroRun(id, rules, stored);
    OneMoreRename(states[2].log, states[3].log[2]);
    OneMoreRename(states[1].log, states[2].log[1]);
    OneMoreRename(states[0].log, states[1].log[0]);
    assert states[0].log + [states[1].log[0]] == states[1].log;
  }

  /** The stored bytes are the encoded sector, and the texts of both documents are within 64 bits. */
  ghost predicate ZeroFits(id: string, rules: Rules, stored: Stored) {
    && DocumentsLawful(rules.documents) && rules.chunks.decode(stored) == Some(Zeros()) && 0 < |stored| <= U64_MAX
    && BothFit(rules.documents, ZeroManifestFor(id, rules, stored), SmallLayout())
  }

  lemma ZeroRunIsMarked(id: string, rules: Rules, stored: Stored)
    requires ZeroFits(id, rules, stored)
    ensures MarksPassed(rules, ZeroRun(id, rules, stored)[4], ZeroRun(id, rules, stored)[5])
  {
    ZeroChunkStays(id, rules, stored);
    CompletionForIsMarker(rules.documents, ZeroManifestFor(id, rules, stored), SmallLayout(),
                          Verification(Passed, 1, 512), "1970");
  }

  lemma ZeroRunIsRun(id: string, rules: Rules, stored: Stored)
    requires ZeroFits(id, rules, stored)
    ensures IsRun(rules, ZeroRun(id, rules, stored))
    ensures MarksPassed(rules, ZeroRun(id, rules, stored)[4], ZeroRun(id, rules, stored)[5])
  {
    var states := ZeroRun(id, rules, stored);
    ZeroChunkStays(id, rules, stored);
    ZeroVerifies(id, rules.chunks, stored, ChunksOf(states[3].log));
    assert rules.chunks.name(Zeros()) !in ChunksOf([]);
    assert StoresChunk(states[0], states[1]);
    assert WritesManifest(rules, states[1], states[2]);
    assert WritesLayout(rules, states[2], states[3]);
    assert Verifies(rules, states[3], states[4]);
    ZeroRunIsMarked(id, rules, stored);
  }

  lemma ZeroDocuments(id: string, name: Digest, storedBytes: u64)
    ensures DocumentsOfCapture(ZeroPlan(id), ZeroManifest(id, name, storedBytes), SmallLayout())
  {
    ZeroCaptured(id, ZeroManifest(id, name, storedBytes));
    CapturedIsDescribed(ZeroPlan(id), ZeroSources(), ZeroManifest(id, name, storedBytes).streams, ZeroLogs());
    SmallDiskOk();
    assert [SmallDisk()][..0] == [];
  }

  /** The run of a capture of the small disk of zeros that was marked complete. */
  ghost predicate IsZeroRun(id: string, rules: Rules, states: seq<RunState>) {
    && IsRun(rules, states) && |states| == 6 && MarksPassed(rules, states[4], states[5])
    && SourcesFit(ZeroPlan(id), ZeroSources())
    && DiskCaptured(ZeroPlan(id), ZeroSources(), states[4].stage.m.streams, ZeroLogs(), 0)
    && StreamsRecorded(states[4].stage.m.streams, ZeroLogs(), [Zeros()])
  }

  /** Whatever the codecs, such a run leaves a folder that opens exactly if its plan used the recorded name. */
  lemma ZeroRunOpensIff(id: string, rules: Rules, stored: Stored)
    requires ZeroFits(id, rules, stored)
    ensures IsZeroRun(id, rules, ZeroRun(id, rules, stored))
    ensures Opens(rules.documents, DocumentsOf(ZeroRun(id, rules, stored)[5].log)) <==> id == "disk"
  {
    ZeroRunIsRun(id, rules, stored);
    ZeroCaptured(id, ZeroManifestFor(id, rules, stored));
    ZeroDocuments(id, rules.chunks.name(Zeros()), |stored|);
    CompletedRunOpensIffNamed(rules, ZeroRun(id, rules, stored), 4, ZeroPlan(id));
  }

  /** There are lawful codecs for it. */
  lemma ZeroFitsSomewhere(id: string) returns (rules: Rules, stored: Stored)
    ensures ZeroFits(id, rules, stored)
  {
    var chunks, known := LawfulChunks(ZeroSources());
    stored := chunks.encode(Zeros(), 0);
    var m := ZeroManifest(id, chunks.name(Zeros()), |stored|);
    var documents := LawfulDocuments([ManifestDocument(m), LayoutDocument(SmallLayout())]);
    rules := Rules(chunks, documents);
  }

  /** A run of a plan that calls its disk by another name is marked complete, and what it leaves does not open. */
  lemma CompletedRunCanBeRefused() returns (rules: Rules, states: seq<RunState>)
    ensures DocumentsLawful(rules.documents) && IsZeroRun("other", rules, states)
    ensures !Opens(rules.documents, DocumentsOf(states[5].log))
  {
    var stored;
    rules, stored := ZeroFitsSomewhere("other");
    ZeroRunOpensIff("other", rules, stored);
    states := ZeroRun("other", rules, stored);
  }

  /** A run of a plan that calls its disk by its name is marked complete, and what it leaves opens. */
  lemma CompletedRunCanOpen() returns (rules: Rules, states: seq<RunState>)
    ensures DocumentsLawful(rules.documents) && IsZeroRun("disk", rules, states)
    ensures Opens(rules.documents, DocumentsOf(states[5].log))
  {
    var stored;
    rules, stored := ZeroFitsSomewhere("disk");
    ZeroRunOpensIff("disk", rules, stored);
    states := ZeroRun("disk", rules, stored);
  }

  /** A folder that opens although two of its streams share bytes. */
  lemma OverlapIsOpened() returns (codec: DocumentCodec, files: Documents, c: Completion)
    ensures DocumentsLawful(codec) && Openable(codec, files, SmallManifest(), SmallLayout(), c)
    ensures !V.StreamsDisjoint(SmallManifest().streams)
  {
    codec := LawfulDocuments([ManifestDocument(SmallManifest()), LayoutDocument(SmallLayout())]);
    files, c := OpenedStreamsCanOverlap(codec);
  }
}
