/**
 The renames that a run makes, as a run of the protocol
 (crates/mjolnir-image/src/writer.rs, crates/mjolnir-backup/src/run.rs).
 */
module Traces {
  import opened Arith
  import opened Store
  import opened Format
  import opened BackupFolder
  import opened RunProtocol
  import V = Verify

  function ChunkRenames(renames: seq<(Digest, Stored)>): seq<Rename> {
    if renames == [] then []
    else
      var last := renames[|renames| - 1];
      ChunkRenames(renames[..|renames| - 1]) + [ChunkRename(last.0, last.1)]
  }

  function DocumentRenames(renames: seq<(string, Bytes)>): seq<Rename> {
    if renames == [] then []
    else
      var last := renames[|renames| - 1];
      DocumentRenames(renames[..|renames| - 1]) + [DocumentRename(last.0, last.1)]
  }

  /** All renames: the chunks, then the documents. */
  function LogOf(chunks: seq<(Digest, Stored)>, documents: seq<(string, Bytes)>): seq<Rename> {
    ChunkRenames(chunks) + DocumentRenames(documents)
  }

  lemma {:induction false} ChunksReplay(chunks: seq<(Digest, Stored)>)
    ensures ChunksOf(ChunkRenames(chunks)) == Finals(chunks) && DocumentsOf(ChunkRenames(chunks)) == map[]
  {
    if chunks != [] {
      var init, last := chunks[..|chunks| - 1], chunks[|chunks| - 1];
      ChunksReplay(init);
      OneMoreRename(ChunkRenames(init), ChunkRename(last.0, last.1));
    }
  }

  /** The log gives back the chunk files and the documents. */
  lemma {:induction false} LogReplays(chunks: seq<(Digest, Stored)>, documents: seq<(string, Bytes)>)
    ensures ChunksOf(LogOf(chunks, documents)) == Finals(chunks)
    ensures DocumentsOf(LogOf(chunks, documents)) == FilesOf(documents)
  {
    if documents == [] {
      ChunksReplay(chunks);
      assert LogOf(chunks, documents) == ChunkRenames(chunks);
    } else {
      var init, last := documents[..|documents| - 1], documents[|documents| - 1];
      LogReplays(chunks, init);
      OneMoreRename(LogOf(chunks, init), DocumentRename(last.0, last.1));
      assert LogOf(chunks, documents) == LogOf(chunks, init) + [DocumentRename(last.0, last.1)];
    }
  }

  lemma OneMoreDocument(chunks: seq<(Digest, Stored)>, documents: seq<(string, Bytes)>, last: (string, Bytes))
    ensures LogOf(chunks, documents + [last]) == LogOf(chunks, documents) + [DocumentRename(last.0, last.1)]
  {
    assert (documents + [last])[..|documents|] == documents;
  }

  /** Some run of the protocol makes just these renames and has come to this stage. */
  ghost predicate Reaches(rules: Rules, log: seq<Rename>, stage: Stage) {
    exists states :: IsRun(rules, states) && states[|states| - 1] == RunState(stage, log)
  }

  lemma ReachesNext(rules: Rules, a: RunState, b: RunState)
    requires Reaches(rules, a.log, a.stage) && Next(rules, a, b)
    ensures Reaches(rules, b.log, b.stage)
  {
    var states :| IsRun(rules, states) && states[|states| - 1] == RunState(a.stage, a.log);
    var more := states + [b];
    forall i | 1 <= i < |more|
      ensures Next(rules, more[i - 1], more[i])
    {
      if i < |states| {
        assert Next(rules, states[i - 1], states[i]);
      }
    }
    assert IsRun(rules, more) && more[|more| - 1] == RunState(b.stage, b.log);
  }

  /** Chunks that are each stored once are the first steps of a run. */
  lemma {:induction false} ChunksReach(rules: Rules, chunks: seq<(Digest, Stored)>)
    requires NamedOnce(chunks)
    ensures Reaches(rules, ChunkRenames(chunks), Capturing)
  {
    if chunks == [] {
      assert IsRun(rules, [RunState(Capturing, [])]);
    } else {
      var init, last := chunks[..|chunks| - 1], chunks[|chunks| - 1];
      ChunksReach(rules, init);
      ChunksReplay(init);
      if last.0 in Finals(init) {
        FinalsComeFromRenames(init, last.0);
      }
      var a, b := RunState(Capturing, ChunkRenames(init)), RunState(Capturing, ChunkRenames(chunks));
      assert StoresChunk(a, b) by {
        assert last.0 !in ChunksOf(a.log) && b.log == a.log + [ChunkRename(last.0, last.1)];
      }
      ReachesNext(rules, a, b);
    }
  }

  /** The two documents as they are renamed. */
  function ManifestRename(codec: DocumentCodec, m: Manifest): (string, Bytes) {
    (MANIFEST_FILE, codec.encode(ManifestDocument(m)))
  }

  function LayoutRename(codec: DocumentCodec, layout: DiskLayout): (string, Bytes) {
    (LAYOUT_FILE, codec.encode(LayoutDocument(layout)))
  }

  function MarkerRename(codec: DocumentCodec, c: Completion): (string, Bytes) {
    (COMPLETION_FILE, codec.encode(CompletionDocument(c)))
  }

  /** The first documents of a run: none of them, the manifest, or the manifest and the layout. */
  predicate FirstDocuments(codec: DocumentCodec, documents: seq<(string, Bytes)>, m: Manifest, layout: DiskLayout) {
    documents <= [ManifestRename(codec, m), LayoutRename(codec, layout)]
  }

  lemma ManifestReaches(rules: Rules, chunks: seq<(Digest, Stored)>, m: Manifest)
    requires NamedOnce(chunks)
    ensures Reaches(rules, LogOf(chunks, [ManifestRename(rules.documents, m)]), ManifestWritten(m))
  {
    ChunksReach(rules, chunks);
    OneMoreDocument(chunks, [], ManifestRename(rules.documents, m));
    assert [] + [ManifestRename(rules.documents, m)] == [ManifestRename(rules.documents, m)];
    assert LogOf(chunks, []) == ChunkRenames(chunks);
    ReachesNext(rules, RunState(Capturing, ChunkRenames(chunks)),
      RunState(ManifestWritten(m), LogOf(chunks, [ManifestRename(rules.documents, m)])));
  }

  function Both(codec: DocumentCodec, m: Manifest, layout: DiskLayout): seq<(string, Bytes)> {
    [ManifestRename(codec, m), LayoutRename(codec, layout)]
  }

  /** The two documents, and nothing else. */
  lemma FilesOfBoth(codec: DocumentCodec, m: Manifest, layout: DiskLayout)
    ensures FilesOf(Both(codec, m, layout)) == FolderOf(codec, m, layout)
  {
    var first := [ManifestRename(codec, m)];
    assert Both(codec, m, layout)[..1] == first && first[..0] == [];
    assert FilesOf(first) == map[MANIFEST_FILE := codec.encode(ManifestDocument(m))];
  }

  lemma LayoutReaches(rules: Rules, chunks: seq<(Digest, Stored)>, m: Manifest, layout: DiskLayout)
    requires NamedOnce(chunks)
    ensures Reaches(rules, LogOf(chunks, Both(rules.documents, m, layout)), DocumentsWritten(m, layout))
  {
    ManifestReaches(rules, chunks, m);
    OneMoreDocument(chunks, [ManifestRename(rules.documents, m)], LayoutRename(rules.documents, layout));
    assert [ManifestRename(rules.documents, m)] + [LayoutRename(rules.documents, layout)] ==
           Both(rules.documents, m, layout);
    ReachesNext(rules, RunState(ManifestWritten(m), LogOf(chunks, [ManifestRename(rules.documents, m)])),
      RunState(DocumentsWritten(m, layout), LogOf(chunks, Both(rules.documents, m, layout))));
  }

  lemma FirstDocumentsReach(rules: Rules, chunks: seq<(Digest, Stored)>, documents: seq<(string, Bytes)>, m: Manifest,
      layout: DiskLayout) returns (stage: Stage)
    requires NamedOnce(chunks) && FirstDocuments(rules.documents, documents, m, layout)
    ensures Reaches(rules, LogOf(chunks, documents), stage) && !stage.Finished? && !stage.Dead?
  {
    if |documents| == 0 {
      ChunksReach(rules, chunks);
      assert LogOf(chunks, documents) == ChunkRenames(chunks);
      stage := Capturing;
    } else if |documents| == 1 {
      ManifestReaches(rules, chunks, m);
      assert documents == [ManifestRename(rules.documents, m)];
      stage := ManifestWritten(m);
    } else {
      LayoutReaches(rules, chunks, m, layout);
      assert documents == Both(rules.documents, m, layout);
      stage := DocumentsWritten(m, layout);
    }
  }

  /** The marker of a verification that was carried out over these chunk files. */
  ghost predicate MarkerOf(rules: Rules, chunkFiles: map<Digest, Stored>, files: Documents, m: Manifest,
      layout: DiskLayout, c: Completion)
  {
    && IsMarker(rules.documents, files, m, c) && c.completedUtc != ""
    && !c.verification.result.NotPerformed?
    && c.state == (if c.verification.result.Passed? then Complete else Failed)
    && (c.verification.result.Passed? ==> V.Verified(m, Some(layout), rules.chunks, chunkFiles, V.Full))
  }

  lemma MarkerReaches(rules: Rules, chunks: seq<(Digest, Stored)>, m: Manifest, layout: DiskLayout, c: Completion)
    requires NamedOnce(chunks)
    requires MarkerOf(rules, Finals(chunks), FilesOf(Both(rules.documents, m, layout)), m, layout, c)
    ensures Reaches(rules, LogOf(chunks, Both(rules.documents, m, layout) + [MarkerRename(rules.documents, c)]),
                    Finished(c))
  {
    var documents := Both(rules.documents, m, layout);
    LayoutReaches(rules, chunks, m, layout);
    LogReplays(chunks, documents);
    var written := RunState(DocumentsWritten(m, layout), LogOf(chunks, documents));
    var checked := RunState(Checked(m, layout, c.verification), LogOf(chunks, documents));
    ReachesNext(rules, written, checked);
    OneMoreDocument(chunks, documents, MarkerRename(rules.documents, c));
    var finished := RunState(Finished(c), LogOf(chunks, documents + [MarkerRename(rules.documents, c)]));
    assert Marks(rules, checked, finished);
    ReachesNext(rules, checked, finished);
  }

  /** Nothing short of all its renames leaves a folder that opens. */
  lemma ReachedIsClosedBefore(rules: Rules, log: seq<Rename>, stage: Stage, left: seq<Rename>)
    requires DocumentsLawful(rules.documents) && Reaches(rules, log, stage) && !stage.Dead?
    requires left <= log && left != log
    ensures !Opens(rules.documents, DocumentsOf(left))
  {
    var states :| IsRun(rules, states) && states[|states| - 1] == RunState(stage, log);
    var last := |states| - 1;
    if !stage.Finished? {
      InterruptedRunDoesNotOpen(rules, states, last, left);
    } else {
      LastStep(rules, states[last - 1], states[last], left);
      InterruptedRunDoesNotOpen(rules, states, last - 1, left);
    }
  }

  // ---- the renames of a run ---------------------------------------------------------------

  /** At most the two documents have been renamed. */
  ghost predicate FirstOf(codec: DocumentCodec, before: seq<(string, Bytes)>, after: seq<(string, Bytes)>) {
    || after == before
    || exists m, layout :: before <= after && FirstDocuments(codec, after[|before|..], m, layout)
  }

  /** At most the marker has been renamed. */
  ghost predicate MarkedOrNot(rules: Rules, chunkFiles: map<Digest, Stored>, files: Documents, m: Manifest,
      layout: DiskLayout, before: seq<(string, Bytes)>, after: seq<(string, Bytes)>)
  {
    || after == before
    || exists c :: after == before + [MarkerRename(rules.documents, c)] &&
                   MarkerOf(rules, chunkFiles, files, m, layout, c)
  }

  /** The renames are those of a run of the protocol that nothing has cut short. */
  ghost predicate IsTrace(rules: Rules, log: seq<Rename>) {
    exists stage :: Reaches(rules, log, stage) && !stage.Dead?
  }

  lemma EarlyTrace(rules: Rules, chunks: seq<(Digest, Stored)>, documents: seq<(string, Bytes)>)
    requires NamedOnce(chunks) && FirstOf(rules.documents, [], documents)
    ensures IsTrace(rules, LogOf(chunks, documents))
  {
    if documents == [] {
      ChunksReach(rules, chunks);
      assert LogOf(chunks, documents) == ChunkRenames(chunks);
    } else {
      var m, layout :| FirstDocuments(rules.documents, documents[0..], m, layout);
      assert documents[0..] == documents;
      var stage := FirstDocumentsReach(rules, chunks, documents, m, layout);
    }
  }

  lemma MarkedTrace(rules: Rules, chunks: seq<(Digest, Stored)>, m: Manifest, layout: DiskLayout,
      documents: seq<(string, Bytes)>)
    requires NamedOnce(chunks)
    requires var both := Both(rules.documents, m, layout);
             MarkedOrNot(rules, Finals(chunks), FilesOf(both), m, layout, both, documents)
    ensures IsTrace(rules, LogOf(chunks, documents))
  {
    var both := Both(rules.documents, m, layout);
    if documents == both {
      LayoutReaches(rules, chunks, m, layout);
    } else {
      var c :| documents == both + [MarkerRename(rules.documents, c)] &&
        MarkerOf(rules, Finals(chunks), FilesOf(both), m, layout, c);
      MarkerReaches(rules, chunks, m, layout, c);
    }
  }

  /** Nothing short of all the renames leaves a folder that opens. */
  ghost predicate ClosedBefore(codec: DocumentCodec, log: seq<Rename>) {
    forall left :: left <= log && left != log ==> !Opens(codec, DocumentsOf(left))
  }

  lemma TracesAreClosedBefore(rules: Rules, log: seq<Rename>)
    requires DocumentsLawful(rules.documents) && IsTrace(rules, log)
    ensures ClosedBefore(rules.documents, log)
  {
    var stage :| Reaches(rules, log, stage) && !stage.Dead?;
    forall left | left <= log && left != log
      ensures !Opens(rules.documents, DocumentsOf(left))
    {
      ReachedIsClosedBefore(rules, log, stage, left);
    }
  }
}
