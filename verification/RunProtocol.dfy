/**
 The commit protocol of a whole run, as steps that can be cut short anywhere
 (crates/mjolnir-image/src/writer.rs, crates/mjolnir-backup/src/run.rs).

 Everything a run leaves behind appears by a rename, so the folder is the renames
 made so far, in order. A kill keeps them all; a power cut keeps the first few.
 */
module RunProtocol {
  import opened Arith
  import opened Store
  import opened Format
  import opened BackupFolder
  import C = CrossCheck
  import V = Verify

  datatype Rename = ChunkRename(hash: Digest, stored: Stored) | DocumentRename(name: string, bytes: Bytes)

  datatype Rules = Rules(chunks: Codec, documents: DocumentCodec)

  /** The chunk files after some renames. */
  function ChunksOf(log: seq<Rename>): map<Digest, Stored> {
    if log == [] then map[]
    else
      var before, last := ChunksOf(log[..|log| - 1]), log[|log| - 1];
      if last.ChunkRename? then before[last.hash := last.stored] else before
  }

  /** The documents after some renames. */
  function DocumentsOf(log: seq<Rename>): Documents {
    if log == [] then map[]
    else
      var before, last := DocumentsOf(log[..|log| - 1]), log[|log| - 1];
      if last.DocumentRename? then before[last.name := last.bytes] else before
  }

  lemma OneMoreRename(log: seq<Rename>, e: Rename)
    ensures ChunksOf(log + [e]) == if e.ChunkRename? then ChunksOf(log)[e.hash := e.stored] else ChunksOf(log)
    ensures DocumentsOf(log + [e]) == if e.DocumentRename? then
              DocumentsOf(log)[e.name := e.bytes] else DocumentsOf(log)
  {
  }

  // ---- the steps of a run -----------------------------------------------------------------

  datatype Stage =
    | Capturing
    | ManifestWritten(m: Manifest)
    | DocumentsWritten(m: Manifest, layout: DiskLayout)
    | Checked(m: Manifest, layout: DiskLayout, verification: Verification)
    | Finished(completion: Completion)
    | Dead

  datatype RunState = RunState(stage: Stage, log: seq<Rename>)

  function RenameOf(rules: Rules, name: string, document: Document): Rename {
    DocumentRename(name, rules.documents.encode(document))
  }

  /** One more chunk under its final name. */
  ghost predicate StoresChunk(a: RunState, b: RunState) {
    && a.stage.Capturing? && b.stage.Capturing?
    && exists h, s :: h !in ChunksOf(a.log) && b.log == a.log + [ChunkRename(h, s)]
  }

  ghost predicate WritesManifest(rules: Rules, a: RunState, b: RunState) {
    && a.stage.Capturing? && b.stage.ManifestWritten?
    && b.log == a.log + [RenameOf(rules, MANIFEST_FILE, ManifestDocument(b.stage.m))]
  }

  ghost predicate WritesLayout(rules: Rules, a: RunState, b: RunState) {
    && a.stage.ManifestWritten? && b.stage.DocumentsWritten? && b.stage.m == a.stage.m
    && b.log == a.log + [RenameOf(rules, LAYOUT_FILE, LayoutDocument(b.stage.layout))]
  }

  /** Verification at full depth; a pass says that everything was found sound. */
  ghost predicate Verifies(rules: Rules, a: RunState, b: RunState) {
    && a.stage.DocumentsWritten? && b.stage.Checked? && b.stage.m == a.stage.m && b.stage.layout == a.stage.layout
    && b.log == a.log && !b.stage.verification.result.NotPerformed?
    && (b.stage.verification.result.Passed? ==>
          V.Verified(a.stage.m, Some(a.stage.layout), rules.chunks, ChunksOf(a.log), V.Full))
  }

  /** The completion document: complete after a pass, failed otherwise. */
  ghost predicate Marks(rules: Rules, a: RunState, b: RunState) {
    && a.stage.Checked? && b.stage.Finished?
    && IsMarker(rules.documents, DocumentsOf(a.log), a.stage.m, b.stage.completion)
    && b.stage.completion.verification == a.stage.verification && b.stage.completion.completedUtc != ""
    && b.stage.completion.state == (if a.stage.verification.result.Passed? then Complete else Failed)
    && b.log == a.log + [RenameOf(rules, COMPLETION_FILE, CompletionDocument(b.stage.completion))]
  }

  /** The marker of a passed verification was written in this step. */
  ghost predicate MarksPassed(rules: Rules, a: RunState, b: RunState) {
    Marks(rules, a, b) && a.stage.verification.result.Passed?
  }

  /** A kill keeps every rename; a power cut keeps the first of them. */
  ghost predicate CutShort(a: RunState, b: RunState) {
    b.stage.Dead? && b.log <= a.log
  }

  ghost predicate Next(rules: Rules, a: RunState, b: RunState) {
    || StoresChunk(a, b)
    || WritesManifest(rules, a, b)
    || WritesLayout(rules, a, b)
    || Verifies(rules, a, b)
    || Marks(rules, a, b)
    || CutShort(a, b)
  }

  ghost predicate IsRun(rules: Rules, states: seq<RunState>) {
    && states != [] && states[0] == RunState(Capturing, [])
    && forall i :: 1 <= i < |states| ==> Next(rules, states[i - 1], states[i])
  }

  // ---- what every run keeps -----------------------------------------------------------------

  /** If the folder would be accepted, its backup has been verified in full, chunk by chunk. */
  ghost predicate SafeFolder(rules: Rules, log: seq<Rename>) {
    forall m, layout, c :: Openable(rules.documents, DocumentsOf(log), m, layout, c) ==>
      V.Verified(m, Some(layout), rules.chunks, ChunksOf(log), V.Full)
  }

  ghost predicate SafeUpTo(rules: Rules, log: seq<Rename>) {
    forall n :: 0 <= n <= |log| ==> SafeFolder(rules, log[..n])
  }

  predicate NotCompleted(log: seq<Rename>) {
    COMPLETION_FILE !in DocumentsOf(log)
  }

  /** What the run knows about the folder at each stage. */
  ghost predicate StageOk(rules: Rules, s: RunState) {
    var files := DocumentsOf(s.log);
    match s.stage
    case Capturing => NotCompleted(s.log)
    case ManifestWritten(m) =>
      NotCompleted(s.log) && Parsed(rules.documents, files, MANIFEST_FILE) == Some(ManifestDocument(m))
    case DocumentsWritten(m, layout) => HoldsBoth(rules.documents, files, m, layout)
    case Checked(m, layout, v) =>
      && HoldsBoth(rules.documents, files, m, layout)
      && (v.result.Passed? ==> V.Verified(m, Some(layout), rules.chunks, ChunksOf(s.log), V.Full))
    case Finished(_) => true
    case Dead => true
  }

  ghost predicate Inv(rules: Rules, s: RunState) {
    SafeUpTo(rules, s.log) && StageOk(rules, s)
  }

  lemma SafeAppend(rules: Rules, log: seq<Rename>, e: Rename)
    requires SafeUpTo(rules, log) && SafeFolder(rules, log + [e])
    ensures SafeUpTo(rules, log + [e])
  {
    var more := log + [e];
    forall n | 0 <= n <= |more|
      ensures SafeFolder(rules, more[..n])
    {
      if n <= |log| {
        assert more[..n] == log[..n];
      } else {
        assert more[..n] == more;
      }
    }
  }

  lemma NotCompletedIsSafe(rules: Rules, log: seq<Rename>)
    requires NotCompleted(log)
    ensures SafeFolder(rules, log)
  {
  }

  /** Steps before the last leave the folder without a completion document. */
  lemma EarlyStepKeeps(rules: Rules, a: RunState, b: RunState)
    requires DocumentsLawful(rules.documents) && Inv(rules, a)
    requires StoresChunk(a, b) || WritesManifest(rules, a, b) || WritesLayout(rules, a, b)
    ensures Inv(rules, b)
  {
    var e := b.log[|a.log|];
    assert b.log == a.log + [e];
    OneMoreRename(a.log, e);
    NotCompletedIsSafe(rules, b.log);
    SafeAppend(rules, a.log, e);
  }

  lemma VerifyStepKeeps(rules: Rules, a: RunState, b: RunState)
    requires Inv(rules, a) && Verifies(rules, a, b)
    ensures Inv(rules, b)
  {
  }

  /** What a mark leaves is the folder that was checked, with its marker. */
  lemma MarkLeaves(rules: Rules, a: RunState, b: RunState)
    requires DocumentsLawful(rules.documents) && StageOk(rules, a) && Marks(rules, a, b)
    ensures HoldsBoth(rules.documents, DocumentsOf(a.log), a.stage.m, a.stage.layout)
    ensures DocumentsOf(b.log) == Marked(rules.documents, DocumentsOf(a.log), b.stage.completion)
    ensures ChunksOf(b.log) == ChunksOf(a.log)
  {
    OneMoreRename(a.log, RenameOf(rules, COMPLETION_FILE, CompletionDocument(b.stage.completion)));
  }

  /** What a marked folder can open as is what was verified. */
  lemma MarkedIsVerified(rules: Rules, a: RunState, b: RunState, m: Manifest, layout: DiskLayout, c: Completion)
    requires DocumentsLawful(rules.documents) && StageOk(rules, a) && Marks(rules, a, b)
    requires Openable(rules.documents, DocumentsOf(b.log), m, layout, c)
    ensures MarksPassed(rules, a, b) && a.stage == Checked(m, layout, c.verification)
    ensures V.Verified(m, Some(layout), rules.chunks, ChunksOf(b.log), V.Full)
  {
    MarkLeaves(rules, a, b);
    MarkerIsSound(rules.documents, DocumentsOf(a.log), a.stage.m, a.stage.layout, b.stage.completion);
    assert c == b.stage.completion;
  }

  lemma MarkIsSafe(rules: Rules, a: RunState, b: RunState)
    requires DocumentsLawful(rules.documents) && StageOk(rules, a) && Marks(rules, a, b)
    ensures SafeFolder(rules, b.log)
  {
    forall m, layout, c | Openable(rules.documents, DocumentsOf(b.log), m, layout, c)
      ensures V.Verified(m, Some(layout), rules.chunks, ChunksOf(b.log), V.Full)
    {
      MarkedIsVerified(rules, a, b, m, layout, c);
    }
  }

  lemma MarkStepKeeps(rules: Rules, a: RunState, b: RunState)
    requires DocumentsLawful(rules.documents) && Inv(rules, a) && Marks(rules, a, b)
    ensures Inv(rules, b)
  {
    MarkIsSafe(rules, a, b);
    SafeAppend(rules, a.log, RenameOf(rules, COMPLETION_FILE, CompletionDocument(b.stage.completion)));
  }

  lemma CutKeeps(rules: Rules, a: RunState, b: RunState)
    requires Inv(rules, a) && CutShort(a, b)
    ensures Inv(rules, b)
  {
    forall n | 0 <= n <= |b.log|
      ensures SafeFolder(rules, b.log[..n])
    {
      assert b.log[..n] == a.log[..n];
    }
  }

  lemma StepKeeps(rules: Rules, a: RunState, b: RunState)
    requires DocumentsLawful(rules.documents) && Inv(rules, a) && Next(rules, a, b)
    ensures Inv(rules, b)
  {
    if StoresChunk(a, b) || WritesManifest(rules, a, b) || WritesLayout(rules, a, b) {
      EarlyStepKeeps(rules, a, b);
    } else if Verifies(rules, a, b) {
      VerifyStepKeeps(rules, a, b);
    } else if Marks(rules, a, b) {
      MarkStepKeeps(rules, a, b);
    } else {
      CutKeeps(rules, a, b);
    }
  }

  lemma {:induction false} RunKeeps(rules: Rules, states: seq<RunState>, i: nat)
    requires DocumentsLawful(rules.documents) && IsRun(rules, states) && i < |states|
    ensures Inv(rules, states[i])
  {
    if i > 0 {
      RunKeeps(rules, states, i - 1);
      StepKeeps(rules, states[i - 1], states[i]);
    } else {
      NotCompletedIsSafe(rules, []);
      assert forall n :: 0 <= n <= 0 ==> states[0].log[..n] == [];
    }
  }

  lemma VerifiedReads(rules: Rules, m: Manifest, layout: DiskLayout, files: map<Digest, Stored>)
    requires V.Verified(m, Some(layout), rules.chunks, files, V.Full)
    ensures forall k :: 0 <= k < |m.chunks| ==> V.ChunkReads(rules.chunks, files, m.chunks[k])
    ensures V.StreamsDisjoint(m.streams)
  {
    V.VerifiedIsDisjoint(m, Some(layout), rules.chunks, files, V.Full);
    forall k | 0 <= k < |m.chunks|
      ensures V.ChunkReads(rules.chunks, files, m.chunks[k])
    {
      assert V.ChunkSound(V.Full, rules.chunks, files, m.chunks[k]);
    }
  }

  lemma NotYetCompleted(rules: Rules, s: RunState)
    requires StageOk(rules, s) && !s.stage.Finished? && !s.stage.Dead?
    ensures NotCompleted(s.log)
  {
  }

  lemma UnfinishedDoesNotOpen(rules: Rules, s: RunState, left: seq<Rename>)
    requires StageOk(rules, s) && !s.stage.Finished? && !s.stage.Dead? && left <= s.log
    ensures !Opens(rules.documents, DocumentsOf(left))
  {
    NotYetCompleted(rules, s);
    if COMPLETION_FILE in DocumentsOf(left) {
      NamesStay(s.log, left, COMPLETION_FILE);
    }
    OpeningNeedsCompletion(rules.documents, DocumentsOf(left));
  }

  /** Until the completion document is written, no interruption leaves a folder that opens. */
  lemma InterruptedRunDoesNotOpen(rules: Rules, states: seq<RunState>, i: nat, left: seq<Rename>)
    requires DocumentsLawful(rules.documents) && IsRun(rules, states) && i < |states| && left <= states[i].log
    requires !states[i].stage.Finished? && !states[i].stage.Dead?
    ensures !Opens(rules.documents, DocumentsOf(left))
  {
    RunKeeps(rules, states, i);
    UnfinishedDoesNotOpen(rules, states[i], left);
  }

  lemma OpeningNeedsCompletion(codec: DocumentCodec, files: Documents)
    ensures COMPLETION_FILE !in files ==> !Opens(codec, files)
  {
  }

  lemma {:induction false} NamesStay(log: seq<Rename>, left: seq<Rename>, name: string)
    requires left <= log && name in DocumentsOf(left)
    ensures name in DocumentsOf(log)
  {
    if |left| < |log| {
      NamesStay(log[..|log| - 1], left, name);
    } else {
      assert left == log;
    }
  }

  /** A marker of anything but a pass leaves a folder that does not open. */
  lemma FailedMarkDoesNotOpen(rules: Rules, a: RunState, b: RunState)
    requires DocumentsLawful(rules.documents) && Inv(rules, a) && Marks(rules, a, b)
    requires !a.stage.verification.result.Passed?
    ensures !Opens(rules.documents, DocumentsOf(b.log))
  {
    MarkLeaves(rules, a, b);
    MarkedOpensIff(rules.documents, DocumentsOf(a.log), a.stage.m, a.stage.layout, b.stage.completion);
  }

  /** Only a mark ends a run in time, and only an interruption ends it early. */
  lemma LastStep(rules: Rules, a: RunState, b: RunState, left: seq<Rename>)
    requires DocumentsLawful(rules.documents) && Next(rules, a, b) && left <= b.log
    ensures b.stage.Finished? ==> Marks(rules, a, b) && a.stage.Checked? && (left == b.log || left <= a.log)
    ensures b.stage.Dead? ==> left <= a.log
  {
    if b.stage.Finished? && |left| == |b.log| {
      assert left == b.log;
    }
  }

  /** If a folder opens after a run's last step, it was the mark of a pass. */
  lemma FinishedOpensAfterPass(rules: Rules, a: RunState, b: RunState)
    requires DocumentsLawful(rules.documents) && Inv(rules, a) && Next(rules, a, b) && b.stage.Finished?
    ensures Opens(rules.documents, DocumentsOf(b.log)) ==> MarksPassed(rules, a, b)
  {
    LastStep(rules, a, b, []);
    if !a.stage.verification.result.Passed? {
      FailedMarkDoesNotOpen(rules, a, b);
    }
  }

  /** Step `j` marked a pass, and left just these renames. */
  ghost predicate MarkedAs(rules: Rules, states: seq<RunState>, j: nat, log: seq<Rename>) {
    j + 1 < |states| && MarksPassed(rules, states[j], states[j + 1]) && log == states[j + 1].log
  }

  /** A folder that opens was already there before a step, or the step marked a pass. */
  lemma OpenedByStep(rules: Rules, a: RunState, b: RunState, left: seq<Rename>)
    requires DocumentsLawful(rules.documents) && Inv(rules, a) && Inv(rules, b) && Next(rules, a, b) && left <= b.log
    ensures Opens(rules.documents, DocumentsOf(left)) ==>
              left <= a.log || (MarksPassed(rules, a, b) && left == b.log)
  {
    LastStep(rules, a, b, left);
    if !b.stage.Finished? && !b.stage.Dead? {
      UnfinishedDoesNotOpen(rules, b, left);
    } else if left == b.log && b.stage.Finished? {
      FinishedOpensAfterPass(rules, a, b);
    }
  }

  /** The first state to have made these renames. */
  lemma {:induction false} FirstWith(states: seq<RunState>, i: nat, left: seq<Rename>) returns (k: nat)
    requires i < |states| && left <= states[i].log
    ensures k <= i && left <= states[k].log && (k == 0 || !(left <= states[k - 1].log))
  {
    k := i;
    if i > 0 && left <= states[i - 1].log {
      k := FirstWith(states, i - 1, left);
    }
  }

  /** If the first renames make a folder that opens, the run passed its verification and these end with its marker. */
  lemma OpenedAfterPass(rules: Rules, states: seq<RunState>, i: nat, left: seq<Rename>) returns (j: nat)
    requires DocumentsLawful(rules.documents) && IsRun(rules, states) && i < |states| && left <= states[i].log
    ensures Opens(rules.documents, DocumentsOf(left)) ==> j < i && MarkedAs(rules, states, j, left)
  {
    var k := FirstWith(states, i, left);
    RunKeeps(rules, states, k);
    if k == 0 {
      UnfinishedDoesNotOpen(rules, states[0], left);
      j := 0;
    } else {
      j := k - 1;
      RunKeeps(rules, states, j);
      OpenedByStep(rules, states[j], states[k], left);
    }
  }

  /**
   However a run goes and wherever it is cut short: if what is left opens, then the run
   passed a full verification of just these documents and wrote their marker, and
   nothing of it is missing. Every chunk the manifest lists reads back under its name
   and size, and no byte is restored twice.
   */
  lemma OpenedFolderWasVerified(rules: Rules, states: seq<RunState>, i: nat, left: seq<Rename>,
      m: Manifest, layout: DiskLayout, c: Completion) returns (j: nat)
    requires DocumentsLawful(rules.documents) && IsRun(rules, states) && i < |states| && left <= states[i].log
    requires Openable(rules.documents, DocumentsOf(left), m, layout, c)
    ensures j < i && MarkedAs(rules, states, j, left) && states[j].stage == Checked(m, layout, c.verification)
    ensures forall k :: 0 <= k < |m.chunks| ==> V.ChunkReads(rules.chunks, ChunksOf(left), m.chunks[k])
    ensures V.StreamsDisjoint(m.streams)
  {
    j := OpenedAfterPass(rules, states, i, left);
    RunKeeps(rules, states, j);
    MarkedIsVerified(rules, states[j], states[j + 1], m, layout, c);
    VerifiedReads(rules, m, layout, ChunksOf(left));
  }

  /**
   A run marked complete opens exactly when its manifest and layout agree: verification
   checks each document on its own, and only opening compares them.
   */
  lemma CompletedRunOpensIff(rules: Rules, states: seq<RunState>, i: nat)
    requires DocumentsLawful(rules.documents) && IsRun(rules, states) && i + 1 < |states|
    requires MarksPassed(rules, states[i], states[i + 1])
    ensures Opens(rules.documents, DocumentsOf(states[i + 1].log)) <==>
            C.Consistent(states[i].stage.m, states[i].stage.layout, None)
  {
    RunKeeps(rules, states, i);
    var a, b := states[i], states[i + 1];
    MarkLeaves(rules, a, b);
    MarkedOpensIff(rules.documents, DocumentsOf(a.log), a.stage.m, a.stage.layout, b.stage.completion);
  }
}
