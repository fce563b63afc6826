/**
 A backup run from capture to completion marker (crates/mjolnir-backup/src/run.rs,
 crates/mjolnir-image/src/writer.rs).
 */
module Run {
  import opened Arith
  import opened Extents
  import opened Store
  import opened Format
  import opened Writer
  import opened Capture
  import opened CaptureDisk
  import opened Finalize
  import opened Acceptance
  import opened Producer
  import opened Reader
  import opened RoundTrip
  import opened Plans
  import opened Shapes
  import opened BackupFolder
  import opened RunProtocol
  import opened Traces
  import C = CrossCheck
  import L = LayoutCheck
  import M = ManifestCheck
  import V = Verify

  datatype RunError =
    | CaptureFailed(backup: BackupError)
    | TotalsFailed(arith: ArithError)
    | FolderFailed(folder: FolderError)
    | VerifyStopped(verify: V.VerifyError)
    | FailedVerification

  /** The documents as written, with the digests to record for them. */
  datatype Finalized = Finalized(manifest: Manifest, layout: DiskLayout, documents: seq<DocumentDigest>)

  /** The documents to record: the two of every backup, then the volume indexes that may be followed. */
  function IndexPaths(volumes: seq<VolumeEntry>): seq<string> {
    if volumes == [] then []
    else
      var before, last := IndexPaths(volumes[..|volumes| - 1]), volumes[|volumes| - 1];
      if last.indexPath.Some? && IsSafeRelativePath(last.indexPath.value) then before + [last.indexPath.value]
      else before
  }

  /** The index paths of volumes taken together are those of each, in order. */
  lemma {:induction false} IndexPathsOfBoth(a: seq<VolumeEntry>, b: seq<VolumeEntry>)
    ensures IndexPaths(a + b) == IndexPaths(a) + IndexPaths(b)
  {
    if b == [] {
      assert a + b == a;
    } else {
      IndexPathsOfBoth(a, b[..|b| - 1]);
      assert (a + b)[..|a + b| - 1] == a + b[..|b| - 1];
    }
  }

  lemma IndexPathsOfOne(v: VolumeEntry)
    ensures IndexPaths([v]) ==
            if v.indexPath != None && IsSafeRelativePath(v.indexPath.value) then [v.indexPath.value] else []
  {
    assert [v][..0] == [];
  }

  /** The digests of just these documents, in this order. */
  ghost predicate AreOf(documents: seq<DocumentDigest>, paths: seq<string>) {
    |documents| == |paths| && forall i :: 0 <= i < |paths| ==> documents[i].path == paths[i]
  }

  /** The manifest, the layout and the volume indexes are listed, in this order. */
  ghost predicate Lists(f: Finalized, volumes: seq<VolumeEntry>) {
    AreOf(f.documents, ["manifest.json", "disk-layout.json"] + IndexPaths(volumes))
  }

  /** No file of the folder is empty. */
  ghost predicate FilesFit(files: Documents) {
    forall name :: name in files ==> 0 < |files[name]| <= U64_MAX
  }

  /** A volume index that may be followed is not in the folder or cannot be read. */
  ghost predicate IndexGone(volumes: seq<VolumeEntry>, folder: Folder)
    reads folder
  {
    exists path :: path in IndexPaths(volumes) && (path !in folder.files || path in folder.unreadable)
  }

  /** Digests the volume indexes; an unsafe path is passed over, a file that is not there or not readable is not. */
  method DigestIndexes(volumes: seq<VolumeEntry>, folder: Folder) returns (r: Result<seq<DocumentDigest>, FolderError>)
    requires FilesFit(folder.files)
    ensures r.Success? ==>
              AreOf(r.value, IndexPaths(volumes)) && AllRecorded(folder.codec, folder.files, r.value)
    ensures r.Failure? ==> r.error == DeviceError && IndexGone(volumes, folder)
  {
    var documents: seq<DocumentDigest> := [];
    for k := 0 to |volumes|
      invariant AreOf(documents, IndexPaths(volumes[..k])) && AllRecorded(folder.codec, folder.files, documents)
    {
      assert volumes[..k + 1][..k] == volumes[..k];
      var path := volumes[k].indexPath;
      if path.Some? && IsSafeRelativePath(path.value) {
        if path.value !in folder.files || path.value in folder.unreadable {
          PathsStay(volumes, k + 1, path.value);
          return Failure(DeviceError);
        }
        var bytes := folder.files[path.value];
        documents := documents + [DocumentDigest(path.value, folder.codec.name(bytes), |bytes|)];
      }
    }
    assert volumes[..|volumes|] == volumes;
    return Success(documents);
  }

  lemma {:induction false} PathsStay(volumes: seq<VolumeEntry>, k: nat, path: string)
    requires k <= |volumes| && path in IndexPaths(volumes[..k])
    ensures path in IndexPaths(volumes)
  {
    if k < |volumes| {
      assert volumes[..|volumes| - 1][..k] == volumes[..k];
      PathsStay(volumes[..|volumes| - 1], k, path);
    } else {
      assert volumes[..k] == volumes;
    }
  }

  /** The folder holds both documents, the digests are theirs, and there is no marker yet. */
  ghost predicate AwaitsMark(folder: Folder, f: Finalized)
    reads folder
  {
    && HoldsBoth(folder.codec, folder.files, f.manifest, f.layout)
    && |f.documents| >= 2 && f.documents[0].path == MANIFEST_FILE && f.documents[1].path == LAYOUT_FILE
    && AllRecorded(folder.codec, folder.files, f.documents)
  }

  /** Why finalising fails, when it does: totals past 64 bits, a text past 64 bits, the drive, or a missing index. */
  ghost predicate FinalizeExplained(e: RunError, w: BackupWriter, folder: Folder)
    reads w, folder
  {
    match e
    case TotalsFailed(_) => StatsOf(w.streams, w.chunks).Failure? || RequiredRestore(w.disks).Failure?
    case FolderFailed(_) =>
      || folder.faulty || IndexGone(w.volumes, folder)
      || exists m :: IsManifestOf(m, w) && !BothFit(folder.codec, m, LayoutOf(w.uuid, w.disks))
    case _ => false
  }

  /** Settles the totals and writes manifest.json and disk-layout.json. */
  method FinalizeInto(w: BackupWriter, folder: Folder) returns (r: Result<Finalized, RunError>)
    requires DocumentsLawful(folder.codec) && COMPLETION_FILE !in folder.files && FilesFit(folder.files)
    modifies folder`files, folder`temps, folder`renames
    ensures COMPLETION_FILE !in folder.files && (old(folder.Valid()) && folder.present ==> folder.Valid())
    ensures FirstOf(folder.codec, old(folder.renames), folder.renames)
    ensures r.Success? ==> folder.renames == old(folder.renames) + Both(folder.codec, r.value.manifest, r.value.layout)
    ensures r.Failure? ==> FinalizeExplained(r.error, w, folder)
    ensures r.Success? ==>
              && AwaitsMark(folder, r.value)
              && IsManifestOf(r.value.manifest, w) && r.value.layout == LayoutOf(w.uuid, w.disks)
              && AreOf(r.value.documents, [MANIFEST_FILE, LAYOUT_FILE] + IndexPaths(w.volumes))
  {
    var documents := FinalizeBackup(w);
    if documents.Failure? {
      return Failure(TotalsFailed(documents.error));
    }
    var (m, layout) := documents.value;
    var written := WriteDocuments(m, layout, folder);
    if written.Failure? {
      return Failure(FolderFailed(written.error));
    }
    return Success(Finalized(m, layout, written.value));
  }

  /** Writes the two documents, one after the other. */
  method WriteBoth(m: Manifest, layout: DiskLayout, folder: Folder)
    returns (r: Result<seq<DocumentDigest>, FolderError>)
    requires DocumentsLawful(folder.codec) && COMPLETION_FILE !in folder.files && FilesFit(folder.files)
    modifies folder`files, folder`temps, folder`renames
    ensures COMPLETION_FILE !in folder.files && FilesFit(folder.files)
    ensures old(folder.Valid()) && folder.present ==> folder.Valid()
    ensures FirstOf(folder.codec, old(folder.renames), folder.renames)
    ensures r.Success? ==>
              && folder.renames == old(folder.renames) + Both(folder.codec, m, layout)
              && HoldsBoth(folder.codec, folder.files, m, layout)
              && AreOf(r.value, [MANIFEST_FILE, LAYOUT_FILE]) && AllRecorded(folder.codec, folder.files, r.value)
    ensures r.Failure? ==> folder.faulty || !BothFit(folder.codec, m, layout)
  {
    var manifestDigest := folder.WriteJsonAtomic(MANIFEST_FILE, ManifestDocument(m));
    if manifestDigest.Failure? {
      return Failure(manifestDigest.error);
    }
    assert FirstDocuments(folder.codec, folder.renames[|old(folder.renames)|..], m, layout);
    var layoutDigest := folder.WriteJsonAtomic(LAYOUT_FILE, LayoutDocument(layout));
    if layoutDigest.Failure? {
      return Failure(layoutDigest.error);
    }
    assert folder.renames == old(folder.renames) + Both(folder.codec, m, layout);
    assert FirstDocuments(folder.codec, folder.renames[|old(folder.renames)|..], m, layout);
    NamesAreSafe();
    return Success([manifestDigest.value, layoutDigest.value]);
  }

  /** Writes the two documents and digests them and the volume indexes. */
  method WriteDocuments(m: Manifest, layout: DiskLayout, folder: Folder)
    returns (r: Result<seq<DocumentDigest>, FolderError>)
    requires DocumentsLawful(folder.codec) && COMPLETION_FILE !in folder.files && FilesFit(folder.files)
    modifies folder`files, folder`temps, folder`renames
    ensures COMPLETION_FILE !in folder.files && (old(folder.Valid()) && folder.present ==> folder.Valid())
    ensures FirstOf(folder.codec, old(folder.renames), folder.renames)
    ensures r.Success? ==> folder.renames == old(folder.renames) + Both(folder.codec, m, layout)
    ensures r.Success? ==>
              && AwaitsMark(folder, Finalized(m, layout, r.value))
              && AreOf(r.value, [MANIFEST_FILE, LAYOUT_FILE] + IndexPaths(m.volumes))
    ensures r.Failure? ==> folder.faulty || !BothFit(folder.codec, m, layout) || IndexGone(m.volumes, folder)
  {
    var both := WriteBoth(m, layout, folder);
    if both.Failure? {
      return both;
    }
    var indexes := DigestIndexes(m.volumes, folder);
    if indexes.Failure? {
      return Failure(indexes.error);
    }
    return Success(both.value + indexes.value);
  }

  function CompletionOf(f: Finalized, state: CompletionState, v: Verification, completedUtc: string): Completion {
    Completion(CurrentFormat(CompletionKind), f.manifest.uuid, state, completedUtc, v, f.documents,
      f.manifest.requiredRestoreBytes)
  }

  /** The text of the completion document is past what 64 bits can say. */
  ghost predicate TooLong(codec: DocumentCodec, c: Completion) {
    |codec.encode(CompletionDocument(c))| > U64_MAX
  }

  method WriteCompletion(f: Finalized, folder: Folder, state: CompletionState, v: Verification, completedUtc: string)
    returns (r: Result<Completion, FolderError>)
    requires DocumentsLawful(folder.codec) && AwaitsMark(folder, f)
    modifies folder`files, folder`temps, folder`renames
    ensures old(folder.Valid()) && folder.present ==> folder.Valid()
    ensures r.Failure? ==> folder.files == old(folder.files) && folder.renames == old(folder.renames)
    ensures r.Success? ==>
              && r.value == CompletionOf(f, state, v, completedUtc)
              && folder.renames == old(folder.renames) + [MarkerRename(folder.codec, r.value)]
              && folder.files == Marked(folder.codec, old(folder.files), r.value)
              && IsMarker(folder.codec, old(folder.files), f.manifest, r.value)
    ensures r.Failure? ==> folder.faulty || TooLong(folder.codec, CompletionOf(f, state, v, completedUtc))
  {
    var c := CompletionOf(f, state, v, completedUtc);
    var written := folder.WriteJsonAtomic(COMPLETION_FILE, CompletionDocument(c));
    return if written.Failure? then Failure(written.error) else Success(c);
  }

  /** Makes the backup restorable, and refuses unless verification passed. */
  method MarkComplete(f: Finalized, folder: Folder, v: Verification, completedUtc: string)
    returns (r: Result<Completion, FolderError>)
    requires DocumentsLawful(folder.codec) && AwaitsMark(folder, f)
    modifies folder`files, folder`temps, folder`renames
    ensures old(folder.Valid()) && folder.present ==> folder.Valid()
    ensures r.Failure? ==> folder.files == old(folder.files) && folder.renames == old(folder.renames)
    ensures !v.result.Passed? ==> r == Failure(VerificationDidNotPass)
    ensures v.result.Passed? && r.Failure? ==>
              folder.faulty || TooLong(folder.codec, CompletionOf(f, Complete, v, completedUtc))
    ensures r.Success? ==> r.value == CompletionOf(f, Complete, v, completedUtc)
    ensures r.Success? ==>
              && folder.renames == old(folder.renames) + [MarkerRename(folder.codec, r.value)]
              && folder.files == Marked(folder.codec, old(folder.files), r.value)
              && IsMarker(folder.codec, old(folder.files), f.manifest, r.value)
              && HoldsDocuments(folder.codec, folder.files, f.manifest, f.layout, r.value)
              && (CompletionOk(r.value) <==> IsGuid(f.manifest.uuid) && completedUtc != "")
              && DigestsMatch(folder.codec, folder.files, r.value)
              && (Openable(folder.codec, folder.files, f.manifest, f.layout, r.value) <==>
                  completedUtc != "" && Accepted(f.manifest, f.layout, None))
  {
    if !v.result.Passed? {
      return Failure(VerificationDidNotPass);
    }
    ghost var before := folder.files;
    r := WriteCompletion(f, folder, Complete, v, completedUtc);
    if r.Success? {
      MarkerIsSound(folder.codec, before, f.manifest, f.layout, r.value);
      MarkedOpensIff(folder.codec, before, f.manifest, f.layout, r.value);
    }
  }

  /** Records that the run failed, without making the backup restorable. */
  method MarkFailed(f: Finalized, folder: Folder, v: Verification, completedUtc: string)
    returns (r: Result<Completion, FolderError>)
    requires DocumentsLawful(folder.codec) && AwaitsMark(folder, f)
    modifies folder`files, folder`temps, folder`renames
    ensures old(folder.Valid()) && folder.present ==> folder.Valid()
    ensures !Opens(folder.codec, folder.files)
    ensures r.Failure? ==> folder.renames == old(folder.renames)
    ensures r.Success? ==>
              && r.value == CompletionOf(f, Failed, v, completedUtc)
              && r.value.state == Failed && r.value.verification == v && r.value.documents == f.documents
              && folder.renames == old(folder.renames) + [MarkerRename(folder.codec, r.value)]
              && IsMarker(folder.codec, old(folder.files), f.manifest, r.value)
              && HoldsDocuments(folder.codec, folder.files, f.manifest, f.layout, r.value)
  {
    ghost var before := folder.files;
    r := WriteCompletion(f, folder, Failed, v, completedUtc);
    if r.Success? {
      MarkerIsSound(folder.codec, before, f.manifest, f.layout, r.value);
      MarkedOpensIff(folder.codec, before, f.manifest, f.layout, r.value);
    }
  }

  /** The completion document of a run that passed a full verification. */
  function PassedMarker(f: Finalized, completedUtc: string): Completion {
    CompletionOf(f, Complete, Verification(Passed, |f.manifest.chunks|, V.SizeSum(f.manifest.chunks)), completedUtc)
  }

  /** The completion document of a run says that it passed, on how many chunks and bytes, and lists its documents. */
  predicate SaysPassed(c: Completion, f: Finalized) {
    && c.state == Complete && c.documents == f.documents
    && c.verification == Verification(Passed, |f.manifest.chunks|, V.SizeSum(f.manifest.chunks))
  }

  /** Why verifying and marking fails, when it does. */
  ghost predicate CloseExplained(e: RunError, f: Finalized, store: ChunkStore, folder: Folder, completedUtc: string,
      mayCancel: bool)
    reads store
  {
    match e
    case VerifyStopped(stop) =>
      if stop == V.VerifyError.Cancelled then mayCancel else V.SizeSum(f.manifest.chunks) > U64_MAX
    case FailedVerification =>
      || !V.Verified(f.manifest, Some(f.layout), store.codec, store.files, V.Full)
      || !V.AllReadable(f.manifest, V.Full, store.locked, store.unreadable)
    case FolderFailed(_) => folder.faulty || TooLong(folder.codec, PassedMarker(f, completedUtc))
    case _ => false
  }

  /** Verifies what was written in full, then marks the folder one way or the other. */
  method VerifyAndMark(f: Finalized, folder: Folder, store: ChunkStore, completedUtc: string, mayCancel: bool)
    returns (r: Result<Completion, RunError>)
    requires DocumentsLawful(folder.codec) && AwaitsMark(folder, f) && completedUtc != ""
    modifies folder`files, folder`temps, folder`renames
    ensures old(folder.Valid()) && folder.present ==> folder.Valid()
    ensures MarkedOrNot(Rules(store.codec, folder.codec), store.files, old(folder.files), f.manifest, f.layout,
                        old(folder.renames), folder.renames)
    ensures r.Failure? ==> !Opens(folder.codec, folder.files)
    ensures r.Failure? ==> CloseExplained(r.error, f, store, folder, completedUtc, mayCancel)
    ensures r.Success? ==>
              && r.value == PassedMarker(f, completedUtc) && SaysPassed(r.value, f)
              && folder.files == Marked(folder.codec, old(folder.files), r.value)
              && IsMarker(folder.codec, old(folder.files), f.manifest, r.value)
    ensures r.Success? ==>
              && V.Verified(f.manifest, Some(f.layout), store.codec, store.files, V.Full)
              && V.AllReadable(f.manifest, V.Full, store.locked, store.unreadable)
              && HoldsDocuments(folder.codec, folder.files, f.manifest, f.layout, r.value)
              && (Openable(folder.codec, folder.files, f.manifest, f.layout, r.value) <==>
                  C.Consistent(f.manifest, f.layout, None))
  {
    var report := V.VerifyBackup(f.manifest, Some(f.layout), store, V.Full, mayCancel);
    if report.Failure? {
      return Failure(VerifyStopped(report.error));
    }
    var verification := report.value.ToRecord();
    if report.value.HasPassed() {
      var marked := MarkComplete(f, folder, verification, completedUtc);
      if marked.Failure? {
        return Failure(FolderFailed(marked.error));
      }
      assert MarkerOf(Rules(store.codec, folder.codec), store.files, old(folder.files), f.manifest, f.layout,
                      marked.value);
      return Success(marked.value);
    }
    var failed := MarkFailed(f, folder, verification, completedUtc);
    if failed.Success? {
      assert MarkerOf(Rules(store.codec, folder.codec), store.files, old(folder.files), f.manifest, f.layout,
                      failed.value);
    }
    return Failure(FailedVerification);
  }

  /** The renames made for the store and for the folder, in order. */
  ghost function Renames(store: ChunkStore, folder: Folder): seq<Rename>
    reads store, folder
  {
    LogOf(store.renames, folder.renames)
  }

  /** They are a run of the protocol, and give back what is in the store and in the folder. */
  ghost predicate Traced(store: ChunkStore, folder: Folder)
    reads store, folder
  {
    && IsTrace(Rules(store.codec, folder.codec), Renames(store, folder))
    && ChunksOf(Renames(store, folder)) == store.files && DocumentsOf(Renames(store, folder)) == folder.files
  }

  /**
   The totals are those of the run: the captured bytes are those of the ranges read and
   of the two ends of the disk, every chunk is used and has its file, and every segment
   either brought a chunk or was deduplicated.
   */
  ghost predicate TotalsAre(spec: CaptureSpec, sources: Sources, m: Manifest, files: map<Digest, Stored>)
    requires SourcesFit(spec, sources)
  {
    && Filed(m.chunks, files) && m.stats.storedBytes <= FilesSize(files)
    && m.stats.capturedBytes == ReadTotal(spec, sources)
    && ChunksUsed(AllSegments(m.streams)) == Span(0, |m.chunks|)
    && m.stats.totalSegments == m.stats.uniqueChunks + m.stats.deduplicatedSegments
  }

  /** What is asked of a run beside its plan. */
  datatype Request = Request(
    uuid: string, chunkSize: u32, parameters: Parameters, volumes: seq<VolumeEntry>, completedUtc: string)

  /** The manifest is the one asked for. */
  predicate Asked(m: Manifest, request: Request) {
    && m.uuid == request.uuid && m.chunkSize == request.chunkSize && m.parameters == request.parameters
    && m.volumes == request.volumes
  }

  /** A sound disk, planned as it is. */
  ghost predicate SoundPlan(spec: CaptureSpec) {
    WellPlanned(spec) && L.DiskOk(spec.disk) && L.IdsDistinct(L.PartitionIds(spec.disk.partitions))
  }

  /** With a sound plan, valid parameters and volumes, only a full table or an unreadable chunk is refused. */
  ghost predicate RefusedFor(spec: CaptureSpec, m: Manifest, locked: bool, unreadable: set<Digest>) {
    SoundPlan(spec) && M.ParametersOk(m) && M.VolumesOk(m.volumes, m.streams) ==>
      |m.chunks| == U32_MAX + 1 || !V.AllReadable(m, V.Full, locked, unreadable)
  }

  /** What a successful run leaves on the drive. */
  ghost predicate Stands(spec: CaptureSpec, sources: Sources, store: ChunkStore, folder: Folder, f: Finalized,
      c: Completion)
    requires SourcesFit(spec, sources) && |spec.partitions| == |spec.disk.partitions|
    reads store, folder
  {
    && V.Verified(f.manifest, Some(f.layout), store.codec, store.files, V.Full)
    && SaysPassed(c, f)
    && HoldsDocuments(folder.codec, folder.files, f.manifest, f.layout, c) && Sealed(folder.codec, folder.files)
    && (Openable(folder.codec, folder.files, f.manifest, f.layout, c) <==> NamesDisk(spec))
    && TotalsAre(spec, sources, f.manifest, store.files)
    && BacksUp(spec, sources, store.codec, store.known, f.manifest)
    && Described(spec, f.manifest.streams)
  }

  /** Why the capture fails, when it does. */
  ghost predicate CaptureExplained(e: BackupError, spec: CaptureSpec, sources: Sources, chunkSize: u32,
      conditions: Conditions, healthy: bool, files: map<Digest, Stored>)
    requires |spec.partitions| == |spec.disk.partitions| ==> SourcesFit(spec, sources)
  {
    || (e == Cancelled && conditions.mayCancel)
    || (e == ReadFailed && conditions.mayFailToRead)
    || (e.StoreFailed? && !healthy)
    || (e == TooManyChunks && |files| > U32_MAX)
    || (if |spec.partitions| == |spec.disk.partitions| then PlanAtFault(spec, sources, e, chunkSize)
        else e == PlanMismatch)
  }

  /**
   Why a run in a new folder fails, when it does; `m` is the manifest it settled on and
   `f` what it finalised.
   */
  ghost predicate RunExplained(e: RunError, spec: CaptureSpec, sources: Sources, store: ChunkStore, folder: Folder,
      request: Request, conditions: Conditions, m: Option<Manifest>, f: Option<Finalized>)
    requires |spec.partitions| == |spec.disk.partitions| ==> SourcesFit(spec, sources)
    reads store, folder
  {
    match e
    case CaptureFailed(backup) =>
      CaptureExplained(backup, spec, sources, request.chunkSize, conditions, store.Healthy(), store.files)
    case TotalsFailed(_) =>
      && |spec.partitions| == |spec.disk.partitions|
      && (ReadTotal(spec, sources) > U64_MAX || FilesSize(store.files) > U64_MAX || RequiredTarget(spec.disk).Failure?)
    case FolderFailed(_) =>
      || folder.faulty || IndexGone(request.volumes, folder)
      || (m.Some? && !BothFit(folder.codec, m.value, LayoutOf(request.uuid, [spec.disk])))
      || (f.Some? && TooLong(folder.codec, PassedMarker(f.value, request.completedUtc)))
    case VerifyStopped(stop) => stop == V.VerifyError.Cancelled && conditions.mayCancel
    case FailedVerification =>
      && f.Some? && RefusedFor(spec, f.value.manifest, store.locked, store.unreadable)
      && Filed(f.value.manifest.chunks, store.files)
  }

  /**
   The whole run. If it succeeds the manifest holds the disk and has been verified in
   full, its totals are right, and the folder opens exactly if the plan called the disk
   and its partitions by their recorded names. If it fails, or never gets that far, the
   folder does not open. On a sound plan with valid parameters only a full chunk table
   or a chunk that cannot be read fails verification. A folder that is already there is
   left alone.
   */
  method RunBackup(spec: CaptureSpec, sources: Sources, store: ChunkStore, folder: Folder, request: Request,
      conditions: Conditions)
    returns (r: Result<Completion, RunError>, f: Option<Finalized>, ghost m: Option<Manifest>)
    requires |spec.partitions| == |spec.disk.partitions| ==> SourcesFit(spec, sources)
    requires store.Valid() && SourcesKnown(sources, store.known)
    requires DocumentsLawful(folder.codec) && folder.Valid() && request.completedUtc != ""
    modifies store, folder
    ensures old(folder.present) ==>
              && r == Failure(FolderFailed(AlreadyExists))
              && folder.files == old(folder.files) && store.files == old(store.files)
    ensures !old(folder.present) ==>
              && Traced(store, folder) && ClosedBefore(folder.codec, Renames(store, folder))
              && (r.Failure? ==> !Opens(folder.codec, folder.files))
    ensures |spec.partitions| != |spec.disk.partitions| ==> r.Failure?
    ensures r.Success? ==>
              && store.Valid() && f.Some? && Stands(spec, sources, store, folder, f.value, r.value)
              && V.AllReadable(f.value.manifest, V.Full, store.locked, store.unreadable) && Feasible(spec, sources)
    ensures f.Some? ==> m == Some(f.value.manifest) && Lists(f.value, request.volumes)
    ensures m.Some? ==> Asked(m.value, request)
    ensures r.Failure? && !old(folder.present) ==>
              RunExplained(r.error, spec, sources, store, folder, request, conditions, m, f)
    ensures f.Some? && old(store.renames) == [] ==> f.value.manifest.stats.storedBytes == FilesSize(store.files)
  {
    var created := folder.Create();
    if created.Failure? {
      if !old(folder.present) {
        EarlyRunIsTraced(store, folder);
        TracesAreClosedBefore(Rules(store.codec, folder.codec), Renames(store, folder));
      }
      return Failure(FolderFailed(created.error)), None, None;
    }
    r, f, m := RunInner(spec, sources, store, folder, request, conditions);
    TracesAreClosedBefore(Rules(store.codec, folder.codec), Renames(store, folder));
  }

  /** The run in a new folder. */
  method RunInner(spec: CaptureSpec, sources: Sources, store: ChunkStore, folder: Folder, request: Request,
      conditions: Conditions)
    returns (r: Result<Completion, RunError>, f: Option<Finalized>, ghost m: Option<Manifest>)
    requires |spec.partitions| == |spec.disk.partitions| ==> SourcesFit(spec, sources)
    requires store.Valid() && SourcesKnown(sources, store.known)
    requires DocumentsLawful(folder.codec) && request.completedUtc != ""
    requires folder.Valid() && folder.present && folder.renames == []
    modifies store, folder`files, folder`temps, folder`renames
    ensures store.Valid() && folder.Valid() && Traced(store, folder)
    ensures r.Failure? ==> !Opens(folder.codec, folder.files)
    ensures r.Success? ==> |spec.partitions| == |spec.disk.partitions| && Feasible(spec, sources)
    ensures r.Success? ==>
              && f.Some? && Stands(spec, sources, store, folder, f.value, r.value)
              && V.AllReadable(f.value.manifest, V.Full, store.locked, store.unreadable)
    ensures f.Some? ==> m == Some(f.value.manifest) && Lists(f.value, request.volumes)
    ensures m.Some? ==> Asked(m.value, request)
    ensures r.Failure? ==> RunExplained(r.error, spec, sources, store, folder, request, conditions, m, f)
    ensures f.Some? && old(store.renames) == [] ==> f.value.manifest.stats.storedBytes == FilesSize(store.files)
  {
    var w := new BackupWriter(store, request.uuid, request.chunkSize, request.parameters);
    var captured := CaptureVolumes(spec, sources, w, request.volumes, conditions);
    if captured.Failure? {
      EarlyRunIsTraced(store, folder);
      return Failure(CaptureFailed(captured.error)), None, None;
    }
    r, f, m := FinishRun(spec, sources, w, folder, request, conditions);
  }

  /** Captures the disk and records its volumes. */
  method CaptureVolumes(spec: CaptureSpec, sources: Sources, w: BackupWriter, volumes: seq<VolumeEntry>,
      conditions: Conditions)
    returns (r: Result<(), BackupError>)
    requires |spec.partitions| == |spec.disk.partitions| ==> SourcesFit(spec, sources)
    requires w.Valid() && w.Settled() && SourcesKnown(sources, w.store.known)
    requires w.streams == [] && w.volumes == []
    modifies w, w.store
    ensures w.store.Valid()
    ensures r.Success? ==>
              && |spec.partitions| == |spec.disk.partitions| && Captured(spec, sources, w) && w.volumes == volumes
              && Feasible(spec, sources)
    ensures r.Failure? ==>
              CaptureExplained(r.error, spec, sources, w.chunkSize, conditions, w.store.Healthy(), w.store.files)
  {
    r := CaptureStreamsOf(spec, sources, w, conditions);
    if r.Success? {
      AddVolumes(w, volumes);
    }
  }

  /** Captures the disk, for what its success or failure says. */
  method CaptureStreamsOf(spec: CaptureSpec, sources: Sources, w: BackupWriter, conditions: Conditions)
    returns (r: Result<(), BackupError>)
    requires |spec.partitions| == |spec.disk.partitions| ==> SourcesFit(spec, sources)
    requires w.Valid() && w.Settled() && SourcesKnown(sources, w.store.known)
    requires w.streams == []
    modifies w`chunks, w`chunkIndex, w`contents, w`streams, w`logs, w`disks, w.store
    ensures w.Valid()
    ensures r.Success? ==>
              |spec.partitions| == |spec.disk.partitions| && Captured(spec, sources, w) && Feasible(spec, sources)
    ensures r.Failure? ==>
              CaptureExplained(r.error, spec, sources, w.chunkSize, conditions, w.store.Healthy(), w.store.files)
  {
    var progress := new Progress(conditions);
    r := CaptureDisk.CaptureDisk(spec, sources, w, progress);
    if r.Success? {
      CapturedIsFeasible(spec, sources, w);
    } else {
      CaptureIsExplained(spec, sources, w, progress.conditions, r.error);
    }
  }

  lemma CaptureIsExplained(spec: CaptureSpec, sources: Sources, w: BackupWriter, conditions: Conditions,
      e: BackupError)
    requires |spec.partitions| == |spec.disk.partitions| ==> SourcesFit(spec, sources)
    requires w.Valid()
    requires if |spec.partitions| == |spec.disk.partitions| then
               Excused(e, w, conditions) || PlanAtFault(spec, sources, e, w.chunkSize)
             else e == PlanMismatch
    ensures CaptureExplained(e, spec, sources, w.chunkSize, conditions, w.store.Healthy(), w.store.files)
  {
    WrittenIsFiled(w);
    StoredIsFileSizes(w.chunks, w.store.files);
  }

  /** Records the filesystems found inside the partitions. */
  method AddVolumes(w: BackupWriter, volumes: seq<VolumeEntry>)
    modifies w`volumes
    ensures w.volumes == old(w.volumes) + volumes
  {
    for k := 0 to |volumes|
      invariant w.volumes == old(w.volumes) + volumes[..k]
    {
      w.AddVolume(volumes[k]);
    }
  }

  /** Finalises a captured disk, verifies it and marks the folder. */
  method FinishRun(ghost spec: CaptureSpec, ghost sources: Sources, w: BackupWriter, folder: Folder, request: Request,
      conditions: Conditions)
    returns (r: Result<Completion, RunError>, f: Option<Finalized>, ghost m: Option<Manifest>)
    requires SourcesFit(spec, sources) && |spec.partitions| == |spec.disk.partitions| && Captured(spec, sources, w)
    requires w.uuid == request.uuid && w.chunkSize == request.chunkSize && w.parameters == request.parameters
    requires w.volumes == request.volumes && request.completedUtc != ""
    requires DocumentsLawful(folder.codec) && folder.Valid() && folder.present && folder.renames == []
    modifies folder`files, folder`temps, folder`renames
    ensures folder.Valid() && Traced(w.store, folder)
    ensures r.Failure? ==> !Opens(folder.codec, folder.files)
    ensures r.Success? ==>
              && f.Some? && Stands(spec, sources, w.store, folder, f.value, r.value)
              && V.AllReadable(f.value.manifest, V.Full, w.store.locked, w.store.unreadable)
    ensures f.Some? ==> m == Some(f.value.manifest) && Lists(f.value, request.volumes)
    ensures m.Some? ==> Asked(m.value, request)
    ensures r.Failure? ==> RunExplained(r.error, spec, sources, w.store, folder, request, conditions, m, f)
    ensures f.Some? && w.fromEmpty ==> f.value.manifest.stats.storedBytes == FilesSize(w.store.files)
  {
    var finalized;
    finalized, m := FinalizeRun(spec, sources, w, folder, request, conditions);
    if finalized.Failure? {
      return Failure(finalized.error), None, m;
    }
    f, m := Some(finalized.value), Some(finalized.value.manifest);
    r := SettleRun(spec, sources, w.store, folder, finalized.value, request, conditions);
  }

  /** Finalises a captured disk, for what the documents say about it. */
  method FinalizeRun(ghost spec: CaptureSpec, ghost sources: Sources, w: BackupWriter, folder: Folder,
      ghost request: Request, ghost conditions: Conditions)
    returns (r: Result<Finalized, RunError>, ghost m: Option<Manifest>)
    requires SourcesFit(spec, sources) && |spec.partitions| == |spec.disk.partitions| && Captured(spec, sources, w)
    requires w.uuid == request.uuid && w.chunkSize == request.chunkSize && w.parameters == request.parameters
    requires w.volumes == request.volumes
    requires DocumentsLawful(folder.codec) && folder.Valid() && folder.present && folder.renames == []
    modifies folder`files, folder`temps, folder`renames
    ensures folder.Valid()
    ensures r.Success? ==>
              && Wrote(spec, sources, w.store.codec, w.store.known, w.store.files, r.value)
              && AwaitsMark(folder, r.value) && Asked(r.value.manifest, request) && Lists(r.value, request.volumes)
              && folder.renames == Both(folder.codec, r.value.manifest, r.value.layout)
              && (w.fromEmpty ==> r.value.manifest.stats.storedBytes == FilesSize(w.store.files))
    ensures r.Failure? ==>
              && Traced(w.store, folder) && !Opens(folder.codec, folder.files) && (m.Some? ==> Asked(m.value, request))
              && RunExplained(r.error, spec, sources, w.store, folder, request, conditions, m, None)
  {
    m := None;
    r := FinalizeInto(w, folder);
    if r.Failure? {
      EarlyRunIsTraced(w.store, folder);
      m := FinalizeIsExplained(spec, sources, w, folder, request, conditions, r.error);
    } else {
      RunWrote(spec, sources, w, r.value);
    }
  }

  /** The same, for what it says about the disk. */
  method SettleRun(ghost spec: CaptureSpec, ghost sources: Sources, store: ChunkStore, folder: Folder, f: Finalized,
      request: Request, conditions: Conditions)
    returns (r: Result<Completion, RunError>)
    requires SourcesFit(spec, sources) && |spec.partitions| == |spec.disk.partitions| && store.Valid()
    requires Wrote(spec, sources, store.codec, store.known, store.files, f)
    requires DocumentsLawful(folder.codec) && AwaitsMark(folder, f) && request.completedUtc != ""
    requires folder.Valid() && folder.present && folder.renames == Both(folder.codec, f.manifest, f.layout)
    modifies folder`files, folder`temps, folder`renames
    ensures folder.Valid() && Traced(store, folder)
    ensures r.Failure? ==> !Opens(folder.codec, folder.files)
    ensures r.Success? ==>
              && Stands(spec, sources, store, folder, f, r.value)
              && V.AllReadable(f.manifest, V.Full, store.locked, store.unreadable)
    ensures r.Failure? ==>
              RunExplained(r.error, spec, sources, store, folder, request, conditions, Some(f.manifest), Some(f))
  {
    r := CloseRun(store, folder, f, request.completedUtc, conditions.mayCancel);
    RunOutcome(spec, sources, store, folder, f, request, conditions, r);
  }

  /** Verifies what was finalised and marks the folder. */
  method CloseRun(store: ChunkStore, folder: Folder, f: Finalized, completedUtc: string, mayCancel: bool)
    returns (r: Result<Completion, RunError>)
    requires DocumentsLawful(folder.codec) && AwaitsMark(folder, f) && completedUtc != "" && store.Valid()
    requires folder.Valid() && folder.present && folder.renames == Both(folder.codec, f.manifest, f.layout)
    modifies folder`files, folder`temps, folder`renames
    ensures folder.Valid() && Traced(store, folder)
    ensures r.Failure? ==> !Opens(folder.codec, folder.files)
    ensures MarkedBy(store, folder, f, completedUtc, mayCancel, r)
  {
    ghost var files := folder.files;
    r := VerifyAndMark(f, folder, store, completedUtc, mayCancel);
    MarkedRunIsTraced(store, folder, f, files);
    if r.Success? {
      MarkedIsSealed(folder.codec, files, f.manifest, f.layout, r.value);
    }
  }

  /** The marker of a run into a new folder lists everything there is in it, by name. */
  lemma MarkedIsSealed(codec: DocumentCodec, files: Documents, m: Manifest, layout: DiskLayout, c: Completion)
    requires DocumentsLawful(codec) && files == FilesOf(Both(codec, m, layout)) && IsMarker(codec, files, m, c)
    ensures Sealed(codec, Marked(codec, files, c))
  {
    var marked := Marked(codec, files, c);
    FilesOfBoth(codec, m, layout);
    assert files.Keys == {MANIFEST_FILE, LAYOUT_FILE};
    assert Recorded(codec, files, c.documents[0]) && Recorded(codec, files, c.documents[1]);
    ListedFilesAreSealed(codec, marked, c);
  }

  /** What the result of verifying and marking says. */
  ghost predicate MarkedBy(store: ChunkStore, folder: Folder, f: Finalized, completedUtc: string, mayCancel: bool,
      r: Result<Completion, RunError>)
    reads store, folder
  {
    && (r.Success? ==>
          && V.Verified(f.manifest, Some(f.layout), store.codec, store.files, V.Full)
          && V.AllReadable(f.manifest, V.Full, store.locked, store.unreadable)
          && HoldsDocuments(folder.codec, folder.files, f.manifest, f.layout, r.value)
          && Sealed(folder.codec, folder.files)
          && (Openable(folder.codec, folder.files, f.manifest, f.layout, r.value) <==>
              C.Consistent(f.manifest, f.layout, None)))
    && (r.Success? ==> SaysPassed(r.value, f) && r.value.completedUtc == completedUtc)
    && (r.Failure? ==> CloseExplained(r.error, f, store, folder, completedUtc, mayCancel))
  }

  /** What a finished capture says about its documents, over the chunk files it leaves. */
  ghost predicate Wrote(spec: CaptureSpec, sources: Sources, codec: Codec, known: iset<Bytes>,
      files: map<Digest, Stored>, f: Finalized)
    requires SourcesFit(spec, sources) && |spec.partitions| == |spec.disk.partitions|
  {
    && DocumentsOfCapture(spec, f.manifest, f.layout) && TotalsAre(spec, sources, f.manifest, files)
    && BacksUp(spec, sources, codec, known, f.manifest) && |f.manifest.chunks| <= U32_MAX + 1
    && (SoundPlan(spec) && M.ParametersOk(f.manifest) && M.VolumesOk(f.manifest.volumes, f.manifest.streams) ==>
          V.Verified(f.manifest, Some(f.layout), codec, files, V.Full) || |f.manifest.chunks| == U32_MAX + 1)
  }

  lemma RunOutcome(spec: CaptureSpec, sources: Sources, store: ChunkStore, folder: Folder, f: Finalized,
      request: Request, conditions: Conditions, r: Result<Completion, RunError>)
    requires SourcesFit(spec, sources) && |spec.partitions| == |spec.disk.partitions|
    requires Wrote(spec, sources, store.codec, store.known, store.files, f)
    requires MarkedBy(store, folder, f, request.completedUtc, conditions.mayCancel, r)
    ensures r.Success? ==> Stands(spec, sources, store, folder, f, r.value)
    ensures r.Failure? ==>
              RunExplained(r.error, spec, sources, store, folder, request, conditions, Some(f.manifest), Some(f))
  {
    V.SizesFit(f.manifest.chunks);
    if r.Success? {
      VerifiedDocumentsAgreeIff(spec, f.manifest, f.layout, store.codec, store.files);
    }
  }

  lemma FinalizeIsExplained(spec: CaptureSpec, sources: Sources, w: BackupWriter, folder: Folder, request: Request,
      conditions: Conditions, e: RunError)
    returns (m: Option<Manifest>)
    requires SourcesFit(spec, sources) && |spec.partitions| == |spec.disk.partitions| && Captured(spec, sources, w)
    requires w.uuid == request.uuid && w.chunkSize == request.chunkSize && w.parameters == request.parameters
    requires w.volumes == request.volumes && FinalizeExplained(e, w, folder)
    ensures RunExplained(e, spec, sources, w.store, folder, request, conditions, m, None)
    ensures m.Some? ==> Asked(m.value, request)
  {
    m := None;
    match e {
      case TotalsFailed(_) =>
        RequiredRestoreIsMax(w.disks);
        if StatsOf(w.streams, w.chunks).Failure? {
          TotalsSettle(spec, sources, w);
        }
      case FolderFailed(_) =>
        if settled :| IsManifestOf(settled, w) && !BothFit(folder.codec, settled, LayoutOf(w.uuid, w.disks)) {
          m := Some(settled);
        }
      case _ =>
    }
  }

  lemma EarlyRunIsTraced(store: ChunkStore, folder: Folder)
    requires store.Valid() && folder.Valid() && FirstOf(folder.codec, [], folder.renames)
    ensures Traced(store, folder)
  {
    EarlyTrace(Rules(store.codec, folder.codec), store.renames, folder.renames);
    LogReplays(store.renames, folder.renames);
  }

  lemma MarkedRunIsTraced(store: ChunkStore, folder: Folder, f: Finalized, files: Documents)
    requires store.Valid() && folder.Valid() && files == FilesOf(Both(folder.codec, f.manifest, f.layout))
    requires MarkedOrNot(Rules(store.codec, folder.codec), store.files, files, f.manifest, f.layout,
                         Both(folder.codec, f.manifest, f.layout), folder.renames)
    ensures Traced(store, folder)
  {
    MarkedTrace(Rules(store.codec, folder.codec), store.renames, f.manifest, f.layout, folder.renames);
    LogReplays(store.renames, folder.renames);
  }

  /** The disk is captured, on top of nothing. */
  ghost predicate Captured(spec: CaptureSpec, sources: Sources, w: BackupWriter)
    requires SourcesFit(spec, sources) && |spec.partitions| == |spec.disk.partitions|
    reads w, w.store
  {
    w.Valid() && w.Settled() && w.disks == [spec.disk] && DiskCaptured(spec, sources, w.streams, w.logs, 0)
  }

  lemma RunTotals(spec: CaptureSpec, sources: Sources, w: BackupWriter, m: Manifest)
    requires SourcesFit(spec, sources) && |spec.partitions| == |spec.disk.partitions|
    requires Captured(spec, sources, w) && IsManifestOf(m, w)
    ensures TotalsAre(spec, sources, m, w.store.files)
    ensures w.fromEmpty ==> m.stats.storedBytes == FilesSize(w.store.files)
  {
    assert AllSegments(w.streams) + [] == AllSegments(w.streams);
    StatsConserve(w.streams, w.chunks);
    CapturedBytesAreTheRanges(spec, sources, w, m);
    WrittenIsFiled(w);
    StoredIsFileSizes(w.chunks, w.store.files);
    if w.fromEmpty {
      StoredBytesAreTheFiles(w, m);
    }
  }

  lemma RunHolds(spec: CaptureSpec, sources: Sources, w: BackupWriter, m: Manifest)
    requires SourcesFit(spec, sources) && |spec.partitions| == |spec.disk.partitions|
    requires Captured(spec, sources, w) && IsManifestOf(m, w)
    ensures BacksUp(spec, sources, w.store.codec, w.store.known, m)
  {
    WrittenHoldsDisk(spec, sources, w);
  }

  lemma RunWrote(spec: CaptureSpec, sources: Sources, w: BackupWriter, f: Finalized)
    requires SourcesFit(spec, sources) && |spec.partitions| == |spec.disk.partitions|
    requires Captured(spec, sources, w)
    requires IsManifestOf(f.manifest, w) && f.layout == LayoutOf(w.uuid, w.disks)
    ensures Wrote(spec, sources, w.store.codec, w.store.known, w.store.files, f)
    ensures w.fromEmpty ==> f.manifest.stats.storedBytes == FilesSize(w.store.files)
  {
    RunTotals(spec, sources, w, f.manifest);
    RunHolds(spec, sources, w, f.manifest);
    CapturedIsDescribed(spec, sources, w.streams, w.logs);
    if SoundPlan(spec) && M.ParametersOk(f.manifest) && M.VolumesOk(f.manifest.volumes, f.manifest.streams) {
      WrittenBackupVerifiesIff(spec, w, f.manifest, f.layout);
    }
  }

  /**
   Backs up a disk, opens the folder and reads part of one stream by the manifest it
   holds. On a plan that names the disk, only a document that cannot be read stops the
   opening, and then the read succeeds and the bytes are the disk's.
   */
  method BackUpAndReadBack(spec: CaptureSpec, sources: Sources, store: ChunkStore, folder: Folder,
      request: Request, conditions: Conditions, j: nat, offset: u64, buffer: array<Byte>)
    returns (run: Result<Completion, RunError>, backup: Result<BackupSet, FolderError>, read: Result<(), ReadError>)
    requires SourcesFit(spec, sources) && |spec.partitions| == |spec.disk.partitions|
    requires store.Valid() && SourcesKnown(sources, store.known)
    requires DocumentsLawful(folder.codec) && folder.Valid() && request.completedUtc != ""
    requires j < |spec.partitions| + 2 && offset + buffer.Length <= StreamLength(spec, j)
    modifies store, folder, buffer
    ensures run.Success? && backup.Success? ==> read.Success? && HoldsStream(spec, sources, j, offset, buffer[..])
    ensures run.Success? && backup.Failure? ==> !NamesDisk(spec) || folder.unreadable != {}
    ensures run.Success? && backup.Success? ==> NamesDisk(spec) && j < |backup.value.manifest.streams|
    ensures run.Success? && backup.Success? && SnapshotsAgree(spec, sources) ==>
              HoldsTheDisk(spec, sources, j, backup.value.manifest.streams[j].targetOffset, offset, buffer[..])
  {
    var f;
    run, f := BackUp(spec, sources, store, folder, request, conditions);
    if run.Failure? {
      return run, Failure(NotComplete), Success(());
    }
    backup, read := ReadBack(spec, sources, f.value, run.value, store, folder, j, offset, buffer);
  }

  /** Opens a finished backup all of whose chunks can be read, and reads part of one stream. */
  method ReadBack(ghost spec: CaptureSpec, ghost sources: Sources, ghost f: Finalized, ghost c: Completion,
      store: ChunkStore, folder: Folder, j: nat, offset: u64, buffer: array<Byte>)
    returns (backup: Result<BackupSet, FolderError>, read: Result<(), ReadError>)
    requires SourcesFit(spec, sources) && |spec.partitions| == |spec.disk.partitions|
    requires store.Valid() && Stands(spec, sources, store, folder, f, c)
    requires V.AllReadable(f.manifest, V.Full, store.locked, store.unreadable)
    requires j < |spec.partitions| + 2 && offset + buffer.Length <= StreamLength(spec, j)
    modifies buffer
    ensures backup.Success? ==> read.Success? && HoldsStream(spec, sources, j, offset, buffer[..])
    ensures backup.Failure? ==> !NamesDisk(spec) || folder.unreadable != {}
    ensures backup.Success? ==> NamesDisk(spec) && j < |backup.value.manifest.streams|
    ensures backup.Success? && SnapshotsAgree(spec, sources) ==>
              HoldsTheDisk(spec, sources, j, backup.value.manifest.streams[j].targetOffset, offset, buffer[..])
  {
    backup, read := OpenAndRead(spec, sources, f, c, store, folder, j, offset, buffer);
    if backup.Success? {
      AllReadableRange(f.manifest, j, offset, offset + buffer.Length, store.locked, store.unreadable);
      if SnapshotsAgree(spec, sources) {
        StreamIsTheDisk(spec, sources, j, offset, buffer[..]);
      }
    }
  }

  lemma AllReadableRange(m: Manifest, j: nat, offset: int, end: int, locked: bool, unreadable: set<Digest>)
    requires j < |m.streams| && V.AllReadable(m, V.Full, locked, unreadable)
    ensures !RangeUnreadable(m, j, offset, end, locked, unreadable)
  {
  }

  /** A run, for what it leaves if it succeeds. */
  method BackUp(spec: CaptureSpec, sources: Sources, store: ChunkStore, folder: Folder, request: Request,
      conditions: Conditions)
    returns (run: Result<Completion, RunError>, f: Option<Finalized>)
    requires SourcesFit(spec, sources) && |spec.partitions| == |spec.disk.partitions|
    requires store.Valid() && SourcesKnown(sources, store.known)
    requires DocumentsLawful(folder.codec) && folder.Valid() && request.completedUtc != ""
    modifies store, folder
    ensures run.Success? ==>
              && f.Some? && store.Valid() && Stands(spec, sources, store, folder, f.value, run.value)
              && V.AllReadable(f.value.manifest, V.Full, store.locked, store.unreadable)
  {
    ghost var m;
    run, f, m := RunBackup(spec, sources, store, folder, request, conditions);
  }

  /** Opens a folder that is known to hold these documents. */
  method OpenHeld(folder: Folder, ghost m: Manifest, ghost layout: DiskLayout, ghost c: Completion)
    returns (backup: Result<BackupSet, FolderError>)
    requires HoldsDocuments(folder.codec, folder.files, m, layout, c)
    ensures backup.Failure? && Openable(folder.codec, folder.files, m, layout, c) ==> folder.unreadable != {}
    ensures backup.Success? ==> Openable(folder.codec, folder.files, m, layout, c) && backup.value.manifest == m
  {
    backup := folder.Open();
    assert Legible(folder.codec, {}, c);
  }

  /** Opens a finished backup and reads part of one stream by the manifest in it. */
  method OpenAndRead(ghost spec: CaptureSpec, ghost sources: Sources, ghost f: Finalized, ghost c: Completion,
      store: ChunkStore, folder: Folder, j: nat, offset: u64, buffer: array<Byte>)
    returns (backup: Result<BackupSet, FolderError>, read: Result<(), ReadError>)
    requires SourcesFit(spec, sources) && |spec.partitions| == |spec.disk.partitions|
    requires store.Valid() && Stands(spec, sources, store, folder, f, c)
    requires j < |spec.partitions| + 2 && offset + buffer.Length <= StreamLength(spec, j)
    modifies buffer
    ensures backup.Failure? ==> !NamesDisk(spec) || folder.unreadable != {}
    ensures backup.Success? ==> NamesDisk(spec) && backup.value.manifest == f.manifest && j < |f.manifest.streams|
    ensures backup.Success? ==> f.manifest.streams[j].targetOffset == StreamStart(spec, j)
    ensures backup.Success? && read.Success? ==> HoldsStream(spec, sources, j, offset, buffer[..])
    ensures backup.Success? ==>
              (read.Failure? <==>
                buffer.Length > 0 &&
                RangeUnreadable(f.manifest, j, offset, offset + buffer.Length, store.locked, store.unreadable))
  {
    read := Success(());
    backup := OpenHeld(folder, f.manifest, f.layout, c);
    if backup.Failure? {
      return;
    }
    BackedUpLength(spec, sources, store.codec, store.known, f.manifest, j);
    DescribedStart(spec, f.manifest.streams, j);
    read := ReadStream(spec, sources, backup.value.manifest, Some(f.layout), store, j, offset, buffer);
  }

  lemma DescribedStart(spec: CaptureSpec, streams: seq<Stream>, j: nat)
    requires |spec.partitions| == |spec.disk.partitions| && Described(spec, streams) && j < |streams|
    ensures streams[j].targetOffset == StreamStart(spec, j)
  {
    assert j < |spec.partitions| ==> PartitionDescribed(spec, streams[j], j);
  }

  lemma BackedUpLength(spec: CaptureSpec, sources: Sources, codec: Codec, known: iset<Bytes>, m: Manifest, j: nat)
    requires SourcesFit(spec, sources) && |spec.partitions| == |spec.disk.partitions|
    requires BacksUp(spec, sources, codec, known, m) && j < |spec.partitions| + 2
    ensures |m.streams| == |spec.partitions| + 2 && m.streams[j].length == StreamLength(spec, j)
  {
    var contents :| TableDescribes(codec, known, m.chunks, contents) && HoldsDisk(spec, sources, m.streams, contents);
    HeldLength(spec, sources, m.streams, contents, j);
  }
}
