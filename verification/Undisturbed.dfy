/**
 What it takes for a run to succeed: a plan that fits its sources, and nothing in its
 way (crates/mjolnir-backup/src/capture.rs, crates/mjolnir-backup/src/run.rs).
 */
module Undisturbed {
  import opened Arith
  import opened Store
  import opened Format
  import opened Capture
  import opened CaptureDisk
  import opened Producer
  import opened Plans
  import opened BackupFolder
  import opened Run
  import opened DocumentRules
  import L = LayoutCheck
  import M = ManifestCheck
  import V = Verify

  // ---- sound plans -------------------------------------------------------------------------------

  /** The ids of the streams that the plan makes all differ. */
  predicate StreamsDiffer(spec: CaptureSpec) {
    && (forall i, j :: 0 <= i < j < |spec.partitions| ==> spec.partitions[i].streamId != spec.partitions[j].streamId)
    && (forall p :: p in spec.partitions ==>
          p.streamId != spec.diskId + "-head" && p.streamId != spec.diskId + "-tail")
  }

  /** A sound plan is one of a sound disk, under its own names, with room for both ends around the partitions. */
  lemma SoundPlansAre(spec: CaptureSpec)
    ensures SoundPlan(spec) <==>
              && PlainDisk(spec.disk) && spec.diskId == spec.disk.id && |spec.partitions| == |spec.disk.partitions|
              && (forall k :: 0 <= k < |spec.partitions| ==>
                    spec.partitions[k].partitionId == spec.disk.partitions[k].id)
              && (forall i, j :: 0 <= i < j < |spec.disk.partitions| ==>
                    spec.disk.partitions[i].id != spec.disk.partitions[j].id)
              && StreamsDiffer(spec) && 0 < spec.headBytes && 0 < spec.tailBytes
              && forall p :: p in spec.disk.partitions ==>
                   && spec.headBytes <= p.startingOffset
                   && p.startingOffset + p.length <= spec.disk.sizeBytes - spec.tailBytes
  {
    SoundDisksAre(spec.disk);
    IdsAre(spec);
    if |spec.disk.partitions| > 0 {
      assert spec.disk.partitions[0] in spec.disk.partitions;
    }
  }

  lemma IdsAre(spec: CaptureSpec)
    ensures L.IdsDistinct(PlannedIds(spec)) <==> StreamsDiffer(spec)
  {
    var ids, n := PlannedIds(spec), |spec.partitions|;
    var head, tail := spec.diskId + "-head", spec.diskId + "-tail";
    assert head != tail by {
      assert head[|head| - 4] == 'h' && tail[|tail| - 4] == 't';
    }
    assert ids[n] == head && ids[n + 1] == tail;
    if L.IdsDistinct(ids) {
      forall p | p in spec.partitions
        ensures p.streamId != head && p.streamId != tail
      {
        var i :| 0 <= i < n && spec.partitions[i] == p;
        assert ids[i] != ids[n] && ids[i] != ids[n + 1];
      }
      forall i, j | 0 <= i < j < n
        ensures spec.partitions[i].streamId != spec.partitions[j].streamId
      {
        assert ids[i] != ids[j];
      }
    }
    if StreamsDiffer(spec) {
      forall i | 0 <= i < n
        ensures ids[i] != head && ids[i] != tail
      {
        assert spec.partitions[i] in spec.partitions;
      }
    }
  }

  // ---- runs that nothing disturbs ----------------------------------------------------------------

  /** Any manifest asked for has sound parameters, and no volume index is asked for. */
  ghost predicate SoundRequest(request: Request) {
    && (forall m :: Asked(m, request) ==> M.ParametersOk(m))
    && request.chunkSize >= DEFAULT_CHUNK_SIZE && request.volumes == []
  }

  /** No text of the run's documents is past what 64 bits can say. */
  ghost predicate TextsFit(spec: CaptureSpec, request: Request, codec: DocumentCodec, m: Option<Manifest>,
      f: Option<Finalized>)
  {
    && (m.Some? ==> BothFit(codec, m.value, LayoutOf(request.uuid, [spec.disk])))
    && (f.Some? ==> !TooLong(codec, PassedMarker(f.value, request.completedUtc)))
  }

  /** The drive and the devices work, and nobody asks the run to stop. */
  ghost predicate NothingInTheWay(store: ChunkStore, folder: Folder, conditions: Conditions)
    reads store, folder
  {
    && store.Healthy() && store.unreadable == {} && !folder.faulty
    && !conditions.mayCancel && !conditions.mayFailToRead
  }

  /**
   With a sound and feasible plan, a sound request, texts within bounds and nothing in
   the way, a run in a new folder can only fail for more chunks than a table takes, or
   for more bytes, read or stored, than 64 bits can say.
   */
  lemma OnlyFullRunsFail(e: RunError, spec: CaptureSpec, sources: Sources, store: ChunkStore, folder: Folder,
      request: Request, conditions: Conditions, m: Option<Manifest>, f: Option<Finalized>)
    requires SourcesFit(spec, sources) && SoundPlan(spec) && Feasible(spec, sources)
    requires SoundRequest(request) && TextsFit(spec, request, folder.codec, m, f)
    requires NothingInTheWay(store, folder, conditions) && (f.Some? ==> Asked(f.value.manifest, request))
    requires RunExplained(e, spec, sources, store, folder, request, conditions, m, f)
    ensures |store.files| > U32_MAX || FilesSize(store.files) > U64_MAX || ReadTotal(spec, sources) > U64_MAX
  {
    match e {
      case CaptureFailed(backup) => FeasibleIff(spec, sources, request.chunkSize);
      case TotalsFailed(_) =>
      case FolderFailed(_) => assert IndexPaths(request.volumes) == [];
      case VerifyStopped(_) =>
      case FailedVerification => StoredIsFileSizes(f.value.manifest.chunks, store.files);
    }
  }
}
