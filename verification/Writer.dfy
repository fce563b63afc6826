/**
 Writing the chunks and the manifest of a backup (crates/mjolnir-image/src/writer.rs).
 */
module Writer {
  import opened Arith
  import opened Extents
  import opened Store
  import opened Format

  datatype BackupError =
    | ArithFailed(arith: ArithError)
    | StoreFailed(store: StoreError)
    | TooManyChunks
    | OutOfOrder
    | LargerThanChunk
    | Incomplete
    | ReadFailed
    | Cancelled
    | NoTailSource
    | PlanMismatch
    | DiskTooSmall

  /** The digests of a chunk table are distinct and the index is its exact inverse. */
  ghost predicate IndexInverts(chunks: seq<ChunkEntry>, index: map<Digest, u32>) {
    && (forall i :: 0 <= i < |chunks| ==> chunks[i].hash in index && index[chunks[i].hash] == i)
    && (forall h :: h in index ==> index[h] < |chunks| && chunks[index[h]].hash == h)
  }

  /** An index can only invert a table that lists each digest once. */
  lemma InvertedTableIsDistinct(chunks: seq<ChunkEntry>, index: map<Digest, u32>, i: nat, j: nat)
    requires IndexInverts(chunks, index) && i < |chunks| && j < |chunks| && chunks[i].hash == chunks[j].hash
    ensures i == j
  {
  }

  /** A table entry describes its content, and the store holds that content under its name. */
  ghost predicate EntryOk(codec: Codec, known: iset<Bytes>, files: map<Digest, Stored>, e: ChunkEntry, data: Bytes) {
    && data in known && e.hash == codec.name(data)
    && e.uncompressedSize == |data| > 0
    && e.hash in files && codec.decode(files[e.hash]) == Some(data) && e.compressedSize == |files[e.hash]| > 0
  }

  ghost predicate TableOk(codec: Codec, known: iset<Bytes>, files: map<Digest, Stored>, chunks: seq<ChunkEntry>,
      contents: seq<Bytes>) {
    && |chunks| == |contents|
    && forall i :: 0 <= i < |chunks| ==> EntryOk(codec, known, files, chunks[i], contents[i])
  }

  lemma TableSurvivesPut(codec: Codec, known: iset<Bytes>, files: map<Digest, Stored>, more: map<Digest, Stored>,
      chunks: seq<ChunkEntry>, contents: seq<Bytes>)
    requires TableOk(codec, known, files, chunks, contents)
    requires forall h :: h in files ==> h in more && more[h] == files[h]
    ensures TableOk(codec, known, more, chunks, contents)
  {
  }

  lemma TableAppend(codec: Codec, known: iset<Bytes>, files: map<Digest, Stored>, chunks: seq<ChunkEntry>,
      contents: seq<Bytes>, e: ChunkEntry, data: Bytes)
    requires TableOk(codec, known, files, chunks, contents) && EntryOk(codec, known, files, e, data)
    ensures TableOk(codec, known, files, chunks + [e], contents + [data])
  {
  }

  lemma IndexAppend(chunks: seq<ChunkEntry>, index: map<Digest, u32>, e: ChunkEntry)
    requires IndexInverts(chunks, index) && e.hash !in index && |chunks| <= U32_MAX
    ensures IndexInverts(chunks + [e], index[e.hash := |chunks|])
  {
  }

  /** With names that tell the known contents apart, a digest is new exactly when the content is. */
  lemma NewDigestIsNewContent(codec: Codec, known: iset<Bytes>, files: map<Digest, Stored>, chunks: seq<ChunkEntry>,
      contents: seq<Bytes>, index: map<Digest, u32>, data: Bytes)
    requires Lawful(codec, known) && data in known
    requires TableOk(codec, known, files, chunks, contents) && IndexInverts(chunks, index)
    ensures codec.name(data) in index <==> data in contents
    ensures codec.name(data) in index ==> contents[index[codec.name(data)]] == data
  {
  }

  /** A stream good against the table, recording exactly what was written to it. */
  ghost predicate StreamGood(s: Stream, log: seq<Piece>, chunks: seq<ChunkEntry>, contents: seq<Bytes>,
      chunkSize: u32) {
    && SegmentsOk(s.segments, s.length, chunks)
    && (forall i :: 0 <= i < |s.segments| ==> s.segments[i].length <= chunkSize)
    && Records(s.segments, log, contents)
  }

  /** A finished stream: good, and complete if it claims to be. */
  ghost predicate StreamOk(s: Stream, log: seq<Piece>, chunks: seq<ChunkEntry>, contents: seq<Bytes>, chunkSize: u32) {
    && StreamGood(s, log, chunks, contents, chunkSize)
    && (s.capture.MayBeSparse() || SumSegments(s.segments) == s.length)
  }

  lemma StreamSurvivesGrowth(s: Stream, log: seq<Piece>, chunks: seq<ChunkEntry>, more: seq<ChunkEntry>,
      contents: seq<Bytes>, moreContents: seq<Bytes>, chunkSize: u32)
    requires StreamGood(s, log, chunks, contents, chunkSize) && chunks <= more && contents <= moreContents
    ensures StreamGood(s, log, more, moreContents, chunkSize)
  {
  }

  lemma StreamsSurviveGrowth(streams: seq<Stream>, logs: seq<seq<Piece>>, chunks: seq<ChunkEntry>,
      more: seq<ChunkEntry>, contents: seq<Bytes>, moreContents: seq<Bytes>, chunkSize: u32)
    requires |logs| == |streams| && chunks <= more && contents <= moreContents
    requires forall j :: 0 <= j < |streams| ==> StreamOk(streams[j], logs[j], chunks, contents, chunkSize)
    ensures forall j :: 0 <= j < |streams| ==> StreamOk(streams[j], logs[j], more, moreContents, chunkSize)
  {
  }

  /** Recording one more piece keeps a stream good. */
  lemma StreamAppend(s: Stream, log: seq<Piece>, chunks: seq<ChunkEntry>, contents: seq<Bytes>, chunkSize: u32,
      added: Segment, data: Bytes)
    requires StreamGood(s, log, chunks, contents, chunkSize)
    requires SegmentOk(added, s.length, chunks)
    requires forall i :: 0 <= i < |s.segments| ==> s.segments[i].Limit() <= added.offset
    requires added.length == |data| <= chunkSize && added.chunk < |contents| && contents[added.chunk] == data
    ensures StreamGood(s.(segments := s.segments + [added]), log + [Piece(added.offset, data)],
                       chunks, contents, chunkSize)
  {
  }

  lemma UsedAppend(chunksBefore: nat, chunksAfter: nat, segs: seq<Segment>, s: Segment)
    requires ChunksUsed(segs) == Span(0, chunksBefore)
    requires if chunksAfter == chunksBefore then s.chunk < chunksBefore else s.chunk == chunksBefore == chunksAfter - 1
    ensures ChunksUsed(segs + [s]) == Span(0, chunksAfter)
  {
    ChunksUsedSnoc(segs, s);
    assert Span(0, chunksBefore + 1) == Span(0, chunksBefore) + {chunksBefore};
  }

  class BackupWriter {
    const store: ChunkStore
    const uuid: string
    const chunkSize: u32
    const parameters: Parameters
    var chunks: seq<ChunkEntry>
    var chunkIndex: map<Digest, u32>
    var streams: seq<Stream>
    var disks: seq<DiskEntry>
    var volumes: seq<VolumeEntry>
    /** The bytes each table entry stands for. */
    ghost var contents: seq<Bytes>
    /** What was written to each finished stream. */
    ghost var logs: seq<seq<Piece>>
    /** Nothing had been stored before. */
    ghost const fromEmpty: bool

    constructor (store: ChunkStore, uuid: string, chunkSize: u32, parameters: Parameters)
      requires store.Valid()
      ensures Valid() && this.store == store && this.uuid == uuid && this.chunkSize == chunkSize
      ensures this.parameters == parameters && volumes == []
      ensures chunks == [] && streams == [] && disks == [] && Settled() && fromEmpty == (store.renames == [])
    {
      this.store := store;
      fromEmpty := store.renames == [];
      this.uuid := uuid;
      this.chunkSize := chunkSize;
      this.parameters := parameters;
      volumes := [];
      chunks := [];
      chunkIndex := map[];
      streams := [];
      disks := [];
      contents := [];
      logs := [];
      new;
      NothingUsed();
    }

    lemma NothingUsed()
      requires streams == [] && chunks == []
      ensures NoneUnused([])
    {
    }

    ghost predicate Valid()
      reads this, store
    {
      && store.Valid()
      && |chunks| <= U32_MAX + 1
      && TableOk(store.codec, store.known, store.files, chunks, contents)
      && IndexInverts(chunks, chunkIndex)
      && |logs| == |streams|
      && forall j :: 0 <= j < |streams| ==> StreamOk(streams[j], logs[j], chunks, contents, chunkSize)
    }

    /** Records a filesystem found inside a captured partition. */
    method AddVolume(volume: VolumeEntry)
      modifies this`volumes
      ensures volumes == old(volumes) + [volume]
    {
      volumes := volumes + [volume];
    }

    /** No table entry is without a segment using it. */
    ghost predicate NoneUnused(more: seq<Segment>)
      reads this
    {
      ChunksUsed(AllSegments(streams) + more) == Span(0, |chunks|)
    }

    /** A store that was empty holds no chunk that is not in the table. */
    ghost predicate Compact()
      reads this`chunks, store`renames
    {
      fromEmpty ==> |store.renames| <= |chunks|
    }

    /** Between two streams: no table entry is without a segment, and no chunk without a table entry. */
    ghost predicate Settled()
      reads this, store
    {
      NoneUnused([]) && Compact()
    }

    /** The table only ever grows, and what an entry stands for never changes. */
    twostate predicate Grown()
      reads this
    {
      old(chunks) <= chunks && old(contents) <= contents
    }

    /**
     Stores one chunk. Content met before gets its old position; new content gets
     the next one, unless 2^32 positions are taken.
     */
    method PutChunk(data: Bytes) returns (r: Result<u32, BackupError>)
      requires Valid() && data in store.known
      modifies this`chunks, this`chunkIndex, this`contents, store
      ensures Valid() && Grown()
      ensures r.Success? ==>
                && r.value < |chunks| && contents[r.value] == data
                && chunks[r.value].uncompressedSize == |data|
      ensures r.Success? && data in old(contents) ==> chunks == old(chunks)
      ensures r.Success? && data !in old(contents) ==>
                r.value == |old(chunks)| && chunks[..r.value] == old(chunks) && |chunks| == r.value + 1
      ensures r.Failure? ==> chunks == old(chunks) && contents == old(contents)
      ensures r.Success? && old(Compact()) ==> Compact()
      ensures r.Failure? ==>
                || (r.error.StoreFailed? && (data == [] || !store.Healthy()))
                || (r.error == TooManyChunks && data !in old(contents) && |old(chunks)| == U32_MAX + 1)
                || (r.error.ArithFailed? && |data| > U32_MAX)
    {
      var put := store.Put(data);
      TableSurvivesPut(store.codec, store.known, old(store.files), store.files, chunks, contents);
      if put.Failure? {
        return Failure(StoreFailed(put.error));
      }
      var outcome := put.value;
      NewDigestIsNewContent(store.codec, store.known, store.files, chunks, contents, chunkIndex, data);
      if outcome.hash in chunkIndex {
        return Success(chunkIndex[outcome.hash]);
      }
      if |chunks| > U32_MAX {
        return Failure(TooManyChunks);
      }
      if |data| > U32_MAX {
        return Failure(ArithFailed(OutOfRange));
      }
      var index: u32 := |chunks|;
      var entry := ChunkEntry(outcome.hash, |data|, outcome.compressedSize);
      StreamsSurviveGrowth(streams, logs, chunks, chunks + [entry], contents, contents + [data], chunkSize);
      TableAppend(store.codec, store.known, store.files, chunks, contents, entry, data);
      IndexAppend(chunks, chunkIndex, entry);
      chunks := chunks + [entry];
      chunkIndex := chunkIndex[outcome.hash := index];
      contents := contents + [data];
      return Success(index);
    }
  }

  /** Accumulates the segments of one stream. */
  class StreamWriter {
    const writer: BackupWriter
    var stream: Stream
    var lastEnd: u64
    /** Every piece written so far. */
    ghost var log: seq<Piece>

    constructor (writer: BackupWriter, stream: Stream)
      requires writer.Valid() && stream.segments == []
      ensures Valid() && this.writer == writer && this.stream == stream && lastEnd == 0 && log == []
    {
      this.writer := writer;
      this.stream := stream;
      lastEnd := 0;
      log := [];
    }

    ghost predicate Valid()
      reads this, writer, writer.store
    {
      && writer.Valid()
      && StreamGood(stream, log, writer.chunks, writer.contents, writer.chunkSize)
      && forall i :: 0 <= i < |stream.segments| ==> stream.segments[i].Limit() <= lastEnd
    }

    /** Every table entry is used by a finished stream or by this one. */
    ghost predicate Tidy()
      reads this, writer
    {
      writer.NoneUnused(stream.segments)
    }

    method SetUsedBlocks(info: UsedBlockInfo)
      modifies this`stream
      ensures stream == old(stream).(usedBlocks := Some(info))
    {
      stream := stream.(usedBlocks := Some(info));
    }

    method FallBackTo(capture: CaptureMethod)
      modifies this`stream
      ensures stream == old(stream).(capture := capture, usedBlocks := None, fellBack := true)
    {
      stream := stream.(capture := capture, usedBlocks := None, fellBack := true);
    }

    /** Why a piece is refused before anything is stored, when it is. */
    function Refusal(offset: u64, length: u64): Option<BackupError>
      reads this
    {
      var within := EnsureWithin(offset, length, stream.length);
      if within.Failure? then Some(ArithFailed(within.error))
      else if offset < lastEnd then Some(OutOfOrder)
      else if length > writer.chunkSize then Some(LargerThanChunk)
      else None
    }

    /** The store is at fault, or the table is full. */
    ghost predicate StoringFailed(e: BackupError)
      reads writer`chunks
    {
      (e.StoreFailed? && !writer.store.Healthy()) || (e == TooManyChunks && |writer.chunks| == U32_MAX + 1)
    }

    /**
     Records one piece. A piece outside the stream, behind the last one or larger
     than a chunk is refused; an accepted one is added to what the stream carries.
     */
    method WriteSegment(offset: u64, data: Bytes) returns (r: Result<(), BackupError>)
      requires Valid() && data in writer.store.known && |data| <= U64_MAX
      modifies this`stream, this`lastEnd, this`log, writer`chunks, writer`chunkIndex, writer`contents, writer.store
      ensures Valid() && Header(stream) == old(Header(stream))
      ensures data == [] ==> r.Success? && log == old(log) && lastEnd == old(lastEnd)
      ensures data != [] && r.Success? ==> lastEnd == offset + |data| && log == old(log) + [Piece(offset, data)]
      ensures data != [] && old(Refusal(offset, |data|)).Some? ==> r == Failure(old(Refusal(offset, |data|)).value)
      ensures r.Failure? ==> stream == old(stream) && log == old(log) && writer.chunks == old(writer.chunks)
      ensures r.Failure? && (data == [] || old(Refusal(offset, |data|)).None?) ==> StoringFailed(r.error)
      ensures old(Tidy()) ==> Tidy()
      ensures r.Success? && old(writer.Compact()) ==> writer.Compact()
    {
      if data == [] {
        return Success(());
      }
      var refusal := Refusal(offset, |data|);
      if refusal.Some? {
        return Failure(refusal.value);
      }
      r := AppendSegment(offset, data);
    }

    /** Stores an accepted piece and records its segment. */
    method AppendSegment(offset: u64, data: Bytes) returns (r: Result<(), BackupError>)
      requires Valid() && data in writer.store.known && 0 < |data| <= U64_MAX && Refusal(offset, |data|).None?
      modifies this`stream, this`lastEnd, this`log, writer`chunks, writer`chunkIndex, writer`contents, writer.store
      ensures Valid() && Header(stream) == old(Header(stream))
      ensures r.Success? ==> lastEnd == offset + |data| && log == old(log) + [Piece(offset, data)]
      ensures r.Failure? ==>
                && stream == old(stream) && log == old(log) && writer.chunks == old(writer.chunks)
                && StoringFailed(r.error)
      ensures old(Tidy()) ==> Tidy()
      ensures r.Success? && old(writer.Compact()) ==> writer.Compact()
    {
      ghost var chunks, contents := writer.chunks, writer.contents;
      var chunk := writer.PutChunk(data);
      StreamSurvivesGrowth(stream, log, chunks, writer.chunks, contents, writer.contents, writer.chunkSize);
      if chunk.Failure? {
        return Failure(chunk.error);
      }
      RecordSegment(Segment(offset, |data|, chunk.value), data, |chunks|);
      return Success(());
    }

    /** Pushes the segment of a chunk that has just been stored. */
    method RecordSegment(added: Segment, ghost data: Bytes, ghost chunksBefore: nat)
      requires Valid() && SegmentOk(added, stream.length, writer.chunks) && lastEnd <= added.offset
      requires added.Limit() <= U64_MAX && added.length == |data| <= writer.chunkSize
      requires writer.contents[added.chunk] == data
      requires |writer.chunks| == chunksBefore || added.chunk == chunksBefore == |writer.chunks| - 1
      modifies this`stream, this`lastEnd, this`log
      ensures Valid() && Header(stream) == old(Header(stream))
      ensures lastEnd == added.Limit() && log == old(log) + [Piece(added.offset, data)]
      ensures ChunksUsed(AllSegments(writer.streams) + old(stream.segments)) == Span(0, chunksBefore) ==> Tidy()
    {
      StreamAppend(stream, log, writer.chunks, writer.contents, writer.chunkSize, added, data);
      ghost var used := AllSegments(writer.streams) + stream.segments;
      if ChunksUsed(used) == Span(0, chunksBefore) {
        UsedAppend(chunksBefore, |writer.chunks|, used, added);
        assert used + [added] == AllSegments(writer.streams) + (stream.segments + [added]);
      }
      stream := stream.(segments := stream.segments + [added]);
      log := log + [Piece(added.offset, data)];
      lastEnd := added.Limit();
    }

    /** Adds the stream to the manifest, unless it claims to be complete and is not. */
    method Finish() returns (r: Result<(), BackupError>)
      requires Valid()
      modifies writer`streams, writer`logs
      ensures writer.Valid()
      ensures r.Success? <==> (stream.capture.MayBeSparse() || SumSegments(stream.segments) == stream.length)
      ensures r.Success? ==> writer.streams == old(writer.streams) + [stream] && writer.logs == old(writer.logs) + [log]
      ensures r.Success? && old(Tidy()) ==> writer.NoneUnused([])
      ensures old(writer.Compact()) ==> writer.Compact()
      ensures r.Failure? ==> r.error == Incomplete && writer.streams == old(writer.streams)
    {
      CompleteSumCarriesEveryByte(stream.segments, stream.length, writer.chunks);
      var captured := SumSegments(stream.segments);
      if !stream.capture.MayBeSparse() && captured != stream.length {
        return Failure(Incomplete);
      }
      ghost var before := writer.streams;
      writer.streams := writer.streams + [stream];
      writer.logs := writer.logs + [log];
      assert writer.streams[..|before|] == before;
      assert AllSegments(writer.streams) + [] == AllSegments(before) + stream.segments;
      return Success(());
    }
  }
}
