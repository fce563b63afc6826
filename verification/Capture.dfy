/**
 Copying a disk into a backup set (crates/mjolnir-backup/src/capture.rs).
 */
module Capture {
  import opened Arith
  import opened Extents
  import opened Pieces
  import opened Format
  import opened Writer

  // ---- where bytes come from -------------------------------------------------------

  function ByteAt(b: Bytes, i: int): Byte {
    if 0 <= i < |b| then b[i] else 0
  }

  /** A snapshot up to where it ends, and the disk at and past that. */
  datatype Origin = Origin(primary: Bytes, primaryOffset: u64, covers: u64, tail: Bytes, tailOffset: u64) {
    function At(x: int): Byte {
      if x < covers then ByteAt(primary, primaryOffset + x) else ByteAt(tail, tailOffset + x)
    }

    /** The byte has an address on its side. */
    predicate Addressable(x: int) {
      if x < covers then primaryOffset + x <= U64_MAX else tailOffset + x <= U64_MAX
    }

    /** The side the byte is on reaches as far. */
    predicate Reaches(x: int) {
      if x < covers then primaryOffset + x < |primary| else tailOffset + x < |tail|
    }

    /** Everything that can be read from either side is among the known byte strings. */
    ghost predicate Known(known: iset<Bytes>) {
      SlicesKnown(primary, known) && SlicesKnown(tail, known)
    }
  }

  function Source(o: Origin): int -> Byte {
    x => o.At(x)
  }

  ghost predicate SlicesKnown(b: Bytes, known: iset<Bytes>) {
    forall i, j :: 0 <= i <= j <= |b| ==> b[i..j] in known
  }

  lemma PrimarySlice(o: Origin, at: int, want: nat)
    requires 0 <= at && at + want <= o.covers && o.primaryOffset + at + want <= |o.primary|
    ensures SourceSlice(Source(o), at, want) == o.primary[o.primaryOffset + at..o.primaryOffset + at + want]
  {
  }

  lemma TailSlice(o: Origin, at: int, want: nat)
    requires o.covers <= at && o.tailOffset + at + want <= |o.tail|
    ensures SourceSlice(Source(o), at, want) == o.tail[o.tailOffset + at..o.tailOffset + at + want]
  {
  }

  /** What may disturb a run from outside: being asked to stop, and devices that fail to be read. */
  datatype Conditions = Conditions(mayCancel: bool, mayFailToRead: bool)

  /** Counts what a capture has reported. */
  class Progress {
    const conditions: Conditions
    var advanced: nat
    var skipped: nat

    constructor (conditions: Conditions)
      ensures advanced == 0 && skipped == 0 && this.conditions == conditions
    {
      this.conditions := conditions;
      advanced := 0;
      skipped := 0;
    }

    method Advance(bytes: nat)
      modifies this`advanced
      ensures advanced == old(advanced) + bytes
    {
      advanced := advanced + bytes;
    }

    method Skip(bytes: nat)
      modifies this`skipped
      ensures skipped == old(skipped) + bytes
    {
      skipped := skipped + bytes;
    }
  }

  /** Fills the front of the buffer from a device, or fails. */
  method ReadExactAt(source: Bytes, offset: u64, buffer: array<Byte>, want: nat, mayFail: bool) returns (ok: bool)
    requires want <= buffer.Length
    modifies buffer
    ensures ok ==> offset + want <= |source| && buffer[..want] == source[offset..offset + want]
    ensures !ok ==> mayFail || offset + want > |source|
  {
    var failed := *;
    if (mayFail && failed) || offset + want > |source| {
      return false;
    }
    forall i | 0 <= i < want {
      buffer[i] := source[offset + i];
    }
    return true;
  }

  // ---- a copy under way ------------------------------------------------------------------

  /** Errors that say a piece was refused, or an offset did not fit. */
  predicate IsRefusal(e: BackupError) {
    e.ArithFailed? || e == OutOfOrder || e == LargerThanChunk
  }

  /** The failure is no fault of the plan, but of what the run meets with: the store, the devices, the operator. */
  ghost predicate Excused(e: BackupError, w: BackupWriter, conditions: Conditions)
    reads w`chunks
  {
    || (e == Cancelled && conditions.mayCancel)
    || (e == ReadFailed && conditions.mayFailToRead)
    || (e.StoreFailed? && !w.store.Healthy())
    || (e == TooManyChunks && |w.chunks| == U32_MAX + 1)
  }

  /**
   A copy under way: exactly `pieces` of the source have been written, the stream
   still describes the same place, no chunk is unused, and every byte copied has
   been reported on top of what had been before.
   */
  ghost predicate Copying(sw: StreamWriter, progress: Progress,
      src: int -> Byte, header: Stream, reported: nat, pieces: seq<ByteRange>)
    reads sw, sw.writer, sw.writer.store, progress
  {
    && sw.Valid() && sw.Tidy() && sw.writer.Compact() && Header(sw.stream) == header
    && sw.log == PiecesOf(src, pieces)
    && progress.advanced == reported + SumLengths(pieces)
  }

  lemma SumLengthsSnoc(pieces: seq<ByteRange>, p: ByteRange)
    ensures SumLengths(pieces + [p]) == SumLengths(pieces) + p.length
  {
  }

  /** Records the bytes just read as the next piece, and reports them. */
  method RecordPiece(sw: StreamWriter,
      src: int -> Byte, ghost header: Stream, ghost reported: nat, ghost pieces: seq<ByteRange>, at: u64,
          data: Bytes, progress: Progress)
    returns (r: Result<(), BackupError>)
    requires Copying(sw, progress, src, header, reported, pieces)
    requires 0 < |data| <= U64_MAX && data in sw.writer.store.known
    requires data == SourceSlice(src, at, |data|)
    modifies sw, sw.writer`chunks, sw.writer`chunkIndex, sw.writer`contents, sw.writer.store, progress`advanced
    ensures sw.writer.Valid()
    ensures r.Success? ==>
              && Copying(sw, progress, src, header, reported, pieces + [ByteRange(at, |data|)])
              && sw.lastEnd == at + |data|
    ensures r.Failure? ==>
              || Excused(r.error, sw.writer, progress.conditions)
              || (IsRefusal(r.error) && old(sw.Refusal(at, |data|)).Some?)
  {
    r := sw.WriteSegment(at, data);
    if r.Success? {
      PiecesOfSnoc(src, pieces, ByteRange(at, |data|));
      SumLengthsSnoc(pieces, ByteRange(at, |data|));
      progress.Advance(|data|);
    }
  }

  // ---- copying ranges ------------------------------------------------------------------

  /** What a failed piece says: it was refused, or there is nothing to read it from. */
  predicate PieceExplained(e: BackupError, o: Origin, tailOpen: bool, at: u64, want: u64, refused: bool)
    requires want > 0
  {
    || (IsRefusal(e) && (refused || !o.Addressable(at)))
    || (e == NoTailSource && !tailOpen && at >= o.covers)
    || (e == ReadFailed && !o.Reaches(at + want - 1))
  }

  /** The byte can be had: from the snapshot, or from the disk where that has been opened. */
  predicate Sourced(o: Origin, tailOpen: bool, x: int) {
    o.Reaches(x) && (x < o.covers || tailOpen)
  }

  ghost predicate SpanSourced(o: Origin, tailOpen: bool, from: int, to: int) {
    forall x :: from <= x < to ==> Sourced(o, tailOpen, x)
  }

  /** Every byte of the ranges can be had. */
  ghost predicate AllSourced(o: Origin, tailOpen: bool, rs: seq<ByteRange>) {
    forall i :: 0 <= i < |rs| ==> SpanSourced(o, tailOpen, rs[i].offset, rs[i].Limit())
  }

  lemma SourcedSnoc(o: Origin, tailOpen: bool, rs: seq<ByteRange>, k: nat)
    requires k < |rs| && AllSourced(o, tailOpen, rs[..k])
    requires SpanSourced(o, tailOpen, rs[k].offset, rs[k].Limit())
    ensures AllSourced(o, tailOpen, rs[..k + 1])
  {
    assert forall i :: 0 <= i < k ==> rs[..k][i] == rs[..k + 1][i];
  }

  /** Reads one piece from the right side of the origin and records it. */
  method CopyPiece(o: Origin, tailOpen: bool, buffer: array<Byte>, sw: StreamWriter, ghost header: Stream,
      ghost reported: nat, ghost pieces: seq<ByteRange>, at: u64, want: u64, progress: Progress)
    returns (r: Result<(), BackupError>)
    requires Copying(sw, progress, Source(o), header, reported, pieces) && o.Known(sw.writer.store.known)
    requires 0 < want <= buffer.Length && at + want <= U64_MAX && (at < o.covers ==> at + want <= o.covers)
    modifies buffer, sw, sw.writer`chunks, sw.writer`chunkIndex, sw.writer`contents, sw.writer.store, progress`advanced
    ensures sw.writer.Valid()
    ensures r.Success? ==>
              && Copying(sw, progress, Source(o), header, reported, pieces + [ByteRange(at, want)])
              && sw.lastEnd == at + want && SpanSourced(o, tailOpen, at, at + want)
    ensures r.Failure? ==>
              || Excused(r.error, sw.writer, progress.conditions)
              || PieceExplained(r.error, o, tailOpen, at, want, old(sw.Refusal(at, want)).Some?)
  {
    if at < o.covers {
      var from := AddU64(o.primaryOffset, at);
      if from.Failure? {
        return Failure(ArithFailed(from.error));
      }
      var ok := ReadExactAt(o.primary, from.value, buffer, want, progress.conditions.mayFailToRead);
      if !ok {
        return Failure(ReadFailed);
      }
      PrimarySlice(o, at, want);
    } else {
      if !tailOpen {
        return Failure(NoTailSource);
      }
      var from := AddU64(o.tailOffset, at);
      if from.Failure? {
        return Failure(ArithFailed(from.error));
      }
      var ok := ReadExactAt(o.tail, from.value, buffer, want, progress.conditions.mayFailToRead);
      if !ok {
        return Failure(ReadFailed);
      }
      TailSlice(o, at, want);
    }
    r := RecordPiece(sw, Source(o), header, reported, pieces, at, buffer[..want], progress);
  }

  /** The pieces read so far followed by the ones still to come. */
  function Planned(pieces: seq<ByteRange>, at: u64, end: u64, covers: u64): seq<ByteRange> {
    pieces + CopyRangePieces(at, end, DEFAULT_CHUNK_SIZE, covers)
  }

  /** Finishing the range from here gives the same pieces as copying it in one go. */
  ghost predicate OnPlan(pieces: seq<ByteRange>, at: u64, base: seq<ByteRange>, range: ByteRange, covers: u64) {
    && range.Limit() <= U64_MAX
    && Planned(pieces, at, range.Limit(), covers) == Planned(base, range.offset, range.Limit(), covers)
  }

  lemma CopyStep(pieces: seq<ByteRange>, at: u64, want: u64, base: seq<ByteRange>, range: ByteRange, covers: u64)
    requires OnPlan(pieces, at, base, range, covers)
    requires at < range.Limit() && want == Want(at, range.Limit(), DEFAULT_CHUNK_SIZE, covers)
    ensures OnPlan(pieces + [ByteRange(at, want)], at + want, base, range, covers)
  {
  }

  lemma NothingPlanned(pieces: seq<ByteRange>, end: u64, covers: u64)
    ensures Planned(pieces, end, end, covers) == pieces
  {
  }

  /** How much to read next: to the next boundary or the end, but not across the change of source. */
  method NextPiece(at: u64, end: u64, covers: u64) returns (want: u64)
    requires at < end
    ensures want == Want(at, end, DEFAULT_CHUNK_SIZE, covers) <= DEFAULT_CHUNK_SIZE && at + want <= end
  {
    var toBoundary := DEFAULT_CHUNK_SIZE - at % DEFAULT_CHUNK_SIZE;
    want := Min(toBoundary, end - at);
    if at < covers && at + want > covers {
      want := covers - at;
    }
  }

  /**
   What a failed copy of a range says: only a range out of reach is refused, only one
   past the source needs a second source, and only one with a byte that neither has
   cannot be read.
   */
  ghost predicate RangeExplained(e: BackupError, o: Origin, tailOpen: bool, range: ByteRange, length: u64,
      chunkSize: u32) {
    || (IsRefusal(e) && (chunkSize < DEFAULT_CHUNK_SIZE || range.Limit() > length))
    || (IsRefusal(e) && exists x :: range.Has(x) && !o.Addressable(x))
    || (e == NoTailSource && exists x :: range.Has(x) && x >= o.covers && !tailOpen)
    || (e == ReadFailed && exists x :: range.Has(x) && !o.Reaches(x))
  }

  /** A failed piece of a range says as much of the range. */
  lemma PieceOfRange(e: BackupError, o: Origin, tailOpen: bool, at: u64, want: u64, range: ByteRange, length: u64,
      chunkSize: u32, refused: bool)
    requires want > 0 && range.offset <= at && at + want <= range.Limit()
    requires PieceExplained(e, o, tailOpen, at, want, refused)
    requires refused ==> at + want > length || chunkSize < DEFAULT_CHUNK_SIZE
    ensures RangeExplained(e, o, tailOpen, range, length, chunkSize)
  {
    var first, last := at, at + want - 1;
    assert range.Has(first) && range.Has(last);
    if e == ReadFailed {
      assert !o.Reaches(last);
    } else if e == NoTailSource {
      assert first >= o.covers && !tailOpen;
    }
  }

  /** And what a failure says of the rest of a range it says of the whole. */
  lemma RestOfRange(e: BackupError, o: Origin, tailOpen: bool, at: u64, range: ByteRange, length: u64, chunkSize: u32)
    requires range.offset <= at < range.Limit() <= U64_MAX
    requires RangeExplained(e, o, tailOpen, ByteRange(at, range.Limit() - at), length, chunkSize)
    ensures RangeExplained(e, o, tailOpen, range, length, chunkSize)
  {
    var rest := ByteRange(at, range.Limit() - at);
    if e == ReadFailed {
      var x :| rest.Has(x) && !o.Reaches(x);
      assert range.Has(x);
    } else if e == NoTailSource {
      var x :| rest.Has(x) && x >= o.covers && !tailOpen;
      assert range.Has(x);
    } else if x :| rest.Has(x) && !o.Addressable(x) {
      assert range.Has(x);
    }
  }

  lemma SpansJoin(o: Origin, tailOpen: bool, a: int, b: int, c: int)
    requires SpanSourced(o, tailOpen, a, b) && SpanSourced(o, tailOpen, b, c)
    ensures SpanSourced(o, tailOpen, a, c)
  {
  }

  /** Why the stream refuses a piece in its order, when it does. */
  lemma RefusedPiece(sw: StreamWriter, at: u64, want: u64)
    requires sw.lastEnd <= at && want <= DEFAULT_CHUNK_SIZE && sw.Refusal(at, want).Some?
    ensures at + want > sw.stream.length || sw.writer.chunkSize < DEFAULT_CHUNK_SIZE
  {
  }

  /** One round of the copy loop: check for cancellation, choose the next piece, read and record it. */
  method CopyNext(o: Origin, tailOpen: bool, end: u64, buffer: array<Byte>, sw: StreamWriter, ghost header: Stream,
      ghost reported: nat, ghost pieces: seq<ByteRange>, at: u64, progress: Progress)
    returns (r: Result<u64, BackupError>)
    requires Copying(sw, progress, Source(o), header, reported, pieces) && o.Known(sw.writer.store.known)
    requires sw.lastEnd <= at < end && buffer.Length == DEFAULT_CHUNK_SIZE
    modifies buffer, sw, sw.writer`chunks, sw.writer`chunkIndex, sw.writer`contents, sw.writer.store, progress`advanced
    ensures sw.writer.Valid()
    ensures r.Success? ==>
              && r.value == Want(at, end, DEFAULT_CHUNK_SIZE, o.covers)
              && Copying(sw, progress, Source(o), header, reported, pieces + [ByteRange(at, r.value)])
              && sw.lastEnd == at + r.value <= end && SpanSourced(o, tailOpen, at, at + r.value)
    ensures r.Failure? ==>
              || Excused(r.error, sw.writer, progress.conditions)
              || RangeExplained(r.error, o, tailOpen, ByteRange(at, end - at), header.length, sw.writer.chunkSize)
  {
    var cancelled := *;
    if progress.conditions.mayCancel && cancelled {
      return Failure(Cancelled);
    }
    var want := NextPiece(at, end, o.covers);
    ghost var refused := sw.Refusal(at, want).Some?;
    if refused {
      RefusedPiece(sw, at, want);
    }
    var copied := CopyPiece(o, tailOpen, buffer, sw, header, reported, pieces, at, want, progress);
    if copied.Failure? {
      if !Excused(copied.error, sw.writer, progress.conditions) {
        PieceOfRange(copied.error, o, tailOpen, at, want, ByteRange(at, end - at), header.length, sw.writer.chunkSize,
            refused);
      }
      return Failure(copied.error);
    }
    return Success(want);
  }

  /** The copy loop over one range: the cursor moves to the next boundary, the end, or the change of source. */
  method CopyOneRange(o: Origin, tailOpen: bool, range: ByteRange, buffer: array<Byte>, sw: StreamWriter,
      ghost header: Stream, ghost reported: nat, ghost base: seq<ByteRange>, progress: Progress)
    returns (r: Result<(), BackupError>)
    requires Copying(sw, progress, Source(o), header, reported, base) && o.Known(sw.writer.store.known)
    requires range.Limit() <= U64_MAX && sw.lastEnd <= range.offset && buffer.Length == DEFAULT_CHUNK_SIZE
    modifies buffer, sw, sw.writer`chunks, sw.writer`chunkIndex, sw.writer`contents, sw.writer.store, progress`advanced
    ensures sw.writer.Valid()
    ensures r.Success? ==>
              && Copying(sw, progress, Source(o), header, reported,
                         Planned(base, range.offset, range.Limit(), o.covers))
              && sw.lastEnd <= range.Limit() && SpanSourced(o, tailOpen, range.offset, range.Limit())
    ensures r.Failure? ==>
              || Excused(r.error, sw.writer, progress.conditions)
              || RangeExplained(r.error, o, tailOpen, range, header.length, sw.writer.chunkSize)
  {
    ghost var pieces := base;
    var end: u64 := range.Limit();
    var at := range.offset;
    while at < end
      invariant range.offset <= at <= end
      invariant Copying(sw, progress, Source(o), header, reported, pieces)
      invariant OnPlan(pieces, at, base, range, o.covers)
      invariant sw.lastEnd <= at && SpanSourced(o, tailOpen, range.offset, at)
    {
      var want := CopyNext(o, tailOpen, end, buffer, sw, header, reported, pieces, at, progress);
      if want.Failure? {
        if !Excused(want.error, sw.writer, progress.conditions) {
          RestOfRange(want.error, o, tailOpen, at, range, header.length, sw.writer.chunkSize);
        }
        return Failure(want.error);
      }
      CopyStep(pieces, at, want.value, base, range, o.covers);
      SpansJoin(o, tailOpen, range.offset, at, at + want.value);
      pieces := pieces + [ByteRange(at, want.value)];
      at := at + want.value;
    }
    NothingPlanned(pieces, end, o.covers);
    r := Success(());
  }

  /** One of the ranges is to blame. */
  ghost predicate Explained(e: BackupError, o: Origin, tailOpen: bool, rs: seq<ByteRange>, length: u64,
      chunkSize: u32) {
    exists i :: 0 <= i < |rs| && RangeExplained(e, o, tailOpen, rs[i], length, chunkSize)
  }

  /** A stream nothing has been written to yet. */
  ghost predicate Fresh(sw: StreamWriter)
    reads sw, sw.writer, sw.writer.store
  {
    sw.Valid() && sw.Tidy() && sw.writer.Compact() && sw.log == [] && sw.lastEnd == 0
  }

  /**
   Copies the ranges piece by piece. On success the stream holds exactly the
   pieces of the grid, each with the source's bytes, and every byte was reported.
   */
  method CopyRanges(o: Origin, tailOpen: bool, rs: seq<ByteRange>, sw: StreamWriter, ghost header: Stream,
      ghost reported: nat, progress: Progress)
    returns (r: Result<(), BackupError>)
    requires Fresh(sw) && o.Known(sw.writer.store.known) && InOrder(rs)
    requires header == Header(sw.stream) && reported == progress.advanced
    modifies sw, sw.writer`chunks, sw.writer`chunkIndex, sw.writer`contents, sw.writer.store, progress`advanced
    ensures sw.writer.Valid()
    ensures r.Success? ==>
              && Copying(sw, progress, Source(o), header, reported, CopyPieces(rs, DEFAULT_CHUNK_SIZE, o.covers))
              && AllSourced(o, tailOpen, rs)
    ensures r.Failure? ==>
              || Excused(r.error, sw.writer, progress.conditions)
              || Explained(r.error, o, tailOpen, rs, header.length, sw.writer.chunkSize)
  {
    var buffer := new Byte[DEFAULT_CHUNK_SIZE];
    ghost var pieces: seq<ByteRange> := [];
    for k := 0 to |rs|
      invariant Copying(sw, progress, Source(o), header, reported, pieces)
      invariant pieces == CopyPieces(rs[..k], DEFAULT_CHUNK_SIZE, o.covers)
      invariant sw.lastEnd == 0 || (k > 0 && sw.lastEnd <= rs[k - 1].Limit())
      invariant AllSourced(o, tailOpen, rs[..k])
    {
      assert k > 0 ==> rs[k - 1].Limit() <= rs[k].offset;
      r := CopyOneRange(o, tailOpen, rs[k], buffer, sw, header, reported, pieces, progress);
      if r.Failure? {
        return r;
      }
      SourcedSnoc(o, tailOpen, rs, k);
      pieces := Planned(pieces, rs[k].offset, rs[k].Limit(), o.covers);
      assert rs[..k + 1][..k] == rs[..k];
    }
    assert rs[..|rs|] == rs;
    r := Success(());
  }

  /** A single device read from an offset on. */
  function Raw(source: Bytes, offset: u64): Origin {
    Origin(source, offset, U64_MAX, source, offset)
  }

  /** A region can be copied: it fits its stream and can be addressed, chunk by chunk. */
  predicate RegionReadable(sourceOffset: u64, length: u64, limit: u64, chunkSize: u32) {
    chunkSize >= DEFAULT_CHUNK_SIZE && length <= limit && sourceOffset + length <= U64_MAX
  }

  /** What a failed copy of a region says: it was refused, or the device ends before it does. */
  predicate RegionExplained(e: BackupError, source: Bytes, sourceOffset: u64, length: u64, limit: u64,
      chunkSize: u32) {
    || (IsRefusal(e) && !RegionReadable(sourceOffset, length, limit, chunkSize))
    || (e == ReadFailed && length > 0 && sourceOffset + length > |source|)
  }

  /** Unless it has no bytes, the device goes on to its end. */
  predicate ReachedTo(source: Bytes, sourceOffset: u64, done: int) {
    done > 0 ==> sourceOffset + done <= |source|
  }

  /** One round of copying a region: a whole chunk, or what is left. */
  method CopyRegionPiece(source: Bytes, sourceOffset: u64, length: u64, buffer: array<Byte>, sw: StreamWriter,
      ghost header: Stream, ghost reported: nat, ghost pieces: seq<ByteRange>, done: u64, progress: Progress)
    returns (r: Result<u64, BackupError>)
    requires Copying(sw, progress, Source(Raw(source, sourceOffset)), header, reported, pieces)
    requires SlicesKnown(source, sw.writer.store.known)
    requires buffer.Length == DEFAULT_CHUNK_SIZE && sw.lastEnd <= done < length
    modifies buffer, sw, sw.writer`chunks, sw.writer`chunkIndex, sw.writer`contents, sw.writer.store, progress`advanced
    ensures sw.writer.Valid()
    ensures r.Success? ==>
              && r.value == Min(DEFAULT_CHUNK_SIZE, length - done)
              && Copying(sw, progress, Source(Raw(source, sourceOffset)), header, reported,
                         pieces + [ByteRange(done, r.value)])
              && sw.lastEnd == done + r.value && ReachedTo(source, sourceOffset, done + r.value)
    ensures r.Failure? ==>
              || Excused(r.error, sw.writer, progress.conditions)
              || RegionExplained(r.error, source, sourceOffset, length, header.length, sw.writer.chunkSize)
  {
    var cancelled := *;
    if progress.conditions.mayCancel && cancelled {
      return Failure(Cancelled);
    }
    var want: u64 := Min(DEFAULT_CHUNK_SIZE, length - done);
    var at := AddU64(sourceOffset, done);
    if at.Failure? {
      return Failure(ArithFailed(at.error));
    }
    var ok := ReadExactAt(source, at.value, buffer, want, progress.conditions.mayFailToRead);
    if !ok {
      return Failure(ReadFailed);
    }
    PrimarySlice(Raw(source, sourceOffset), done, want);
    var recorded := RecordPiece(sw, Source(Raw(source, sourceOffset)), header, reported, pieces, done,
        buffer[..want], progress);
    return if recorded.Failure? then Failure(recorded.error) else Success(want);
  }

  /** The pieces are those of the grid so far, and the device goes on that far. */
  ghost predicate RegionUpTo(source: Bytes, sourceOffset: u64, pieces: seq<ByteRange>, done: int, length: u64) {
    GridUpTo(pieces, done, length, DEFAULT_CHUNK_SIZE) && ReachedTo(source, sourceOffset, done)
  }

  lemma RegionStep(source: Bytes, sourceOffset: u64, pieces: seq<ByteRange>, done: u64, length: u64)
    requires RegionUpTo(source, sourceOffset, pieces, done, length) && done < length
    requires ReachedTo(source, sourceOffset, done + Min(DEFAULT_CHUNK_SIZE, length - done))
    ensures var want := Min(DEFAULT_CHUNK_SIZE, length - done);
            RegionUpTo(source, sourceOffset, pieces + [ByteRange(done, want)], done + want, length)
  {
    GridStep(pieces, done, length, DEFAULT_CHUNK_SIZE);
  }

  /** Copies one region in full, chunk by chunk from its start. */
  method CopyRange(source: Bytes, sourceOffset: u64, length: u64, sw: StreamWriter, ghost header: Stream,
      ghost reported: nat, progress: Progress)
    returns (r: Result<(), BackupError>, ghost pieces: seq<ByteRange>)
    requires Fresh(sw) && header == Header(sw.stream) && reported == progress.advanced
    requires SlicesKnown(source, sw.writer.store.known)
    modifies sw, sw.writer`chunks, sw.writer`chunkIndex, sw.writer`contents, sw.writer.store, progress`advanced
    ensures sw.writer.Valid()
    ensures r.Success? ==>
              && Copying(sw, progress, Source(Raw(source, sourceOffset)), header, reported, pieces)
              && GridUpTo(pieces, length, length, DEFAULT_CHUNK_SIZE)
              && ReachedTo(source, sourceOffset, length)
    ensures r.Failure? ==>
              || Excused(r.error, sw.writer, progress.conditions)
              || RegionExplained(r.error, source, sourceOffset, length, header.length, sw.writer.chunkSize)
  {
    pieces := [];
    if length == 0 {
      return Success(()), pieces;
    }
    var buffer := new Byte[DEFAULT_CHUNK_SIZE];
    var done: u64 := 0;
    while done < length
      invariant 0 <= done <= length
      invariant Copying(sw, progress, Source(Raw(source, sourceOffset)), header, reported, pieces)
      invariant RegionUpTo(source, sourceOffset, pieces, done, length) && sw.lastEnd <= done
    {
      var want := CopyRegionPiece(source, sourceOffset, length, buffer, sw, header, reported, pieces, done, progress);
      if want.Failure? {
        return Failure(want.error), pieces;
      }
      RegionStep(source, sourceOffset, pieces, done, length);
      pieces := pieces + [ByteRange(done, want.value)];
      done := done + want.value;
    }
    r := Success(());
  }
}
