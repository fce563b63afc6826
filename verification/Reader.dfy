/**
 Reading a captured stream back as if it were a disk (crates/mjolnir-image/src/reader.rs).
 */
module Reader {
  import opened Arith
  import opened Store
  import opened Format

  const CACHE_CHUNKS := 8

  datatype ReadError = PastAddress | PastEnd | NoSuchChunk | StoreFailed(store: StoreError)

  type Cache = seq<(u32, Bytes)>

  // ---- the chunk cache -------------------------------------------------------------

  function Position(cache: Cache, index: u32): (p: Option<nat>)
    ensures p.Some? ==> p.value < |cache| && cache[p.value].0 == index
    ensures p.None? ==> forall k :: 0 <= k < |cache| ==> cache[k].0 != index
  {
    if cache == [] then None
    else if cache[0].0 == index then Some(0)
    else
      match Position(cache[1..], index)
      case None => None
      case Some(k) =>
        assert cache[1..][k] == cache[k + 1];
        Some(k + 1)
  }

  function Indices(cache: Cache): (ids: seq<u32>)
    ensures |ids| == |cache| && forall k :: 0 <= k < |cache| ==> ids[k] == cache[k].0
  {
    seq(|cache|, k requires 0 <= k < |cache| => cache[k].0)
  }

  ghost predicate Distinct(ids: seq<u32>) {
    forall i, j :: 0 <= i < j < |ids| ==> ids[i] != ids[j]
  }

  function Without(ids: seq<u32>, x: u32): seq<u32> {
    if ids == [] then []
    else if ids[0] == x then Without(ids[1..], x)
    else [ids[0]] + Without(ids[1..], x)
  }

  /** Everything used so far, least recently used first. */
  function ByRecency(uses: seq<u32>): seq<u32> {
    if uses == [] then []
    else Without(ByRecency(uses[..|uses| - 1]), uses[|uses| - 1]) + [uses[|uses| - 1]]
  }

  function LastUpTo(ids: seq<u32>, n: nat): seq<u32> {
    if |ids| <= n then ids else ids[|ids| - n..]
  }

  lemma {:induction false} WithoutAbsent(ids: seq<u32>, x: u32)
    requires x !in ids
    ensures Without(ids, x) == ids
  {
    if ids != [] {
      WithoutAbsent(ids[1..], x);
      assert ids == [ids[0]] + ids[1..];
    }
  }

  lemma {:induction false} WithoutConcat(a: seq<u32>, b: seq<u32>, x: u32)
    ensures Without(a + b, x) == Without(a, x) + Without(b, x)
  {
    if a == [] {
      assert a + b == b;
    } else {
      WithoutConcat(a[1..], b, x);
      assert (a + b)[1..] == a[1..] + b && (a + b)[0] == a[0];
      ConsConcat(a[0], Without(a[1..], x), Without(b, x));
    }
  }

  lemma ConsConcat(x: u32, a: seq<u32>, b: seq<u32>)
    ensures [x] + (a + b) == ([x] + a) + b
  {
  }

  lemma {:induction false} WithoutAt(ids: seq<u32>, p: nat)
    requires Distinct(ids) && p < |ids|
    ensures Without(ids, ids[p]) == ids[..p] + ids[p + 1..]
  {
    WithoutAbsent(ids[..p], ids[p]);
    WithoutAbsent(ids[p + 1..], ids[p]);
    WithoutConcat(ids[..p], ids[p..], ids[p]);
    assert ids == ids[..p] + ids[p..];
    assert ids[p..][1..] == ids[p + 1..];
  }

  lemma DistinctSnoc(ids: seq<u32>, x: u32)
    requires Distinct(ids) && x !in ids
    ensures Distinct(ids + [x])
  {
  }

  lemma DistinctCons(x: u32, ids: seq<u32>)
    ensures Distinct([x] + ids) <==> x !in ids && Distinct(ids)
  {
    var all := [x] + ids;
    if Distinct(all) {
      assert forall k :: 0 <= k < |ids| ==> all[k + 1] == ids[k];
      assert all[0] == x;
    }
  }

  lemma {:induction false} WithoutMembers(ids: seq<u32>, x: u32)
    ensures forall y :: y in Without(ids, x) <==> y in ids && y != x
    ensures Distinct(ids) ==> Distinct(Without(ids, x))
  {
    if ids != [] {
      WithoutMembers(ids[1..], x);
      assert ids == [ids[0]] + ids[1..];
      DistinctCons(ids[0], ids[1..]);
      DistinctCons(ids[0], Without(ids[1..], x));
    }
  }

  lemma {:induction false} ByRecencyFacts(uses: seq<u32>)
    ensures Distinct(ByRecency(uses))
    ensures forall y :: y in ByRecency(uses) <==> y in uses
  {
    if uses != [] {
      var init, last := uses[..|uses| - 1], uses[|uses| - 1];
      ByRecencyFacts(init);
      WithoutMembers(ByRecency(init), last);
      DistinctSnoc(Without(ByRecency(init), last), last);
      assert uses == init + [last];
    }
  }

  lemma UseOne(uses: seq<u32>, x: u32)
    ensures ByRecency(uses + [x]) == Without(ByRecency(uses), x) + [x]
  {
  }

  lemma LastOfConcat(early: seq<u32>, kept: seq<u32>, n: nat)
    requires |kept| <= n && (|kept| < n ==> early == [])
    ensures LastUpTo(early + kept, n) == kept
  {
  }

  lemma MoveToEnd(early: seq<u32>, kept: seq<u32>, p: nat)
    requires p < |kept| && Distinct(early + kept)
    ensures Without(early + kept, kept[p]) + [kept[p]] == early + (kept[..p] + kept[p + 1..] + [kept[p]])
  {
    var all, q := early + kept, |early| + p;
    assert all[q] == kept[p];
    WithoutAt(all, q);
    assert all[..q] == early + kept[..p] && all[q + 1..] == kept[p + 1..];
  }

  /** Moving one of the last `n` to the end moves it there among the last `n`. */
  lemma MovedAmongLast(all: seq<u32>, n: nat, p: nat)
    requires Distinct(all) && p < |LastUpTo(all, n)|
    ensures var kept := LastUpTo(all, n);
            LastUpTo(Without(all, kept[p]) + [kept[p]], n) == kept[..p] + kept[p + 1..] + [kept[p]]
  {
    var kept := LastUpTo(all, n);
    var early := all[..|all| - |kept|];
    assert all == early + kept;
    MoveToEnd(early, kept, p);
    LastOfConcat(early, kept[..p] + kept[p + 1..] + [kept[p]], n);
  }

  /** Adding one that is not among the last `n` pushes the first of them out once there are `n`. */
  lemma AddedToLast(all: seq<u32>, n: nat, x: u32)
    requires n > 0 && x !in LastUpTo(all, n)
    ensures var kept := LastUpTo(all, n);
            LastUpTo(Without(all, x) + [x], n) == (if |kept| == n then kept[1..] else kept) + [x]
  {
    var kept := LastUpTo(all, n);
    var early := all[..|all| - |kept|];
    assert all == early + kept;
    WithoutConcat(early, kept, x);
    WithoutAbsent(kept, x);
    var rest := Without(early, x);
    if |kept| == n {
      assert rest + kept + [x] == (rest + [kept[0]]) + (kept[1..] + [x]);
      LastOfConcat(rest + [kept[0]], kept[1..] + [x], n);
    } else {
      assert early == [];
      assert rest + kept + [x] == [] + (kept + [x]);
      LastOfConcat([], kept + [x], n);
    }
  }

  /** Using a cached chunk again keeps the cache the most recent ones. */
  lemma HitKeepsMostRecent(uses: seq<u32>, n: nat, p: nat)
    requires p < |LastUpTo(ByRecency(uses), n)|
    ensures var kept := LastUpTo(ByRecency(uses), n);
            LastUpTo(ByRecency(uses + [kept[p]]), n) == kept[..p] + kept[p + 1..] + [kept[p]]
  {
    ByRecencyFacts(uses);
    UseOne(uses, LastUpTo(ByRecency(uses), n)[p]);
    MovedAmongLast(ByRecency(uses), n, p);
  }

  /** So does using one that is not cached, once the least recent one has made room. */
  lemma MissKeepsMostRecent(uses: seq<u32>, n: nat, x: u32)
    requires n > 0 && x !in LastUpTo(ByRecency(uses), n)
    ensures var kept := LastUpTo(ByRecency(uses), n);
            LastUpTo(ByRecency(uses + [x]), n) == (if |kept| == n then kept[1..] else kept) + [x]
  {
    UseOne(uses, x);
    AddedToLast(ByRecency(uses), n, x);
  }

  /** The cache holds the chunks used most recently, each with the right bytes. */
  ghost predicate CacheOk(cache: Cache, uses: seq<u32>, contents: seq<Bytes>) {
    && Indices(cache) == LastUpTo(ByRecency(uses), CACHE_CHUNKS)
    && forall k :: 0 <= k < |cache| ==> cache[k].0 < |contents| && cache[k].1 == contents[cache[k].0]
  }

  /** So it holds at most eight chunks and none of them twice. */
  lemma CacheIsBoundedAndDistinct(cache: Cache, uses: seq<u32>, contents: seq<Bytes>)
    requires CacheOk(cache, uses, contents)
    ensures |cache| <= 8 && Distinct(Indices(cache))
    ensures |cache| < 8 ==> forall x :: x in uses ==> x in Indices(cache)
  {
    ByRecencyFacts(uses);
  }

  lemma Hit(cache: Cache, uses: seq<u32>, contents: seq<Bytes>, p: nat)
    requires CacheOk(cache, uses, contents) && p < |cache|
    ensures CacheOk(cache[..p] + cache[p + 1..] + [cache[p]], uses + [cache[p].0], contents)
    ensures forall i :: i in Indices(cache[..p] + cache[p + 1..] + [cache[p]]) ==> i in Indices(cache)
  {
    HitKeepsMostRecent(uses, CACHE_CHUNKS, p);
    var moved := cache[..p] + cache[p + 1..] + [cache[p]];
    var ids := Indices(cache);
    assert Indices(moved) == ids[..p] + ids[p + 1..] + [ids[p]];
  }

  lemma Miss(cache: Cache, uses: seq<u32>, contents: seq<Bytes>, index: u32, data: Bytes)
    requires CacheOk(cache, uses, contents) && index !in Indices(cache)
    requires index < |contents| && contents[index] == data
    ensures CacheOk((if |cache| == CACHE_CHUNKS then cache[1..] else cache) + [(index, data)], uses + [index], contents)
    ensures forall i :: i in Indices((if |cache| == CACHE_CHUNKS then cache[1..] else cache) + [(index, data)]) ==>
              i in Indices(cache) || i == index
  {
    MissKeepsMostRecent(uses, CACHE_CHUNKS, index);
    var kept := if |cache| == CACHE_CHUNKS then cache[1..] else cache;
    var ids := Indices(cache);
    assert Indices(kept + [(index, data)]) == (if |ids| == CACHE_CHUNKS then ids[1..] else ids) + [index];
  }

  // ---- finding the first segment -----------------------------------------------------

  /** Bisection for the first segment that ends past `offset`. */
  function PartitionPoint(segs: seq<Segment>, offset: u64, lo: nat, hi: nat): (p: nat)
    requires lo <= hi <= |segs|
    requires forall i, j :: 0 <= i < j < |segs| ==> segs[i].Limit() <= segs[j].Limit()
    requires forall i :: 0 <= i < lo ==> segs[i].Limit() <= offset
    requires forall i :: hi <= i < |segs| ==> segs[i].Limit() > offset
    ensures p <= |segs|
    ensures forall i :: 0 <= i < p ==> segs[i].Limit() <= offset
    ensures forall i :: p <= i < |segs| ==> segs[i].Limit() > offset
    decreases hi - lo
  {
    if lo == hi then lo
    else
      var mid := (lo + hi) / 2;
      if segs[mid].Limit() <= offset then PartitionPoint(segs, offset, mid + 1, hi)
      else PartitionPoint(segs, offset, lo, mid)
  }

  lemma LimitsAscend(segs: seq<Segment>, limit: int, chunks: seq<ChunkEntry>)
    requires SegmentsOk(segs, limit, chunks)
    ensures forall i, j :: 0 <= i < j < |segs| ==> segs[i].Limit() <= segs[j].Limit()
  {
  }

  lemma OffsetsAscend(segs: seq<Segment>, limit: int, chunks: seq<ChunkEntry>, k: nat)
    requires SegmentsOk(segs, limit, chunks)
    ensures forall i :: k <= i < |segs| ==> segs[k].offset <= segs[i].offset
  {
  }

  /** Segments that start past the byte change nothing about it. */
  lemma {:induction false} LaterSegmentsDoNotMatter(segs: seq<Segment>, contents: seq<Bytes>, k: nat, x: int)
    requires Backed(segs, contents)
    requires k <= |segs| && forall i :: k <= i < |segs| ==> segs[i].offset > x
    ensures SegmentByte(segs, contents, x) == SegmentByte(segs[..k], contents, x)
  {
    if k < |segs| {
      assert !segs[|segs| - 1].Has(x);
      LaterSegmentsDoNotMatter(segs[..|segs| - 1], contents, k, x);
      assert segs[..|segs| - 1][..k] == segs[..k];
    } else {
      assert segs[..k] == segs;
    }
  }

  lemma EarlierSegmentsMissIt(segs: seq<Segment>, contents: seq<Bytes>, k: nat, offset: u64, x: int)
    requires Backed(segs, contents)
    requires k <= |segs| && offset <= x && forall i :: 0 <= i < k ==> segs[i].Limit() <= offset
    ensures SegmentByte(segs[..k], contents, x) == 0
  {
    UncarriedIsZero(segs[..k], contents, x);
  }

  /** One more segment overrides the bytes it has and leaves the others. */
  lemma OneMoreSegment(segs: seq<Segment>, contents: seq<Bytes>, k: nat, x: int)
    requires Backed(segs, contents) && k < |segs|
    ensures SegmentByte(segs[..k + 1], contents, x) ==
            if segs[k].Has(x) then contents[segs[k].chunk][x - segs[k].offset] else SegmentByte(segs[..k], contents, x)
  {
    assert segs[..k + 1][..k] == segs[..k];
  }

  /** Every byte of the buffer is what the first `k` segments say about it. */
  ghost predicate Filled(buffer: seq<Byte>, offset: u64, segs: seq<Segment>, contents: seq<Bytes>, k: nat)
    requires k <= |segs| && Backed(segs, contents)
  {
    forall i :: 0 <= i < |buffer| ==> buffer[i] == SegmentByte(segs[..k], contents, offset + i)
  }

  /** Writes part of `data` over part of the buffer. */
  method CopyInto(buffer: array<Byte>, at: nat, data: Bytes, from: nat, take: nat)
    requires at + take <= buffer.Length && from + take <= |data|
    modifies buffer
    ensures forall i :: 0 <= i < buffer.Length ==>
              buffer[i] == if at <= i < at + take then data[from + (i - at)] else old(buffer[i])
  {
    forall i | 0 <= i < take {
      buffer[at + i] := data[from + i];
    }
  }

  lemma FilledByOneMore(before: seq<Byte>, after: seq<Byte>, offset: u64, segs: seq<Segment>, contents: seq<Bytes>,
      k: nat, from: int, to: int)
    requires Backed(segs, contents) && k < |segs| && Filled(before, offset, segs, contents, k)
    requires |after| == |before|
    requires from == Max(segs[k].offset, offset) && to == Min(segs[k].Limit(), offset + |before|) && from <= to
    requires forall i :: 0 <= i < |after| ==>
               after[i] == if from - offset <= i < to - offset then
                   contents[segs[k].chunk][offset + i - segs[k].offset] else before[i]
    ensures Filled(after, offset, segs, contents, k + 1)
  {
    forall i | 0 <= i < |after|
      ensures after[i] == SegmentByte(segs[..k + 1], contents, offset + i)
    {
      OneMoreSegment(segs, contents, k, offset + i);
    }
  }

  lemma ZerosAreFilled(buffer: seq<Byte>, offset: u64, segs: seq<Segment>, contents: seq<Bytes>, first: nat)
    requires Backed(segs, contents) && first <= |segs|
    requires forall i :: 0 <= i < first ==> segs[i].Limit() <= offset
    requires forall i :: 0 <= i < |buffer| ==> buffer[i] == 0
    ensures Filled(buffer, offset, segs, contents, first)
  {
    forall i | 0 <= i < |buffer|
      ensures buffer[i] == SegmentByte(segs[..first], contents, offset + i)
    {
      EarlierSegmentsMissIt(segs, contents, first, offset, offset + i);
    }
  }

  lemma FilledByAll(buffer: seq<Byte>, offset: u64, segs: seq<Segment>, contents: seq<Bytes>, k: nat)
    requires Backed(segs, contents) && k <= |segs| && Filled(buffer, offset, segs, contents, k)
    requires forall i :: k <= i < |segs| ==> segs[i].offset >= offset + |buffer|
    ensures ReadsAs(buffer, offset, segs, contents)
  {
    forall i | 0 <= i < |buffer|
      ensures buffer[i] == SegmentByte(segs, contents, offset + i)
    {
      LaterSegmentsDoNotMatter(segs, contents, k, offset + i);
    }
  }

  /** The buffer holds exactly the bytes of the stream from `offset` on. */
  ghost predicate ReadsAs(buffer: seq<Byte>, offset: u64, segs: seq<Segment>, contents: seq<Bytes>)
    requires Backed(segs, contents)
  {
    forall i :: 0 <= i < |buffer| ==> buffer[i] == SegmentByte(segs, contents, offset + i)
  }

  lemma SegmentsAreBacked(codec: Codec, known: iset<Bytes>, segs: seq<Segment>, limit: int, chunks: seq<ChunkEntry>,
      contents: seq<Bytes>)
    requires SegmentsOk(segs, limit, chunks) && TableDescribes(codec, known, chunks, contents)
    ensures Backed(segs, contents)
  {
  }

  // ---- the reader --------------------------------------------------------------------------

  class StreamReader {
    const segments: seq<Segment>
    const length: u64
    const chunks: seq<ChunkEntry>
    const store: ChunkStore
    var cache: Cache
    /** The bytes each table entry stands for. */
    ghost const contents: seq<Bytes>
    /** Every chunk fetched so far, in order. */
    ghost var uses: seq<u32>

    /** A validated stream, and a store whose decodable files are all known byte strings. */
    ghost predicate Readable()
      reads store
    {
      && SegmentsOk(segments, length, chunks)
      && |chunks| <= U32_MAX + 1
      && Lawful(store.codec, store.known)
      && TableDescribes(store.codec, store.known, chunks, contents)
      && forall h :: h in store.files && store.codec.decode(store.files[h]).Some? ==>
           store.codec.decode(store.files[h]).value in store.known
    }

    ghost predicate Valid()
      reads this, store
    {
      Readable() && CacheOk(cache, uses, contents)
    }

    constructor (segments: seq<Segment>, length: u64, chunks: seq<ChunkEntry>, store: ChunkStore,
        ghost contents: seq<Bytes>)
      ensures this.segments == segments && this.length == length && this.chunks == chunks
      ensures this.store == store && this.contents == contents
      ensures uses == [] && (Readable() ==> Valid() && CacheIsThere())
    {
      this.segments := segments;
      this.length := length;
      this.chunks := chunks;
      this.store := store;
      this.contents := contents;
      cache := [];
      uses := [];
    }

    /** The chunk's file is locked or cannot be read, or does not give back its bytes. */
    ghost predicate ChunkIsGone(index: int)
      reads store
      requires |chunks| == |contents|
    {
      && 0 <= index < |chunks|
      && (store.locked || chunks[index].hash in store.unreadable || !store.Holds(chunks[index].hash, contents[index]))
    }

    /** Nothing is cached whose chunk is gone. */
    ghost predicate CacheIsThere()
      reads this, store
      requires |chunks| == |contents|
    {
      forall i :: i in Indices(cache) ==> !ChunkIsGone(i)
    }

    /** Some segment that reaches into the range has a chunk that is gone. */
    ghost predicate RangeIsDamaged(offset: int, end: int)
      reads store
      requires |chunks| == |contents|
    {
      exists k :: 0 <= k < |segments| && segments[k].offset < end && segments[k].Limit() > offset &&
                  ChunkIsGone(segments[k].chunk)
    }

    /**
     Fetches a chunk, from the cache when it is there. Never wrong bytes, and it
     fails only on a chunk that is gone from the store.
     */
    method Chunk(index: u32) returns (r: Result<Bytes, ReadError>)
      requires Valid()
      modifies this`cache, this`uses
      ensures Valid()
      ensures r.Success? ==> index < |chunks| && r.value == contents[index] && uses == old(uses) + [index]
      ensures r.Failure? ==> cache == old(cache) && index !in Indices(cache)
      ensures r == Failure(NoSuchChunk) <==> index >= |chunks|
      ensures r.Failure? && index < |chunks| ==> r.error.StoreFailed? && ChunkIsGone(index)
      ensures old(CacheIsThere()) ==> CacheIsThere() && (r.Success? ==> !ChunkIsGone(index))
    {
      var position := Position(cache, index);
      if position.Some? {
        var entry := cache[position.value];
        Hit(cache, uses, contents, position.value);
        cache := cache[..position.value] + cache[position.value + 1..] + [entry];
        uses := uses + [index];
        return Success(entry.1);
      }
      if index >= |chunks| {
        return Failure(NoSuchChunk);
      }
      var entry := chunks[index];
      var data := store.Get(entry.hash, entry.uncompressedSize);
      if data.Failure? {
        return Failure(StoreFailed(data.error));
      }
      Miss(cache, uses, contents, index, data.value);
      if |cache| == CACHE_CHUNKS {
        cache := cache[1..];
      }
      cache := cache + [(index, data.value)];
      uses := uses + [index];
      return Success(data.value);
    }

    ghost predicate SegmentsAreThere(first: nat, index: nat)
      reads store
      requires |chunks| == |contents| && index <= |segments|
    {
      forall i :: first <= i < index ==> !ChunkIsGone(segments[i].chunk)
    }

    /** Copies what one segment has of the range into the buffer. */
    method CopySegment(k: nat, offset: u64, buffer: array<Byte>, ghost first: nat)
      returns (r: Result<(), ReadError>)
      requires Valid() && Backed(segments, contents) && k < |segments|
      requires Filled(buffer[..], offset, segments, contents, k)
      requires offset + buffer.Length <= length
      requires segments[k].offset < offset + buffer.Length && segments[k].Limit() > offset
      modifies this`cache, this`uses, buffer
      ensures Valid()
      ensures r.Success? ==> Filled(buffer[..], offset, segments, contents, k + 1)
      ensures r.Failure? ==> r.error.StoreFailed? && RangeIsDamaged(offset, offset + buffer.Length)
      ensures old(CacheIsThere()) ==> CacheIsThere()
      ensures old(CacheIsThere()) && SegmentsAreThere(first, k) && first <= k && r.Success? ==>
                SegmentsAreThere(first, k + 1)
    {
      var segment := segments[k];
      var segmentEnd: u64 := segment.offset + segment.length;
      var from, to := Max(segment.offset, offset), Min(segmentEnd, offset + buffer.Length);
      var intoChunk, take, intoBuffer := from - segment.offset, to - from, from - offset;
      var chunk := Chunk(segment.chunk);
      if chunk.Failure? {
        return Failure(chunk.error);
      }
      var data := chunk.value;
      if intoChunk + take > |data| {
        assert false;
      }
      ghost var before := buffer[..];
      CopyInto(buffer, intoBuffer, data, intoChunk, take);
      FilledByOneMore(before, buffer[..], offset, segments, contents, k, from, to);
      return Success(());
    }

    /**
     Fills the buffer with the bytes of the stream from `offset` on: what was
     captured, and zero where nothing was.
     */
    method ReadExactAt(offset: u64, buffer: array<Byte>) returns (r: Result<(), ReadError>)
      requires Valid() && buffer.Length <= U64_MAX
      modifies this`cache, this`uses, buffer
      ensures Valid() && Backed(segments, contents)
      ensures r.Success? ==> ReadsAs(buffer[..], offset, segments, contents)
      ensures buffer.Length == 0 ==> r.Success?
      ensures r == Failure(PastAddress) <==> buffer.Length > 0 && offset + buffer.Length > U64_MAX
      ensures r == Failure(PastEnd) <==> buffer.Length > 0 && length < offset + buffer.Length <= U64_MAX
      ensures r.Failure? && offset + buffer.Length <= length ==>
                r.error.StoreFailed? && RangeIsDamaged(offset, offset + buffer.Length)
      ensures old(CacheIsThere()) ==>
                && CacheIsThere()
                && (r.Success? && buffer.Length > 0 ==> !RangeIsDamaged(offset, offset + buffer.Length))
    {
      SegmentsAreBacked(store.codec, store.known, segments, length, chunks, contents);
      if buffer.Length == 0 {
        return Success(());
      }
      if offset + buffer.Length > U64_MAX {
        return Failure(PastAddress);
      }
      var end: u64 := offset + buffer.Length;
      if end > length {
        return Failure(PastEnd);
      }
      r := FillFromSegments(offset, end, buffer);
    }

    /** Clears the buffer and finds the first segment that ends past `offset`. */
    method StartWithZeros(offset: u64, buffer: array<Byte>) returns (first: nat)
      requires Readable() && Backed(segments, contents)
      modifies buffer
      ensures first <= |segments| && Filled(buffer[..], offset, segments, contents, first)
      ensures forall i :: 0 <= i < |segments| ==> (segments[i].Limit() > offset <==> first <= i)
    {
      forall i | 0 <= i < buffer.Length {
        buffer[i] := 0;
      }
      LimitsAscend(segments, length, chunks);
      first := PartitionPoint(segments, offset, 0, |segments|);
      ZerosAreFilled(buffer[..], offset, segments, contents, first);
    }

    /** Segments before the first reach no further than the range, those after the last begin behind it. */
    lemma RangeIsThere(offset: int, end: int, first: nat, index: nat)
      requires Readable() && first <= index <= |segments| && SegmentsAreThere(first, index)
      requires forall i :: 0 <= i < |segments| ==> (segments[i].Limit() > offset <==> first <= i)
      requires index < |segments| ==> segments[index].offset >= end
      ensures !RangeIsDamaged(offset, end)
    {
      OffsetsAscend(segments, length, chunks, index);
    }

    /** Zeros, then every segment that reaches into the range. */
    method FillFromSegments(offset: u64, end: u64, buffer: array<Byte>) returns (r: Result<(), ReadError>)
      requires Valid() && Backed(segments, contents) && end == offset + buffer.Length <= length
      modifies this`cache, this`uses, buffer
      ensures Valid()
      ensures r.Success? ==> ReadsAs(buffer[..], offset, segments, contents)
      ensures r.Failure? ==> r.error.StoreFailed? && RangeIsDamaged(offset, end)
      ensures old(CacheIsThere()) ==> CacheIsThere() && (r.Success? ==> !RangeIsDamaged(offset, end))
    {
      ghost var there := CacheIsThere();
      var first := StartWithZeros(offset, buffer);
      var index;
      r, index := CopySegments(first, offset, end, buffer, there);
      if r.Success? {
        if there {
          RangeIsThere(offset, end, first, index);
        }
        OffsetsAscend(segments, length, chunks, index);
        FilledByAll(buffer[..], offset, segments, contents, index);
      }
    }

    /** Copies from segment `first` on, up to the one that begins behind the range. */
    method CopySegments(first: nat, offset: u64, end: u64, buffer: array<Byte>, ghost there: bool)
      returns (r: Result<(), ReadError>, index: nat)
      requires Copied(first, first, offset, buffer[..], there) && end == offset + buffer.Length <= length
      requires forall i :: first <= i < |segments| ==> segments[i].Limit() > offset
      modifies this`cache, this`uses, buffer
      ensures Valid() && (there ==> CacheIsThere())
      ensures r.Success? ==> Copied(first, index, offset, buffer[..], there)
      ensures r.Success? && index < |segments| ==> segments[index].offset >= end
      ensures r.Failure? ==> r.error.StoreFailed? && RangeIsDamaged(offset, end)
    {
      index := first;
      while index < |segments| && segments[index].offset < end
        invariant Copied(first, index, offset, buffer[..], there)
      {
        r := CopyNext(first, index, offset, end, buffer, there);
        if r.Failure? {
          return r, index;
        }
        index := index + 1;
      }
      r := Success(());
    }

    method CopyNext(first: nat, index: nat, offset: u64, end: u64, buffer: array<Byte>, ghost there: bool)
      returns (r: Result<(), ReadError>)
      requires Copied(first, index, offset, buffer[..], there) && end == offset + buffer.Length <= length
      requires index < |segments| && segments[index].offset < end && segments[index].Limit() > offset
      modifies this`cache, this`uses, buffer
      ensures Valid() && (there ==> CacheIsThere())
      ensures r.Success? ==> Copied(first, index + 1, offset, buffer[..], there)
      ensures r.Failure? ==> r.error.StoreFailed? && RangeIsDamaged(offset, end)
    {
      r := CopySegment(index, offset, buffer, first);
    }

    /** The range has been filled from the segments before `index`. */
    ghost predicate Copied(first: nat, index: nat, offset: u64, buffer: seq<Byte>, there: bool)
      reads this, store
    {
      && first <= index <= |segments| && Valid() && Backed(segments, contents)
      && Filled(buffer, offset, segments, contents, index)
      && (there ==> CacheIsThere() && SegmentsAreThere(first, index))
    }
  }
}
