/**
 Cutting an extent list into pieces on multiples of the chunk size measured from
 zero, and growing it outward to a granularity (crates/mjolnir-core/src/extents.rs).
 */
module Splitting {
  import opened Arith
  import opened Extents

  // ---- splitting -------------------------------------------------------------

  /** How far the piece starting at `at` reaches: to the next boundary or to the end. */
  function PieceLength(at: u64, end: u64, size: u32): (take: u64)
    requires size > 0 && at < end
    ensures 0 < take <= size && at + take <= end
  {
    Min(size - at % size, end - at)
  }

  function SplitRange(at: u64, end: u64, size: u32): seq<ByteRange>
    requires size > 0
    decreases end - at
  {
    if at >= end then []
    else
      var take := PieceLength(at, end, size);
      [ByteRange(at, take)] + SplitRange(at + take, end, size)
  }

  /** All the pieces of a list, range by range. */
  function Split(rs: seq<ByteRange>, size: u32): seq<ByteRange>
    requires size > 0 && forall i :: 0 <= i < |rs| ==> rs[i].Limit() <= U64_MAX
  {
    if rs == [] then []
    else Split(rs[..|rs| - 1], size) + SplitRange(rs[|rs| - 1].offset, rs[|rs| - 1].Limit(), size)
  }

  /** The cutting loop; the cursor never overflows on a valid list, so it never fails. */
  method SplitChunks(rs: ExtentList, size: u32) returns (r: Result<seq<ByteRange>, ArithError>)
    requires size > 0
    ensures r == Success(Split(rs, size))
  {
    var out: seq<ByteRange> := [];
    for k := 0 to |rs|
      invariant out == Split(rs[..k], size)
    {
      var end: u64 := rs[k].Limit();
      var at: u64 := rs[k].offset;
      while at < end
        invariant at <= end
        invariant out + SplitRange(at, end, size) == Split(rs[..k], size) + SplitRange(rs[k].offset, end, size)
      {
        var toBoundary := size - at % size;
        var take := Min(toBoundary, end - at);
        assert take == PieceLength(at, end, size);
        ghost var rest := SplitRange(at + take, end, size);
        assert out + ([ByteRange(at, take)] + rest) == (out + [ByteRange(at, take)]) + rest;
        out := out + [ByteRange(at, take)];
        at := at + take;
      }
      assert rs[..k + 1][..k] == rs[..k];
    }
    assert rs[..|rs|] == rs;
    r := Success(out);
  }

  /** A piece cut from `[lo, hi)`: inside one granule, ending on a boundary or at `hi`. */
  ghost predicate PieceOf(p: ByteRange, lo: int, hi: int, size: int)
    requires size > 0
  {
    && p.length > 0 && lo <= p.offset && p.Limit() <= hi
    && p.offset / size == (p.Limit() - 1) / size
    && (p.Limit() == hi || p.Limit() % size == 0)
  }

  lemma PieceStaysInGranule(at: u64, end: u64, size: u32)
    requires size > 0 && at < end
    ensures PieceOf(ByteRange(at, PieceLength(at, end, size)), at, end, size)
  {
    var take, q := PieceLength(at, end, size), at / size;
    assert at == size * q + at % size;
    assert at + (size - at % size) == size * (q + 1);
    InGranule(at, size, q);
    InGranule(at + take - 1, size, q);
    if take == size - at % size {
      MultipleModZero(q + 1, size);
    }
  }

  lemma {:induction false} SplitRangePieces(at: u64, end: u64, size: u32)
    requires size > 0
    ensures forall i :: 0 <= i < |SplitRange(at, end, size)| ==> PieceOf(SplitRange(at, end, size)[i], at, end, size)
    decreases end - at
  {
    if at < end {
      var take := PieceLength(at, end, size);
      PieceStaysInGranule(at, end, size);
      SplitRangePieces(at + take, end, size);
      var rest := SplitRange(at + take, end, size);
      assert forall i :: 0 <= i < |rest| ==> PieceOf(rest[i], at, end, size);
      assert SplitRange(at, end, size) == [ByteRange(at, take)] + rest;
    }
  }

  lemma {:induction false} SplitRangeTiles(at: u64, end: u64, size: u32, x: int)
    requires size > 0 && at <= end
    ensures Covered(SplitRange(at, end, size), x) <==> at <= x < end
    decreases end - at
  {
    if at < end {
      var take := PieceLength(at, end, size);
      SplitRangeTiles(at + take, end, size, x);
      CoveredConcat([ByteRange(at, take)], SplitRange(at + take, end, size), x);
      CoveredAppend([], ByteRange(at, take), x);
      assert [] + [ByteRange(at, take)] == [ByteRange(at, take)];
    }
  }

  lemma {:induction false} SplitRangeAscending(at: u64, end: u64, size: u32)
    requires size > 0
    ensures Ascending(SplitRange(at, end, size))
    decreases end - at
  {
    if at < end {
      var take := PieceLength(at, end, size);
      SplitRangeAscending(at + take, end, size);
      SplitRangePieces(at + take, end, size);
      var rest := SplitRange(at + take, end, size);
      AscendingConcat([ByteRange(at, take)], rest);
    }
  }

  lemma AscendingConcat(a: seq<ByteRange>, b: seq<ByteRange>)
    requires Ascending(a) && Ascending(b)
    requires forall i, j :: 0 <= i < |a| && 0 <= j < |b| ==> a[i].Limit() <= b[j].offset
    ensures Ascending(a + b)
  {
  }

  /** Every piece of the list comes from one range of it. */
  lemma {:induction false} SplitPieces(rs: seq<ByteRange>, size: u32, i: nat) returns (k: nat)
    requires Normal(rs) && size > 0 && i < |Split(rs, size)|
    ensures k < |rs| && PieceOf(Split(rs, size)[i], rs[k].offset, rs[k].Limit(), size)
  {
    var before := Split(rs[..|rs| - 1], size);
    if i < |before| {
      k := SplitPieces(rs[..|rs| - 1], size, i);
    } else {
      k := |rs| - 1;
      SplitRangePieces(rs[k].offset, rs[k].Limit(), size);
    }
  }

  /** Cutting changes nothing about which bytes are covered. */
  lemma {:induction false} SplitCover(rs: seq<ByteRange>, size: u32, x: int)
    requires Normal(rs) && size > 0
    ensures Covered(Split(rs, size), x) <==> Covered(rs, x)
  {
    if rs != [] {
      var init, last := rs[..|rs| - 1], rs[|rs| - 1];
      assert rs == init + [last];
      SplitCover(init, size, x);
      SplitRangeTiles(last.offset, last.Limit(), size, x);
      CoveredConcat(Split(init, size), SplitRange(last.offset, last.Limit(), size), x);
      CoveredAppend(init, last, x);
    }
  }

  /** The pieces come in order and never overlap. */
  lemma {:induction false} SplitAscending(rs: seq<ByteRange>, size: u32)
    requires Normal(rs) && size > 0
    ensures Ascending(Split(rs, size))
  {
    if rs != [] {
      var init, last := rs[..|rs| - 1], rs[|rs| - 1];
      var before, tail := Split(init, size), SplitRange(last.offset, last.Limit(), size);
      SplitAscending(init, size);
      SplitRangeAscending(last.offset, last.Limit(), size);
      SplitRangePieces(last.offset, last.Limit(), size);
      forall i, j | 0 <= i < |before| && 0 <= j < |tail|
        ensures before[i].Limit() <= tail[j].offset
      {
        var k := SplitPieces(init, size, i);
        assert rs[k].Limit() < last.offset;
      }
      AscendingConcat(before, tail);
    }
  }

  /** Normalising the pieces gives back the list they were cut from. */
  lemma NormalisingUndoesSplitting(rs: seq<ByteRange>, size: u32, again: seq<ByteRange>)
    requires Normal(rs) && size > 0 && IsNormalFormOf(again, Split(rs, size))
    ensures again == rs
  {
    forall x
      ensures Covered(again, x) <==> Covered(rs, x)
    {
      SplitCover(rs, size, x);
    }
    UniqueNormalForm(again, rs);
  }

  lemma AscendingIsInjective(rs: seq<ByteRange>, i: nat, j: nat)
    requires Ascending(rs) && i < |rs| && j < |rs| && rs[i] == rs[j]
    ensures i == j
  {
  }

  /**
   A granule the list covers completely is cut as exactly one whole piece,
   whatever surrounds it. This is what lets a later backup reuse the chunk.
   */
  lemma WholeGranuleIsOnePiece(rs: seq<ByteRange>, size: u32, q: nat) returns (i: nat)
    requires Normal(rs) && size > 0
    requires forall x :: size * q <= x < size * (q + 1) ==> Covered(rs, x)
    ensures var pieces := Split(rs, size);
            && i < |pieces| && pieces[i].offset == size * q && pieces[i].length == size
            && forall j :: 0 <= j < |pieces| && pieces[j] == pieces[i] ==> j == i
  {
    var pieces, start := Split(rs, size), size * q;
    assert start < size * (q + 1);
    SplitCover(rs, size, start);
    i :| 0 <= i < |pieces| && pieces[i].Has(start);
    var p := pieces[i];
    var k := SplitPieces(rs, size, i);
    InGranule(start, size, q);
    DivMonotone(p.offset, start, size);
    DivMonotone(start, p.Limit() - 1, size);
    InGranule(p.offset, size, q);
    InGranule(p.Limit() - 1, size, q);
    if p.Limit() < size * (q + 1) {
      assert p.Limit() == rs[k].Limit() by {
        DivModUnique(p.Limit(), size, q, p.Limit() - start);
      }
      LimitIsUncovered(rs, k);
      assert false;
    }
    SplitAscending(rs, size);
    forall j | 0 <= j < |pieces| && pieces[j] == p
      ensures j == i
    {
      AscendingIsInjective(pieces, i, j);
    }
  }

  // ---- growing outward -------------------------------------------------------

  /** `x` shares a granule with some covered byte. */
  ghost predicate Touched(rs: seq<ByteRange>, g: int, x: int)
    requires g > 0
  {
    exists y :: Covered(rs, y) && y / g == x / g
  }

  /** Every granule is covered completely or not at all. */
  ghost predicate Aligned(rs: seq<ByteRange>, g: int)
    requires g > 0
  {
    forall x, y :: x / g == y / g && Covered(rs, x) ==> Covered(rs, y)
  }

  ghost predicate IsAlignmentOf(out: seq<ByteRange>, rs: seq<ByteRange>, g: int)
    requires g > 0
  {
    Normal(out) && forall x :: Covered(out, x) <==> Touched(rs, g, x)
  }

  /** Growing fails exactly when the end of some range has no multiple above it in 64 bits. */
  ghost predicate CannotGrow(rs: seq<ByteRange>, g: int)
    requires g > 0
  {
    exists i :: 0 <= i < |rs| && NoMultipleAbove(rs[i].Limit(), g)
  }

  /** The least multiple at or above `limit` ends the granule of the byte before it. */
  lemma GrownEnd(limit: int, g: u64, end: int)
    requires g > 0 && end % g == 0 && limit <= end < limit + g
    ensures end == g * ((limit - 1) / g + 1)
  {
    var q, e := (limit - 1) / g, end / g;
    assert end == g * e;
    InGranule(limit - 1, g, q);
    if e <= q {
      MulMonotone(g, e, q);
    } else if e > q + 1 {
      MulMonotone(g, q + 2, e);
    }
  }

  lemma InGranules(x: int, g: u64, p: int, q: int)
    requires g > 0
    ensures g * p <= x < g * (q + 1) <==> p <= x / g <= q
  {
    var n := x / g;
    InGranule(x, g, n);
    if p <= n {
      MulMonotone(g, p, n);
    } else {
      MulMonotone(g, n + 1, p);
    }
    if n <= q {
      MulMonotone(g, n + 1, q + 1);
    } else {
      MulMonotone(g, q + 1, n);
    }
  }

  lemma GrownHas(r: ByteRange, g: u64, end: int, x: int)
    requires g > 0 && r.length > 0
    requires end % g == 0 && r.Limit() <= end < r.Limit() + g
    ensures r.offset - r.offset % g <= x < end <==> r.offset / g <= x / g <= (r.Limit() - 1) / g
  {
    GrownEnd(r.Limit(), g, end);
    assert r.offset - r.offset % g == g * (r.offset / g);
    InGranules(x, g, r.offset / g, (r.Limit() - 1) / g);
  }

  lemma GranuleMeetsRange(r: ByteRange, g: u64, x: int) returns (y: int)
    requires g > 0 && r.length > 0 && r.offset / g <= x / g <= (r.Limit() - 1) / g
    ensures r.Has(y) && y / g == x / g
  {
    var q := x / g;
    InGranule(x, g, q);
    InGranule(r.Limit() - 1, g, (r.Limit() - 1) / g);
    InGranule(r.offset, g, r.offset / g);
    if q == r.offset / g {
      y := r.offset;
    } else {
      y := g * q;
      MulMonotone(g, r.offset / g + 1, q);
      MulMonotone(g, q, (r.Limit() - 1) / g);
      InGranule(y, g, q);
    }
  }

  /** `x` shares a granule with some byte of one range. */
  ghost predicate Meets(r: ByteRange, g: int, x: int)
    requires g > 0
  {
    exists y :: r.Has(y) && y / g == x / g
  }

  /** A range grown to `[start, end)` covers the granules the range touches, and no others. */
  lemma GrownCoversTouched(r: ByteRange, g: u64, end: int, x: int)
    requires g > 0 && r.length > 0
    requires end % g == 0 && r.Limit() <= end < r.Limit() + g
    ensures r.offset - r.offset % g <= x < end <==> Meets(r, g, x)
  {
    GrownHas(r, g, end, x);
    if r.offset / g <= x / g <= (r.Limit() - 1) / g {
      var y := GranuleMeetsRange(r, g, x);
    }
    if Meets(r, g, x) {
      var y :| r.Has(y) && y / g == x / g;
      DivMonotone(r.offset, y, g);
      DivMonotone(y, r.Limit() - 1, g);
    }
  }

  lemma TouchedPrefix(rs: seq<ByteRange>, k: nat, g: int, x: int)
    requires g > 0 && k < |rs|
    ensures Touched(rs[..k + 1], g, x) <==> Touched(rs[..k], g, x) || Meets(rs[k], g, x)
  {
    assert rs[..k + 1] == rs[..k] + [rs[k]];
    if Touched(rs[..k + 1], g, x) {
      var y :| Covered(rs[..k + 1], y) && y / g == x / g;
      CoveredAppend(rs[..k], rs[k], y);
    }
    if Touched(rs[..k], g, x) {
      var y :| Covered(rs[..k], y) && y / g == x / g;
      CoveredAppend(rs[..k], rs[k], y);
    }
    if Meets(rs[k], g, x) {
      var y :| rs[k].Has(y) && y / g == x / g;
      CoveredAppend(rs[..k], rs[k], y);
    }
  }

  /** What the growing loop knows after `k` ranges. */
  ghost predicate GrownSoFar(grown: seq<ByteRange>, rs: seq<ByteRange>, k: nat, g: int)
    requires g > 0 && k <= |rs|
  {
    && (forall i :: 0 <= i < |grown| ==> grown[i].Limit() <= U64_MAX)
    && (forall i :: 0 <= i < k ==> !NoMultipleAbove(rs[i].Limit(), g))
    && forall x :: Covered(grown, x) <==> Touched(rs[..k], g, x)
  }

  lemma GrowCover(grown: seq<ByteRange>, rs: seq<ByteRange>, k: nat, g: u64, piece: ByteRange, x: int)
    requires g > 0 && k < |rs| && rs[k].length > 0
    requires Covered(grown, x) <==> Touched(rs[..k], g, x)
    requires piece.offset == rs[k].offset - rs[k].offset % g
    requires piece.Limit() % g == 0 && rs[k].Limit() <= piece.Limit() < rs[k].Limit() + g
    ensures Covered(grown + [piece], x) <==> Touched(rs[..k + 1], g, x)
  {
    CoveredAppend(grown, piece, x);
    TouchedPrefix(rs, k, g, x);
    GrownCoversTouched(rs[k], g, piece.Limit(), x);
  }

  lemma GrowStep(grown: seq<ByteRange>, rs: seq<ByteRange>, k: nat, g: u64, piece: ByteRange)
    requires g > 0 && k < |rs| && rs[k].length > 0 && GrownSoFar(grown, rs, k, g)
    requires piece.offset == rs[k].offset - rs[k].offset % g
    requires rs[k].Limit() <= U64_MAX && RoundUp(rs[k].Limit(), g) == Success(piece.Limit())
    ensures GrownSoFar(grown + [piece], rs, k + 1, g)
  {
    forall x
      ensures Covered(grown + [piece], x) <==> Touched(rs[..k + 1], g, x)
    {
      GrowCover(grown, rs, k, g, piece, x);
    }
  }

  /** Where the granule holding `x` starts. */
  function GranuleStart(x: u64, g: u64): (start: u64)
    requires g > 0
    ensures start == x - x % g && start <= x
  {
    if x < g then
      DivModUnique(x, g, 0, x);
      0
    else
      x - x % g
  }

  /** One range grown to whole granules, when its end still fits. */
  function GrowOne(r: ByteRange, g: u64): (piece: Result<ByteRange, ArithError>)
    requires g > 0 && r.Limit() <= U64_MAX
    ensures piece.Failure? <==> NoMultipleAbove(r.Limit(), g)
    ensures piece.Success? ==>
              piece.value.offset == GranuleStart(r.offset, g) && RoundUp(r.Limit(), g) == Success(piece.value.Limit())
  {
    var start := GranuleStart(r.offset, g);
    match RoundUp(r.Limit(), g)
    case Failure(e) => Failure(e)
    case Success(end) => Success(ByteRange(start, end - start))
  }

  /** Grows every range to whole granules and merges what then touches. */
  method AlignOutward(rs: ExtentList, granularity: u64) returns (r: Result<seq<ByteRange>, ArithError>)
    ensures granularity <= 1 ==> r == Success(rs)
    ensures granularity > 1 ==> (r.Failure? <==> CannotGrow(rs, granularity))
    ensures granularity > 1 && r.Success? ==> IsAlignmentOf(r.value, rs, granularity)
  {
    if granularity <= 1 {
      return Success(rs);
    }
    var grown: seq<ByteRange> := [];
    for k := 0 to |rs|
      invariant GrownSoFar(grown, rs, k, granularity)
    {
      var piece := GrowOne(rs[k], granularity);
      if piece.Failure? {
        return Failure(piece.error);
      }
      GrowStep(grown, rs, k, granularity, piece.value);
      grown := grown + [piece.value];
    }
    assert rs[..|rs|] == rs;
    r := FromUnsorted(grown);
  }

  /** The result is aligned, contains the list, and lies inside every aligned list that does. */
  lemma AlignmentIsLeast(out: seq<ByteRange>, rs: seq<ByteRange>, g: int, other: seq<ByteRange>)
    requires g > 0 && IsAlignmentOf(out, rs, g)
    ensures Aligned(out, g)
    ensures forall x :: Covered(rs, x) ==> Covered(out, x)
    ensures Aligned(other, g) && (forall x :: Covered(rs, x) ==> Covered(other, x)) ==>
              forall x :: Covered(out, x) ==> Covered(other, x)
  {
  }

  lemma AlignedEndsOnMultiple(rs: seq<ByteRange>, g: u64, k: nat)
    requires g > 0 && Normal(rs) && Aligned(rs, g) && k < |rs|
    ensures rs[k].Limit() % g == 0
  {
    var end := rs[k].Limit();
    if end % g != 0 {
      var q := end / g;
      assert end == g * q + end % g;
      InGranule(end - 1, g, q);
      assert rs[k].Has(end - 1);
      assert Covered(rs, end - 1);
      LimitIsUncovered(rs, k);
    }
  }

  /** Growing an already grown list changes nothing and cannot fail. */
  lemma AlignmentIsIdempotent(out: seq<ByteRange>, rs: seq<ByteRange>, g: u64, again: seq<ByteRange>)
    requires g > 0 && IsAlignmentOf(out, rs, g)
    ensures !CannotGrow(out, g)
    ensures IsAlignmentOf(again, out, g) ==> again == out
  {
    AlignmentIsLeast(out, rs, g, out);
    forall k | 0 <= k < |out|
      ensures !NoMultipleAbove(out[k].Limit(), g)
    {
      AlignedEndsOnMultiple(out, g, k);
    }
    if IsAlignmentOf(again, out, g) {
      forall x
        ensures Covered(again, x) <==> Covered(out, x)
      {
        assert Covered(out, x) ==> x / g == x / g;
      }
      UniqueNormalForm(again, out);
    }
  }
}
