/**
 The pieces a capture reads: the chunk grid's pieces with at most one further cut,
 where the snapshot ends and the disk takes over (crates/mjolnir-backup/src/capture.rs).
 */
module Pieces {
  import opened Arith
  import opened Extents
  import opened Splitting

  /** Ranges in order, as a copy takes them; empty ones are allowed and copy nothing. */
  ghost predicate InOrder(rs: seq<ByteRange>) {
    && (forall i :: 0 <= i < |rs| ==> rs[i].Limit() <= U64_MAX)
    && (forall i, j :: 0 <= i < j < |rs| ==> rs[i].Limit() <= rs[j].offset)
  }

  /** No range runs past what 64 bits can address. */
  predicate Fit(ps: seq<ByteRange>) {
    forall i :: 0 <= i < |ps| ==> ps[i].Limit() <= U64_MAX
  }

  /** How much the copy loop takes at `at`. */
  function Want(at: u64, end: u64, size: u32, covers: u64): (want: u64)
    requires size > 0 && at < end
    ensures 0 < want <= PieceLength(at, end, size)
    ensures at < covers ==> at + want <= covers
  {
    var take := PieceLength(at, end, size);
    if at < covers && at + take > covers then covers - at else take
  }

  function CopyRangePieces(at: u64, end: u64, size: u32, covers: u64): seq<ByteRange>
    requires size > 0
    decreases end - at
  {
    if at >= end then []
    else
      var want := Want(at, end, size, covers);
      [ByteRange(at, want)] + CopyRangePieces(at + want, end, size, covers)
  }

  /** The pieces of a whole copy, in the order they are read. */
  function CopyPieces(rs: seq<ByteRange>, size: u32, covers: u64): seq<ByteRange>
    requires size > 0 && Fit(rs)
  {
    if rs == [] then []
    else
      CopyPieces(rs[..|rs| - 1], size, covers) +
      CopyRangePieces(rs[|rs| - 1].offset, rs[|rs| - 1].Limit(), size, covers)
  }

  // ---- exactly the chunk grid with one extra cut -----------------------------------

  predicate Straddles(p: ByteRange, cut: int) {
    p.offset < cut < p.Limit()
  }

  function CutPiece(p: ByteRange, cut: u64): seq<ByteRange> {
    if Straddles(p, cut) then [ByteRange(p.offset, cut - p.offset), ByteRange(cut, p.Limit() - cut)] else [p]
  }

  /** A list of pieces with the one straddling `cut`, if any, cut in two there. */
  function CutAt(ps: seq<ByteRange>, cut: u64): seq<ByteRange> {
    if ps == [] then [] else CutAt(ps[..|ps| - 1], cut) + CutPiece(ps[|ps| - 1], cut)
  }

  lemma {:induction false} CutAtConcat(a: seq<ByteRange>, b: seq<ByteRange>, cut: u64)
    ensures CutAt(a + b, cut) == CutAt(a, cut) + CutAt(b, cut)
  {
    if b == [] {
      assert a + b == a;
    } else {
      var init, last := b[..|b| - 1], b[|b| - 1];
      CutAtConcat(a, init, cut);
      assert (a + b)[..|a + b| - 1] == a + init;
      assert CutAt(a, cut) + CutAt(init, cut) + CutPiece(last, cut) ==
             CutAt(a, cut) + (CutAt(init, cut) + CutPiece(last, cut));
    }
  }

  lemma {:induction false} CutAtOne(p: ByteRange, cut: u64)
    ensures CutAt([p], cut) == CutPiece(p, cut)
  {
  }

  lemma CutAtFirst(p: ByteRange, rest: seq<ByteRange>, cut: u64)
    ensures CutAt([p] + rest, cut) == CutPiece(p, cut) + CutAt(rest, cut)
  {
    CutAtConcat([p], rest, cut);
    CutAtOne(p, cut);
  }

  /** A piece restarted inside its granule ends where it would have ended. */
  lemma RestartEndsSame(at: u64, mid: u64, end: u64, size: u32)
    requires size > 0 && at < end && at < mid < at + PieceLength(at, end, size)
    ensures mid < end && mid + PieceLength(mid, end, size) == at + PieceLength(at, end, size)
  {
    var q := at / size;
    assert at == size * q + at % size;
    assert at + (size - at % size) == size * (q + 1);
    DivModUnique(mid, size, q, mid - size * q);
  }

  lemma SplitRangeLimits(at: u64, end: u64, size: u32)
    requires size > 0
    ensures forall i :: 0 <= i < |SplitRange(at, end, size)| ==>
              at <= SplitRange(at, end, size)[i].offset && SplitRange(at, end, size)[i].Limit() <= end
  {
    SplitRangePieces(at, end, size);
  }

  /** Past the cut, the copy takes the grid's own pieces. */
  lemma {:induction false} PastTheCut(at: u64, end: u64, size: u32, cut: u64)
    requires size > 0 && cut <= at
    ensures CopyRangePieces(at, end, size, cut) == SplitRange(at, end, size)
    decreases end - at
  {
    if at < end {
      PastTheCut(at + PieceLength(at, end, size), end, size, cut);
    }
  }

  lemma {:induction false} NothingStraddles(ps: seq<ByteRange>, cut: u64)
    requires forall i :: 0 <= i < |ps| ==> cut <= ps[i].offset || ps[i].Limit() <= cut
    ensures CutAt(ps, cut) == ps
  {
    if ps != [] {
      NothingStraddles(ps[..|ps| - 1], cut);
      assert ps == ps[..|ps| - 1] + [ps[|ps| - 1]];
    }
  }

  lemma StraddlingPieceIsCut(at: u64, end: u64, size: u32, cut: u64)
    requires size > 0 && at < end && at < cut < at + PieceLength(at, end, size)
    ensures var take := PieceLength(at, end, size);
            CopyRangePieces(at, end, size, cut) ==
            [ByteRange(at, cut - at), ByteRange(cut, at + take - cut)] + SplitRange(at + take, end, size)
  {
    var take := PieceLength(at, end, size);
    RestartEndsSame(at, cut, end, size);
    assert Want(at, end, size, cut) == cut - at;
    PastTheCut(cut, end, size, cut);
    assert SplitRange(cut, end, size) == [ByteRange(cut, at + take - cut)] + SplitRange(at + take, end, size);
  }

  lemma SplitRangeStep(at: u64, end: u64, size: u32, cut: u64)
    requires size > 0 && at < end
    ensures var take := PieceLength(at, end, size);
            var rest := SplitRange(at + take, end, size);
            CutAt(SplitRange(at, end, size), cut) == CutPiece(ByteRange(at, take), cut) + CutAt(rest, cut)
  {
    var take := PieceLength(at, end, size);
    CutAtFirst(ByteRange(at, take), SplitRange(at + take, end, size), cut);
  }

  lemma CutFallsInside(at: u64, end: u64, size: u32, cut: u64)
    requires size > 0 && at < end && at < cut < at + PieceLength(at, end, size)
    ensures CopyRangePieces(at, end, size, cut) == CutAt(SplitRange(at, end, size), cut)
  {
    var take := PieceLength(at, end, size);
    SplitRangeStep(at, end, size, cut);
    StraddlingPieceIsCut(at, end, size, cut);
    SplitRangeLimits(at + take, end, size);
    NothingStraddles(SplitRange(at + take, end, size), cut);
  }

  lemma CutFallsOutside(at: u64, end: u64, size: u32, cut: u64, copied: seq<ByteRange>)
    requires size > 0 && at < end && !(at < cut < at + PieceLength(at, end, size))
    requires copied == CopyRangePieces(at + PieceLength(at, end, size), end, size, cut)
    ensures CopyRangePieces(at, end, size, cut) == CutPiece(ByteRange(at, PieceLength(at, end, size)), cut) + copied
  {
  }

  lemma {:induction false} CopyRangeIsSplitWithCut(at: u64, end: u64, size: u32, cut: u64)
    requires size > 0
    ensures CopyRangePieces(at, end, size, cut) == CutAt(SplitRange(at, end, size), cut)
    decreases end - at
  {
    if at < end {
      var next := at + PieceLength(at, end, size);
      if at < cut < next {
        CutFallsInside(at, end, size, cut);
      } else {
        CopyRangeIsSplitWithCut(next, end, size, cut);
        SplitRangeStep(at, end, size, cut);
        CutFallsOutside(at, end, size, cut, CopyRangePieces(next, end, size, cut));
      }
    }
  }

  /** What a copy reads is exactly what `split_chunks` returns, cut once more where the source changes. */
  lemma {:induction false} CopyIsSplitWithOneCut(rs: seq<ByteRange>, size: u32, cut: u64)
    requires size > 0 && Fit(rs)
    ensures CopyPieces(rs, size, cut) == CutAt(Split(rs, size), cut)
  {
    if rs != [] {
      var init, last := rs[..|rs| - 1], rs[|rs| - 1];
      CopyIsSplitWithOneCut(init, size, cut);
      CopyRangeIsSplitWithCut(last.offset, last.Limit(), size, cut);
      CutAtConcat(Split(init, size), SplitRange(last.offset, last.Limit(), size), cut);
    }
  }

  /** At most one piece is cut, so a copy makes at most one piece more than the grid. */
  lemma {:induction false} AtMostOneCut(ps: seq<ByteRange>, cut: u64)
    requires Ascending(ps)
    ensures |ps| <= |CutAt(ps, cut)| <= |ps| + 1
  {
    if ps != [] {
      var init, last := ps[..|ps| - 1], ps[|ps| - 1];
      if Straddles(last, cut) {
        forall i | 0 <= i < |init|
          ensures init[i].Limit() <= cut
        {
          assert ps[i].Limit() <= last.offset;
        }
        NothingStraddles(init, cut);
      } else {
        AtMostOneCut(init, cut);
      }
    }
  }

  // ---- what the pieces cover, and how much ------------------------------------------

  lemma {:induction false} CopyRangeTiles(at: u64, end: u64, size: u32, covers: u64, x: int)
    requires size > 0 && at <= end
    ensures Covered(CopyRangePieces(at, end, size, covers), x) <==> at <= x < end
    decreases end - at
  {
    if at < end {
      var want := Want(at, end, size, covers);
      CopyRangeTiles(at + want, end, size, covers, x);
      CoveredConcat([ByteRange(at, want)], CopyRangePieces(at + want, end, size, covers), x);
      CoveredAppend([], ByteRange(at, want), x);
      assert [] + [ByteRange(at, want)] == [ByteRange(at, want)];
    }
  }

  /** The pieces cover exactly the bytes of the ranges. */
  lemma {:induction false} CopyPiecesCover(rs: seq<ByteRange>, size: u32, covers: u64, x: int)
    requires size > 0 && Fit(rs)
    ensures Covered(CopyPieces(rs, size, covers), x) <==> Covered(rs, x)
  {
    if rs != [] {
      var init, last := rs[..|rs| - 1], rs[|rs| - 1];
      assert rs == init + [last];
      CopyPiecesCover(init, size, covers, x);
      CopyRangeTiles(last.offset, last.Limit(), size, covers, x);
      CoveredConcat(CopyPieces(init, size, covers), CopyRangePieces(last.offset, last.Limit(), size, covers), x);
      CoveredAppend(init, last, x);
    }
  }

  lemma {:induction false} SumLengthsConcat(a: seq<ByteRange>, b: seq<ByteRange>)
    ensures SumLengths(a + b) == SumLengths(a) + SumLengths(b)
  {
    if b == [] {
      assert a + b == a;
    } else {
      SumLengthsConcat(a, b[..|b| - 1]);
      assert (a + b)[..|a + b| - 1] == a + b[..|b| - 1];
    }
  }

  lemma {:induction false} CopyRangeSum(at: u64, end: u64, size: u32, covers: u64)
    requires size > 0 && at <= end
    ensures SumLengths(CopyRangePieces(at, end, size, covers)) == end - at
    decreases end - at
  {
    if at < end {
      var want := Want(at, end, size, covers);
      CopyRangeSum(at + want, end, size, covers);
      SumLengthsConcat([ByteRange(at, want)], CopyRangePieces(at + want, end, size, covers));
      assert [ByteRange(at, want)][..0] == [];
      assert SumLengths([ByteRange(at, want)]) == want;
    }
  }

  /** The pieces hold as many bytes as the ranges. */
  lemma {:induction false} CopyPiecesSum(rs: seq<ByteRange>, size: u32, covers: u64)
    requires size > 0 && Fit(rs)
    ensures SumLengths(CopyPieces(rs, size, covers)) == SumLengths(rs)
  {
    if rs != [] {
      var init, last := rs[..|rs| - 1], rs[|rs| - 1];
      CopyPiecesSum(init, size, covers);
      CopyRangeSum(last.offset, last.Limit(), size, covers);
      SumLengthsConcat(CopyPieces(init, size, covers), CopyRangePieces(last.offset, last.Limit(), size, covers));
    }
  }

  // ---- a region copied from its start ------------------------------------------------

  /** A whole region cut into chunks: piece `i` starts at `i * size`, and only the last may be short. */
  function GridPiece(i: nat, length: u64, size: u32): ByteRange
    requires i * size < length
  {
    ByteRange(i * size, Min(size, length - i * size))
  }

  ghost predicate GridUpTo(ps: seq<ByteRange>, done: int, length: u64, size: u32) {
    && done == Min(|ps| * size, length)
    && (forall i :: 0 <= i < |ps| ==> i * size < length && ps[i] == GridPiece(i, length, size))
    && SumLengths(ps) == done
  }

  lemma GridStep(ps: seq<ByteRange>, done: u64, length: u64, size: u32)
    requires GridUpTo(ps, done, length, size) && done < length
    ensures done == |ps| * size
    ensures GridUpTo(ps + [GridPiece(|ps|, length, size)], done + Min(size, length - done), length, size)
  {
  }

  /** The grid over a region is what `split_chunks` makes of it. */
  lemma {:induction false} GridIsSplitFrom(ps: seq<ByteRange>, length: u64, size: u32, k: nat)
    requires size > 0 && GridUpTo(ps, length, length, size) && k <= |ps|
    ensures k * size >= length ==> k == |ps|
    ensures k < |ps| ==> SplitRange(k * size, length, size) == ps[k..]
    decreases |ps| - k
  {
    if k < |ps| {
      MultipleModZero(k, size);
      assert (k + 1) * size == k * size + size;
      GridIsSplitFrom(ps, length, size, k + 1);
      assert PieceLength(k * size, length, size) == ps[k].length;
      assert ps[k..] == [ps[k]] + ps[k + 1..];
    }
  }

  lemma GridIsSplit(ps: seq<ByteRange>, length: u64, size: u32)
    requires size > 0 && GridUpTo(ps, length, length, size)
    ensures ps == Split([ByteRange(0, length)], size)
  {
    assert [ByteRange(0, length)][..0] == [];
    assert 0 * size == 0;
    GridIsSplitFrom(ps, length, size, 0);
    if ps != [] {
      assert ps[0..] == ps;
    }
  }
}
