/**
 Clamping an extent list, finding its gaps, and looking an offset up in it
 (crates/mjolnir-core/src/extents.rs).
 */
module ExtentOps {
  import opened Arith
  import opened Extents

  // ---- clamping and gaps -----------------------------------------------------

  ghost predicate IsClampOf(out: seq<ByteRange>, rs: seq<ByteRange>, limit: int) {
    Normal(out) && forall x :: Covered(out, x) <==> Covered(rs, x) && x < limit
  }

  ghost predicate IsGapsOf(out: seq<ByteRange>, rs: seq<ByteRange>, limit: int) {
    Normal(out) && forall x :: Covered(out, x) <==> 0 <= x < limit && !Covered(rs, x)
  }

  lemma CoveredPrefix(rs: seq<ByteRange>, k: nat, x: int)
    requires k < |rs|
    ensures Covered(rs[..k + 1], x) <==> Covered(rs[..k], x) || rs[k].Has(x)
  {
  }

  /** Past the limit of its first `k` ranges, a list only covers what the rest covers. */
  lemma CoveredBeyond(rs: seq<ByteRange>, k: nat, x: int)
    requires Ascending(rs) && k <= |rs|
    requires k < |rs| ==> x < rs[k].offset
    ensures Covered(rs, x) <==> Covered(rs[..k], x)
  {
  }

  /** Drops everything at or beyond `limit`, cutting a range that straddles it. */
  method ClampTo(rs: ExtentList, limit: u64) returns (r: Result<seq<ByteRange>, ArithError>)
    ensures r.Success? && IsClampOf(r.value, rs, limit)
  {
    var out: seq<ByteRange> := [];
    var k := 0;
    while k < |rs|
      invariant 0 <= k <= |rs|
      invariant Normal(out)
      invariant out != [] ==> k > 0 && out[|out| - 1].Limit() <= rs[k - 1].Limit()
      invariant forall x :: Covered(out, x) <==> Covered(rs[..k], x) && x < limit
    {
      if rs[k].offset >= limit {
        break;
      }
      var cut := ByteRange(rs[k].offset, Min(rs[k].Limit(), limit) - rs[k].offset);
      forall x
        ensures Covered(out + [cut], x) <==> Covered(rs[..k + 1], x) && x < limit
      {
        CoveredAppend(out, cut, x);
        CoveredPrefix(rs, k, x);
      }
      assert k > 0 ==> rs[k - 1].Limit() <= rs[k].offset;
      out := out + [cut];
      k := k + 1;
    }
    forall x
      ensures Covered(out, x) <==> Covered(rs, x) && x < limit
    {
      if x < limit {
        CoveredBeyond(rs, k, x);
      }
    }
    r := Success(out);
  }

  /** `gaps` with `[from, to)` added, when that holds a byte. */
  function WithGap(gaps: seq<ByteRange>, from: u64, to: u64): seq<ByteRange> {
    if from < to then gaps + [ByteRange(from, to - from)] else gaps
  }

  lemma WithGapFacts(gaps: seq<ByteRange>, from: u64, to: u64)
    requires Normal(gaps) && (gaps != [] ==> gaps[|gaps| - 1].Limit() < from)
    ensures Normal(WithGap(gaps, from, to))
    ensures forall x :: Covered(WithGap(gaps, from, to), x) <==> Covered(gaps, x) || from <= x < to
  {
    if from < to {
      forall x
        ensures Covered(WithGap(gaps, from, to), x) <==> Covered(gaps, x) || from <= x < to
      {
        CoveredAppend(gaps, ByteRange(from, to - from), x);
      }
    }
  }

  function CursorAfter(rs: seq<ByteRange>, k: nat): int
    requires k <= |rs|
  {
    if k == 0 then 0 else rs[k - 1].Limit()
  }

  /** What the loop knows after `k` ranges: every gap below the cursor has been listed. */
  ghost predicate GapsSoFar(gaps: seq<ByteRange>, rs: seq<ByteRange>, k: nat, limit: int)
    requires k <= |rs|
  {
    && Normal(gaps)
    && (gaps != [] ==> gaps[|gaps| - 1].Limit() < CursorAfter(rs, k))
    && forall x :: Covered(gaps, x) <==> 0 <= x < CursorAfter(rs, k) && x < limit && !Covered(rs[..k], x)
  }

  /** The ranges inside `[0, limit)` that the list does not cover. */
  method GapsWithin(rs: ExtentList, limit: u64) returns (r: Result<seq<ByteRange>, ArithError>)
    ensures r.Success? && IsGapsOf(r.value, rs, limit)
  {
    var gaps: seq<ByteRange> := [];
    var cursor: u64 := 0;
    var k := 0;
    while k < |rs|
      invariant 0 <= k <= |rs|
      invariant cursor == CursorAfter(rs, k)
      invariant GapsSoFar(gaps, rs, k, limit)
    {
      if rs[k].offset >= limit {
        break;
      }
      GapStep(gaps, rs, k, limit);
      ghost var next := WithGap(gaps, cursor, rs[k].offset);
      if rs[k].offset > cursor {
        gaps := gaps + [ByteRange(cursor, rs[k].offset - cursor)];
      }
      assert gaps == next;
      cursor := Max(cursor, rs[k].Limit());
      k := k + 1;
    }
    GapsFinish(gaps, rs, k, limit);
    if cursor < limit {
      gaps := gaps + [ByteRange(cursor, limit - cursor)];
    }
    r := Success(gaps);
  }

  lemma NothingBeyondCursor(rs: seq<ByteRange>, k: nat, x: int)
    requires Ascending(rs) && k <= |rs| && x >= CursorAfter(rs, k)
    ensures !Covered(rs[..k], x)
  {
  }

  lemma GapStep(gaps: seq<ByteRange>, rs: seq<ByteRange>, k: nat, limit: u64)
    requires Ascending(rs) && k < |rs| && rs[k].offset < limit
    requires GapsSoFar(gaps, rs, k, limit)
    ensures CursorAfter(rs, k) <= rs[k].offset
    ensures GapsSoFar(WithGap(gaps, CursorAfter(rs, k), rs[k].offset), rs, k + 1, limit)
  {
    var cursor := CursorAfter(rs, k);
    var next := WithGap(gaps, cursor, rs[k].offset);
    assert k > 0 ==> rs[k - 1].Limit() <= rs[k].offset;
    WithGapFacts(gaps, cursor, rs[k].offset);
    forall x
      ensures Covered(next, x) <==> 0 <= x < rs[k].Limit() && x < limit && !Covered(rs[..k + 1], x)
    {
      CoveredPrefix(rs, k, x);
      if x >= cursor {
        NothingBeyondCursor(rs, k, x);
      }
    }
  }

  lemma GapsFinish(gaps: seq<ByteRange>, rs: seq<ByteRange>, k: nat, limit: u64)
    requires Ascending(rs) && k <= |rs| && (k < |rs| ==> rs[k].offset >= limit)
    requires GapsSoFar(gaps, rs, k, limit)
    ensures IsGapsOf(WithGap(gaps, CursorAfter(rs, k), limit), rs, limit)
  {
    var cursor := CursorAfter(rs, k);
    var all := WithGap(gaps, cursor, limit);
    WithGapFacts(gaps, cursor, limit);
    forall x
      ensures Covered(all, x) <==> 0 <= x < limit && !Covered(rs, x)
    {
      if x < limit {
        CoveredBeyond(rs, k, x);
        if x >= cursor {
          NothingBeyondCursor(rs, k, x);
        }
      }
    }
  }

  /** Taking gaps twice gives back exactly the clamped list. */
  lemma GapsTwiceIsClamp(rs: seq<ByteRange>, limit: int, gaps: seq<ByteRange>, again: seq<ByteRange>,
      clamped: seq<ByteRange>)
    requires Normal(rs)
    requires IsGapsOf(gaps, rs, limit) && IsGapsOf(again, gaps, limit) && IsClampOf(clamped, rs, limit)
    ensures again == clamped
  {
    forall x
      ensures Covered(again, x) <==> Covered(clamped, x)
    {
      if Covered(rs, x) {
        var i :| 0 <= i < |rs| && rs[i].Has(x);
        assert 0 <= x;
      }
    }
    UniqueNormalForm(again, clamped);
  }

  /** Gaps and clamped ranges share no byte and between them account for every byte below the limit. */
  lemma GapsAndClampPartition(rs: seq<ByteRange>, limit: u64, gaps: seq<ByteRange>, clamped: seq<ByteRange>)
    requires Normal(rs) && IsGapsOf(gaps, rs, limit) && IsClampOf(clamped, rs, limit)
    ensures forall x :: 0 <= x < limit ==> (Covered(gaps, x) <==> !Covered(clamped, x))
    ensures SumLengths(gaps) + SumLengths(clamped) == limit
  {
    NormalIsAscending(gaps);
    NormalIsAscending(clamped);
    SumCountsBytes(gaps);
    SumCountsBytes(clamped);
    SpanSize(0, limit);
    forall x: int
      ensures x in CoveredBytes(gaps) + CoveredBytes(clamped) <==> x in Span(0, limit)
    {
      if Covered(clamped, x) {
        var i :| 0 <= i < |clamped| && clamped[i].Has(x);
        assert 0 <= x;
      }
      if x in Span(0, limit) {
        assert Covered(gaps, x) || Covered(clamped, x);
      }
    }
    assert CoveredBytes(gaps) + CoveredBytes(clamped) == Span(0, limit);
    assert CoveredBytes(gaps) !! CoveredBytes(clamped);
  }

  // ---- lookup by binary search -----------------------------------------------

  /** Where `offset` stands relative to one range. */
  datatype Ordering = Less | Equal | Greater

  function CompareRange(r: ByteRange, offset: u64): Ordering {
    if offset < r.offset then Greater
    else
      match r.End()
      case Failure(_) => Less
      case Success(end) => if offset >= end then Less else Equal
  }

  /** Binary search over `rs[lo..hi]`, halving the interval each time. */
  function Search(rs: seq<ByteRange>, offset: u64, lo: nat, hi: nat): (found: bool)
    requires Normal(rs) && lo <= hi <= |rs|
    ensures found <==> exists i :: lo <= i < hi && rs[i].Has(offset)
    decreases hi - lo
  {
    if lo == hi then false
    else
      var mid := lo + (hi - lo) / 2;
      match CompareRange(rs[mid], offset)
      case Equal => assert rs[mid].Has(offset); true
      case Less => Search(rs, offset, mid + 1, hi)
      case Greater => Search(rs, offset, lo, mid)
  }

  function Contains(rs: ExtentList, offset: u64): (found: bool)
    ensures found <==> Covered(rs, offset)
  {
    Search(rs, offset, 0, |rs|)
  }
}
