/**
 Sorted, merged, non overlapping byte ranges (crates/mjolnir-core/src/extents.rs).

 A list of ranges means the set of bytes it covers. The operations below are the
 program's loops; each is specified by what it does to that set, and the normal
 form is shown to be the only list with a given meaning.
 */
module Extents {
  import opened Arith
  import opened Sorting

  datatype ByteRange = ByteRange(offset: u64, length: u64) {
    function End(): Result<u64, ArithError> {
      RangeEnd(offset, length)
    }

    /** One past the last byte, as a number that may not fit 64 bits. */
    function Limit(): int {
      offset + length
    }

    predicate Has(x: int) {
      InRange(offset, length, x)
    }
  }

  ghost predicate Covered(rs: seq<ByteRange>, x: int) {
    exists i :: 0 <= i < |rs| && rs[i].Has(x)
  }

  ghost predicate SameCover(a: seq<ByteRange>, b: seq<ByteRange>) {
    forall x :: Covered(a, x) <==> Covered(b, x)
  }

  /** Non empty ranges in ascending order that may touch but never overlap. */
  ghost predicate Ascending(rs: seq<ByteRange>) {
    && (forall i :: 0 <= i < |rs| ==> rs[i].length > 0 && rs[i].Limit() <= U64_MAX)
    && (forall i, j :: 0 <= i < j < |rs| ==> rs[i].Limit() <= rs[j].offset)
  }

  /** The invariant of an extent list: ascending, and no two ranges touch. */
  ghost predicate Normal(rs: seq<ByteRange>) {
    && (forall i :: 0 <= i < |rs| ==> rs[i].length > 0 && rs[i].Limit() <= U64_MAX)
    && (forall i, j :: 0 <= i < j < |rs| ==> rs[i].Limit() < rs[j].offset)
  }

  type ExtentList = rs: seq<ByteRange> | Normal(rs) ghost witness []

  // ---- coverage of composed lists -------------------------------------------

  lemma CoveredAppend(rs: seq<ByteRange>, r: ByteRange, x: int)
    ensures Covered(rs + [r], x) <==> Covered(rs, x) || r.Has(x)
  {
    var all := rs + [r];
    if Covered(rs, x) {
      var i :| 0 <= i < |rs| && rs[i].Has(x);
      assert all[i].Has(x);
    }
    if r.Has(x) {
      assert all[|rs|].Has(x);
    }
  }

  lemma CoveredConcat(a: seq<ByteRange>, b: seq<ByteRange>, x: int)
    ensures Covered(a + b, x) <==> Covered(a, x) || Covered(b, x)
  {
    var all := a + b;
    if Covered(a, x) {
      var i :| 0 <= i < |a| && a[i].Has(x);
      assert all[i].Has(x);
    }
    if Covered(b, x) {
      var i :| 0 <= i < |b| && b[i].Has(x);
      assert all[|a| + i].Has(x);
    }
  }

  lemma CoveredByMembers(a: seq<ByteRange>, b: seq<ByteRange>)
    requires forall r: ByteRange :: r.length > 0 ==> (r in a <==> r in b)
    ensures SameCover(a, b)
  {
  }

  // ---- the unique normal form ------------------------------------------------

  lemma FirstIsLeast(rs: seq<ByteRange>, x: int)
    requires Normal(rs) && Covered(rs, x)
    ensures rs != [] && rs[0].offset <= x && Covered(rs, rs[0].offset)
  {
  }

  lemma LimitIsUncovered(rs: seq<ByteRange>, k: nat)
    requires Normal(rs) && k < |rs|
    ensures !Covered(rs, rs[k].Limit())
  {
  }

  lemma CoveredTail(rs: seq<ByteRange>, x: int)
    requires Normal(rs) && rs != []
    ensures Covered(rs[1..], x) <==> Covered(rs, x) && x >= rs[0].Limit()
  {
  }

  lemma FirstRangesAgree(a: seq<ByteRange>, b: seq<ByteRange>)
    requires Normal(a) && Normal(b) && SameCover(a, b) && a != [] && b != []
    ensures a[0] == b[0]
  {
    assert a[0].Has(a[0].offset) && b[0].Has(b[0].offset);
    FirstIsLeast(a, b[0].offset);
    FirstIsLeast(b, a[0].offset);
    LimitIsUncovered(a, 0);
    LimitIsUncovered(b, 0);
    assert !b[0].Has(a[0].Limit());
    assert !a[0].Has(b[0].Limit());
  }

  lemma TailsAgree(a: seq<ByteRange>, b: seq<ByteRange>)
    requires Normal(a) && Normal(b) && SameCover(a, b) && a != [] && b != [] && a[0] == b[0]
    ensures SameCover(a[1..], b[1..])
  {
    forall x
      ensures Covered(a[1..], x) <==> Covered(b[1..], x)
    {
      CoveredTail(a, x);
      CoveredTail(b, x);
    }
  }

  lemma NonEmptyCoversFirst(rs: seq<ByteRange>)
    requires Normal(rs) && rs != []
    ensures Covered(rs, rs[0].offset)
  {
  }

  lemma ConsEqual<T>(a: seq<T>, b: seq<T>)
    requires a != [] && b != [] && a[0] == b[0] && a[1..] == b[1..]
    ensures a == b
  {
  }

  /** A set of bytes has exactly one normal form. */
  lemma {:induction false} UniqueNormalForm(a: seq<ByteRange>, b: seq<ByteRange>)
    requires Normal(a) && Normal(b) && SameCover(a, b)
    ensures a == b
  {
    if a == [] && b != [] {
      NonEmptyCoversFirst(b);
    } else if a != [] && b == [] {
      NonEmptyCoversFirst(a);
    } else if a != [] {
      FirstRangesAgree(a, b);
      TailsAgree(a, b);
      UniqueNormalForm(a[1..], b[1..]);
      ConsEqual(a, b);
    }
  }

  /** `out` is what normalising `input` has to produce. */
  ghost predicate IsNormalFormOf(out: seq<ByteRange>, input: seq<ByteRange>) {
    Normal(out) && SameCover(out, input)
  }

  /** Inputs covering the same bytes normalise to equal lists, and only those do. */
  lemma EqualCoverageIffEqualLists(a: seq<ByteRange>, b: seq<ByteRange>, na: seq<ByteRange>, nb: seq<ByteRange>)
    requires IsNormalFormOf(na, a) && IsNormalFormOf(nb, b)
    ensures SameCover(a, b) <==> na == nb
  {
    if SameCover(a, b) {
      assert SameCover(na, nb);
      UniqueNormalForm(na, nb);
    }
    if na == nb {
      assert forall x :: Covered(a, x) <==> Covered(na, x);
    }
  }

  // ---- building a list -------------------------------------------------------

  function RangeKey(r: ByteRange): Key {
    (r.offset, r.length)
  }

  function NonEmpty(rs: seq<ByteRange>): (kept: seq<ByteRange>)
    ensures forall r :: r in kept <==> r in rs && r.length > 0
  {
    if rs == [] then []
    else if rs[0].length > 0 then [rs[0]] + NonEmpty(rs[1..])
    else NonEmpty(rs[1..])
  }

  /** Some range that covers anything runs past what 64 bits can address. */
  ghost predicate SomeOverflow(rs: seq<ByteRange>) {
    exists r :: r in rs && r.length > 0 && r.Limit() > U64_MAX
  }

  predicate Reaches(ranges: seq<ByteRange>, r: ByteRange) {
    ranges != [] && r.offset <= ranges[|ranges| - 1].Limit()
  }

  /** One step of merging: grow the last range, or start a new one. */
  function Merged(ranges: seq<ByteRange>, r: ByteRange): seq<ByteRange>
    requires Reaches(ranges, r) ==>
               ranges[|ranges| - 1].offset <= r.offset && ranges[|ranges| - 1].Limit() <= U64_MAX
    requires r.Limit() <= U64_MAX
  {
    if Reaches(ranges, r) then
      var last := ranges[|ranges| - 1];
      ranges[..|ranges| - 1] + [ByteRange(last.offset, Max(last.Limit(), r.Limit()) - last.offset)]
    else ranges + [r]
  }

  lemma MergedNormal(ranges: seq<ByteRange>, r: ByteRange)
    requires Normal(ranges) && r.length > 0 && r.Limit() <= U64_MAX
    requires ranges != [] ==> ranges[|ranges| - 1].offset <= r.offset
    ensures Normal(Merged(ranges, r)) && Merged(ranges, r) != []
    ensures var m := Merged(ranges, r); m[|m| - 1].offset <= r.offset
  {
  }

  lemma MergedCover(ranges: seq<ByteRange>, r: ByteRange, x: int)
    requires Normal(ranges) && r.length > 0 && r.Limit() <= U64_MAX
    requires ranges != [] ==> ranges[|ranges| - 1].offset <= r.offset
    ensures Covered(Merged(ranges, r), x) <==> Covered(ranges, x) || r.Has(x)
  {
    if Reaches(ranges, r) {
      var init, last := ranges[..|ranges| - 1], ranges[|ranges| - 1];
      assert ranges == init + [last];
      CoveredAppend(init, last, x);
      CoveredAppend(init, ByteRange(last.offset, Max(last.Limit(), r.Limit()) - last.offset), x);
    } else {
      CoveredAppend(ranges, r, x);
    }
  }

  lemma MergeKeepsCover(ranges: seq<ByteRange>, done: seq<ByteRange>, r: ByteRange)
    requires IsNormalFormOf(ranges, done) && r.length > 0 && r.Limit() <= U64_MAX
    requires ranges != [] ==> ranges[|ranges| - 1].offset <= r.offset
    ensures IsNormalFormOf(Merged(ranges, r), done + [r])
  {
    MergedNormal(ranges, r);
    forall x
      ensures Covered(Merged(ranges, r), x) <==> Covered(done + [r], x)
    {
      CoveredAppend(done, r, x);
      MergedCover(ranges, r, x);
    }
  }

  /**
   Drops empty ranges, sorts, and merges what overlaps or touches.

   Fails exactly when a non empty input range overflows.
   */
  method FromUnsorted(input: seq<ByteRange>) returns (r: Result<seq<ByteRange>, ArithError>)
    ensures r.Failure? <==> SomeOverflow(input)
    ensures r.Success? ==> IsNormalFormOf(r.value, input)
  {
    var kept := NonEmpty(input);
    for k := 0 to |kept|
      invariant forall i :: 0 <= i < k ==> kept[i].Limit() <= U64_MAX
    {
      var end := kept[k].End();
      if end.Failure? {
        assert kept[k] in kept;
        return Failure(end.error);
      }
    }
    var sorted := SortByKey(kept, RangeKey);
    SortByKeyFacts(kept, RangeKey);
    assert forall i :: 0 <= i < |sorted| ==> sorted[i] in kept;
    var ranges := MergeSorted(sorted);
    CoveredByMembers(sorted, input);
    r := Success(ranges);
  }

  /** The merging loop: the last range of the result is the only one still growing. */
  method MergeSorted(sorted: seq<ByteRange>) returns (ranges: seq<ByteRange>)
    requires Ordered(sorted, RangeKey)
    requires forall i :: 0 <= i < |sorted| ==> sorted[i].length > 0 && sorted[i].Limit() <= U64_MAX
    ensures IsNormalFormOf(ranges, sorted)
  {
    ranges := [];
    for k := 0 to |sorted|
      invariant ranges != [] ==> k > 0 && ranges[|ranges| - 1].offset <= sorted[k - 1].offset
      invariant IsNormalFormOf(ranges, sorted[..k])
    {
      var r := sorted[k];
      assert k > 0 ==> KeyLeq(RangeKey(sorted[k - 1]), RangeKey(sorted[k]));
      MergedNormal(ranges, r);
      MergeKeepsCover(ranges, sorted[..k], r);
      ghost var next := Merged(ranges, r);
      if Reaches(ranges, r) {
        var last := ranges[|ranges| - 1];
        if r.Limit() > last.Limit() {
          ranges := ranges[|ranges| - 1 := ByteRange(last.offset, r.Limit() - last.offset)];
        }
      } else {
        ranges := ranges + [r];
      }
      assert ranges == next;
      assert sorted[..k + 1] == sorted[..k] + [r];
    }
    assert sorted[..|sorted|] == sorted;
  }

  // ---- how much is covered ---------------------------------------------------

  function SumLengths(rs: seq<ByteRange>): nat {
    if rs == [] then 0 else SumLengths(rs[..|rs| - 1]) + rs[|rs| - 1].length
  }

  ghost function Span(lo: int, hi: int): set<int> {
    set x: int {:trigger InRange(lo, hi - lo, x)} | lo <= x < hi && InRange(lo, hi - lo, x)
  }

  lemma {:induction false} SpanSize(lo: int, hi: int)
    requires lo <= hi
    ensures |Span(lo, hi)| == hi - lo
    decreases hi - lo
  {
    if lo < hi {
      SpanSize(lo, hi - 1);
      assert Span(lo, hi) == Span(lo, hi - 1) + {hi - 1};
    } else {
      assert Span(lo, hi) == {};
    }
  }

  /** The bytes a list covers, as a set. */
  ghost function CoveredBytes(rs: seq<ByteRange>): set<int> {
    set x: int | 0 <= x <= U64_MAX && Covered(rs, x)
  }

  lemma CoveredBytesSnoc(init: seq<ByteRange>, last: ByteRange)
    requires Ascending(init + [last])
    ensures |CoveredBytes(init + [last])| == |CoveredBytes(init)| + last.length
  {
    var rs, span := init + [last], Span(last.offset, last.Limit());
    assert last.Limit() <= U64_MAX by {
      assert rs[|init|] == last;
    }
    SpanSize(last.offset, last.Limit());
    forall x: int
      ensures x in CoveredBytes(rs) <==> x in CoveredBytes(init) + span
    {
      CoveredAppend(init, last, x);
    }
    assert CoveredBytes(rs) == CoveredBytes(init) + span;
    forall x | x in CoveredBytes(init)
      ensures x !in span
    {
      var i :| 0 <= i < |init| && init[i].Has(x);
      assert rs[i].Limit() <= rs[|init|].offset;
    }
    assert CoveredBytes(init) !! span;
  }

  lemma {:induction false} SumBelowLimit(rs: seq<ByteRange>)
    requires Ascending(rs)
    ensures SumLengths(rs) <= if rs == [] then 0 else rs[|rs| - 1].Limit()
  {
    if |rs| > 1 {
      assert rs[|rs| - 2].Limit() <= rs[|rs| - 1].offset;
      SumBelowLimit(rs[..|rs| - 1]);
    }
  }

  /** The sum of the lengths is the exact number of covered bytes, so it cannot overflow. */
  lemma {:induction false} SumCountsBytes(rs: seq<ByteRange>)
    requires Ascending(rs)
    ensures SumLengths(rs) == |CoveredBytes(rs)|
  {
    if rs == [] {
      assert CoveredBytes(rs) == {};
    } else {
      var init := rs[..|rs| - 1];
      assert rs == init + [rs[|rs| - 1]];
      SumCountsBytes(init);
      CoveredBytesSnoc(init, rs[|rs| - 1]);
    }
  }

  lemma NormalIsAscending(rs: seq<ByteRange>)
    requires Normal(rs)
    ensures Ascending(rs)
  {
  }

  method TotalBytes(rs: ExtentList) returns (r: Result<u64, ArithError>)
    ensures r == Success(|CoveredBytes(rs)|)
  {
    NormalIsAscending(rs);
    SumCountsBytes(rs);
    var total: u64 := 0;
    for k := 0 to |rs|
      invariant total == SumLengths(rs[..k])
    {
      assert rs[..k + 1][..k] == rs[..k];
      SumBelowLimit(rs[..k + 1]);
      var sum := AddU64(total, rs[k].length);
      if sum.Failure? {
        assert false;
      }
      total := sum.value;
    }
    assert rs[..|rs|] == rs;
    r := Success(total);
  }

  lemma FullSetIsSpan(rs: seq<ByteRange>, limit: u64)
    requires forall i :: 0 <= i < |rs| ==> rs[i].Limit() <= limit
    ensures CoveredBytes(rs) <= Span(0, limit)
    ensures CoveredBytes(rs) == Span(0, limit) <==> forall x :: 0 <= x < limit ==> Covered(rs, x)
  {
    var all := Span(0, limit);
    assert CoveredBytes(rs) <= all;
    if CoveredBytes(rs) == all {
      forall x | 0 <= x < limit
        ensures Covered(rs, x)
      {
        assert x in all;
      }
    }
  }

  lemma SubsetOfEqualSize(a: set<int>, b: set<int>)
    requires a <= b
    ensures |a| <= |b|
    ensures |a| == |b| <==> a == b
  {
    var rest := b - a;
    assert b == a + rest;
    assert rest == {} <==> a == b;
  }

  /** Ranges inside `[0, limit)` whose lengths add up to `limit` leave no byte out. */
  lemma FullSumLeavesNoGap(rs: seq<ByteRange>, limit: u64)
    requires Ascending(rs)
    requires forall i :: 0 <= i < |rs| ==> rs[i].Limit() <= limit
    ensures SumLengths(rs) <= limit
    ensures SumLengths(rs) == limit <==> forall x :: 0 <= x < limit ==> Covered(rs, x)
  {
    SumCountsBytes(rs);
    SpanSize(0, limit);
    FullSetIsSpan(rs, limit);
    SubsetOfEqualSize(CoveredBytes(rs), Span(0, limit));
  }
}
