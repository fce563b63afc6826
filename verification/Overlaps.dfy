/**
 Finding overlaps by sorting and comparing neighbours only
 (crates/mjolnir-image/src/verify.rs, crates/mjolnir-image/src/disk_layout.rs).
 */
module Overlaps {
  import opened Arith
  import opened Sorting
  import opened Extents

  predicate Clear(a: ByteRange, b: ByteRange) {
    a.length == 0 || b.length == 0 || a.Limit() <= b.offset || b.Limit() <= a.offset
  }

  lemma ClearIsNoSharedByte(a: ByteRange, b: ByteRange)
    ensures Clear(a, b) <==> !exists x :: a.Has(x) && b.Has(x)
  {
    if !Clear(a, b) {
      var x := Max(a.offset, b.offset);
      assert a.Has(x) && b.Has(x);
    }
  }

  /** No two of the ranges share a byte. */
  ghost predicate Disjoint(rs: seq<ByteRange>) {
    Pairwise(rs, Clear)
  }

  /** No range is found to overlap the one next to it. */
  ghost predicate AdjacentClear(rs: seq<ByteRange>) {
    forall i :: 1 <= i < |rs| ==> NeighboursClear(rs[i - 1], rs[i])
  }

  predicate NeighboursClear(a: ByteRange, b: ByteRange) {
    RangesOverlap(a.offset, a.length, b.offset, b.length) == Success(false)
  }

  ghost predicate AllEndsFit(rs: seq<ByteRange>) {
    forall i :: 0 <= i < |rs| ==> rs[i].Limit() <= U64_MAX
  }

  ghost predicate NoneEmpty(rs: seq<ByteRange>) {
    forall i :: 0 <= i < |rs| ==> rs[i].length > 0
  }

  /** Compares each range with the one after it. */
  method CheckAdjacent(rs: seq<ByteRange>) returns (findings: nat)
    ensures findings == 0 <==> AdjacentClear(rs)
  {
    findings := 0;
    var k := 1;
    while k < |rs|
      invariant 1 <= k
      invariant findings == 0 <==> forall i :: 1 <= i < k && i < |rs| ==> NeighboursClear(rs[i - 1], rs[i])
    {
      var a, b := rs[k - 1], rs[k];
      var overlap := RangesOverlap(a.offset, a.length, b.offset, b.length);
      if overlap.Failure? || overlap.value {
        findings := findings + 1;
      }
      k := k + 1;
    }
  }

  lemma NeighboursMeaning(a: ByteRange, b: ByteRange)
    requires a.length > 0 && b.length > 0
    ensures NeighboursClear(a, b) <==> a.Limit() <= U64_MAX && b.Limit() <= U64_MAX && Clear(a, b)
  {
  }

  lemma {:induction false} ClearChain(rs: seq<ByteRange>, i: nat, j: nat)
    requires Ordered(rs, RangeKey) && NoneEmpty(rs) && AdjacentClear(rs) && i < j < |rs|
    ensures rs[i].Limit() <= rs[j].offset
    decreases j - i
  {
    NeighboursMeaning(rs[j - 1], rs[j]);
    assert NeighboursClear(rs[j - 1], rs[j]);
    assert KeyLeq(RangeKey(rs[j - 1]), RangeKey(rs[j]));
    if i < j - 1 {
      ClearChain(rs, i, j - 1);
    }
  }

  lemma NeighboursFit(rs: seq<ByteRange>)
    requires NoneEmpty(rs) && AdjacentClear(rs) && |rs| > 1
    ensures AllEndsFit(rs)
  {
    forall i | 0 <= i < |rs|
      ensures rs[i].Limit() <= U64_MAX
    {
      var j := Max(i, 1);
      NeighboursMeaning(rs[j - 1], rs[j]);
      assert NeighboursClear(rs[j - 1], rs[j]);
    }
  }

  /** In order and with none empty, clear neighbours mean that all pairs are clear. */
  lemma AdjacentSuffices(rs: seq<ByteRange>)
    requires Ordered(rs, RangeKey) && NoneEmpty(rs)
    ensures AdjacentClear(rs) <==> Disjoint(rs) && (|rs| > 1 ==> AllEndsFit(rs))
  {
    if AdjacentClear(rs) {
      forall i, j | 0 <= i < j < |rs|
        ensures Clear(rs[i], rs[j])
      {
        ClearChain(rs, i, j);
      }
      if |rs| > 1 {
        NeighboursFit(rs);
      }
    }
    if Disjoint(rs) && (|rs| > 1 ==> AllEndsFit(rs)) {
      forall i | 1 <= i < |rs|
        ensures NeighboursClear(rs[i - 1], rs[i])
      {
        NeighboursMeaning(rs[i - 1], rs[i]);
      }
    }
  }

  /** Sorting first makes the neighbour check complete for ranges in any order. */
  lemma SortedCheckIsComplete(rs: seq<ByteRange>)
    requires NoneEmpty(rs)
    ensures AdjacentClear(SortByKey(rs, RangeKey)) <==> Disjoint(rs) && (|rs| > 1 ==> AllEndsFit(rs))
  {
    var sorted := SortByKey(rs, RangeKey);
    SortByKeyFacts(rs, RangeKey);
    SameMembers(rs, sorted);
    AdjacentSuffices(sorted);
    SortByKeyPairwise(rs, RangeKey, Clear);
  }

  lemma SameMembers(a: seq<ByteRange>, b: seq<ByteRange>)
    requires forall r :: r in a <==> r in b
    ensures NoneEmpty(a) <==> NoneEmpty(b)
    ensures AllEndsFit(a) <==> AllEndsFit(b)
  {
    assert forall i :: 0 <= i < |a| ==> a[i] in b;
    assert forall i :: 0 <= i < |b| ==> b[i] in a;
  }

  /** An empty range in between hides an overlap from the neighbour check. */
  lemma EmptyRangeHidesOverlap()
    ensures var rs := [ByteRange(0, 10), ByteRange(5, 0), ByteRange(6, 2)];
            && Ordered(rs, RangeKey) && AdjacentClear(rs) && !Disjoint(rs)
  {
    var rs := [ByteRange(0, 10), ByteRange(5, 0), ByteRange(6, 2)];
    assert NeighboursClear(rs[0], rs[1]) && NeighboursClear(rs[1], rs[2]);
    assert !Clear(rs[0], rs[2]);
  }

  // ---- which empty ranges are harmless ------------------------------------------------------

  /** Which of the ranges are empty. */
  ghost predicate EmptyAt(rs: seq<ByteRange>, empty: seq<bool>) {
    |rs| == |empty| && forall i :: 0 <= i < |rs| ==> (rs[i].length == 0 <==> empty[i])
  }

  /** No empty range comes between two that are not. */
  predicate NoneBetween(empty: seq<bool>) {
    forall i, k, j :: 0 <= i < k < j < |empty| && !empty[i] && !empty[j] ==> !empty[k]
  }

  /** For ordered ranges that are empty at just these places, comparing neighbours is enough. */
  ghost predicate NeighboursDecide(empty: seq<bool>) {
    forall rs :: EmptyAt(rs, empty) && Ordered(rs, RangeKey) && AdjacentClear(rs) ==> Disjoint(rs)
  }

  lemma NoneBetweenSuffices(rs: seq<ByteRange>, empty: seq<bool>, i: nat, j: nat)
    requires EmptyAt(rs, empty) && NoneBetween(empty) && Ordered(rs, RangeKey) && AdjacentClear(rs) && i < j < |rs|
    ensures Clear(rs[i], rs[j])
  {
    if !empty[i] && !empty[j] {
      var between := rs[i..j + 1];
      forall x | 1 <= x < |between|
        ensures NeighboursClear(between[x - 1], between[x])
      {
        assert NeighboursClear(rs[i + x - 1], rs[i + x]);
      }
      ClearChain(between, 0, j - i);
    }
  }

  /** Somewhere on the way from a range that is not empty to one that is, an empty one follows one that is not. */
  lemma {:induction false} FirstEmpty(empty: seq<bool>, i: nat, k: nat) returns (x: nat)
    requires i < k < |empty| && !empty[i] && empty[k]
    ensures i <= x < k && !empty[x] && empty[x + 1]
    decreases k - i
  {
    x := i;
    if !empty[i + 1] {
      x := FirstEmpty(empty, i + 1, k);
    }
  }

  /** One byte each, but the range at `x` reaches over the one at `j`. */
  function Reaching(empty: seq<bool>, x: nat, j: nat): (rs: seq<ByteRange>)
    requires x < j < |empty| < U64_MAX
    ensures |rs| == |empty|
    ensures forall i :: 0 <= i < |rs| ==>
              rs[i] == ByteRange(i, if empty[i] then 0 else if i == x then j - x + 1 else 1)
  {
    seq(|empty|, i requires 0 <= i < |empty| =>
      ByteRange(i, if empty[i] then 0 else if i == x then j - x + 1 else 1))
  }

  lemma ReachingHides(empty: seq<bool>, x: nat, j: nat)
    requires x + 1 < j < |empty| < U64_MAX && !empty[x] && empty[x + 1] && !empty[j]
    ensures var rs := Reaching(empty, x, j);
            EmptyAt(rs, empty) && Ordered(rs, RangeKey) && AdjacentClear(rs) && !Disjoint(rs)
  {
    var rs := Reaching(empty, x, j);
    assert !Clear(rs[x], rs[j]);
  }

  /** Comparing neighbours is enough exactly when no empty range comes between two that are not. */
  lemma NeighboursDecideIff(empty: seq<bool>)
    requires |empty| < U64_MAX
    ensures NeighboursDecide(empty) <==> NoneBetween(empty)
  {
    if NoneBetween(empty) {
      forall rs | EmptyAt(rs, empty) && Ordered(rs, RangeKey) && AdjacentClear(rs)
        ensures Disjoint(rs)
      {
        forall i, j | 0 <= i < j < |rs|
          ensures Clear(rs[i], rs[j])
        {
          NoneBetweenSuffices(rs, empty, i, j);
        }
      }
    } else {
      var i, k, j :| 0 <= i < k < j < |empty| && !empty[i] && !empty[j] && empty[k];
      var x := FirstEmpty(empty, i, k);
      ReachingHides(empty, x, j);
    }
  }
}
