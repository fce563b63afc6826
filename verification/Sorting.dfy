/**
 Stable sorting by an (offset, length) key, and what sorting does to a question
 asked of every pair of elements.
 */
module Sorting {
  type Key = (int, int)

  predicate KeyLeq(a: Key, b: Key) {
    a.0 < b.0 || (a.0 == b.0 && a.1 <= b.1)
  }

  ghost predicate Ordered<T(!new)>(xs: seq<T>, key: T -> Key) {
    forall i, j :: 0 <= i < j < |xs| ==> KeyLeq(key(xs[i]), key(xs[j]))
  }

  ghost predicate Pairwise<T(!new)>(xs: seq<T>, rel: (T, T) -> bool) {
    forall i, j :: 0 <= i < j < |xs| ==> rel(xs[i], xs[j])
  }

  ghost predicate SymmetricOn<T(!new)>(xs: seq<T>, rel: (T, T) -> bool) {
    forall a, b :: a in xs && b in xs ==> (rel(a, b) <==> rel(b, a))
  }

  function InsertByKey<T(!new)>(x: T, xs: seq<T>, key: T -> Key): seq<T> {
    if |xs| == 0 || KeyLeq(key(x), key(xs[0])) then [x] + xs
    else [xs[0]] + InsertByKey(x, xs[1..], key)
  }

  function SortByKey<T(!new)>(xs: seq<T>, key: T -> Key): seq<T> {
    if |xs| == 0 then [] else InsertByKey(xs[0], SortByKey(xs[1..], key), key)
  }

  lemma {:induction false} InsertByKeyMembers<T(!new)>(x: T, xs: seq<T>, key: T -> Key)
    ensures |InsertByKey(x, xs, key)| == |xs| + 1
    ensures forall y :: y in InsertByKey(x, xs, key) <==> y == x || y in xs
  {
    if !(|xs| == 0 || KeyLeq(key(x), key(xs[0]))) {
      InsertByKeyMembers(x, xs[1..], key);
      assert xs == [xs[0]] + xs[1..];
    }
  }

  lemma {:induction false} OrderedCons<T(!new)>(x: T, xs: seq<T>, key: T -> Key)
    ensures Ordered([x] + xs, key) <==> Ordered(xs, key) && forall y :: y in xs ==> KeyLeq(key(x), key(y))
  {
    PairwiseCons(x, xs, (a, b) => KeyLeq(key(a), key(b)));
    assert Pairwise([x] + xs, (a, b) => KeyLeq(key(a), key(b))) <==> Ordered([x] + xs, key);
    assert Pairwise(xs, (a, b) => KeyLeq(key(a), key(b))) <==> Ordered(xs, key);
  }

  lemma {:induction false} InsertByKeyOrdered<T(!new)>(x: T, xs: seq<T>, key: T -> Key)
    requires Ordered(xs, key)
    ensures Ordered(InsertByKey(x, xs, key), key)
  {
    if |xs| == 0 || KeyLeq(key(x), key(xs[0])) {
      OrderedCons(x, xs, key);
      forall y | y in xs
        ensures KeyLeq(key(x), key(y))
      {
        var k :| 0 <= k < |xs| && xs[k] == y;
        assert k > 0 ==> KeyLeq(key(xs[0]), key(xs[k]));
      }
    } else {
      assert xs == [xs[0]] + xs[1..];
      OrderedCons(xs[0], xs[1..], key);
      InsertByKeyOrdered(x, xs[1..], key);
      var rest := InsertByKey(x, xs[1..], key);
      InsertByKeyMembers(x, xs[1..], key);
      forall y | y in rest
        ensures KeyLeq(key(xs[0]), key(y))
      {
        assert y == x || y in xs[1..];
      }
      OrderedCons(xs[0], rest, key);
      assert InsertByKey(x, xs, key) == [xs[0]] + rest;
    }
  }

  /** Sorting reorders and neither drops nor adds. */
  lemma {:induction false} SortByKeyFacts<T(!new)>(xs: seq<T>, key: T -> Key)
    ensures |SortByKey(xs, key)| == |xs|
    ensures forall y :: y in SortByKey(xs, key) <==> y in xs
    ensures Ordered(SortByKey(xs, key), key)
  {
    if |xs| > 0 {
      var s := SortByKey(xs[1..], key);
      SortByKeyFacts(xs[1..], key);
      InsertByKeyMembers(xs[0], s, key);
      InsertByKeyOrdered(xs[0], s, key);
      assert xs == [xs[0]] + xs[1..];
    }
  }

  lemma {:induction false} PairwiseCons<T(!new)>(x: T, xs: seq<T>, rel: (T, T) -> bool)
    ensures Pairwise([x] + xs, rel) <==> Pairwise(xs, rel) && forall y :: y in xs ==> rel(x, y)
  {
    var r := [x] + xs;
    if Pairwise(r, rel) {
      forall y | y in xs
        ensures rel(x, y)
      {
        var k :| 0 <= k < |xs| && xs[k] == y;
        assert rel(r[0], r[k + 1]);
      }
      forall i, j | 0 <= i < j < |xs|
        ensures rel(xs[i], xs[j])
      {
        assert rel(r[i + 1], r[j + 1]);
      }
    }
    if Pairwise(xs, rel) && forall y :: y in xs ==> rel(x, y) {
      forall i, j | 0 <= i < j < |r|
        ensures rel(r[i], r[j])
      {
        assert r[j] == xs[j - 1];
        if i > 0 {
          assert r[i] == xs[i - 1];
        }
      }
    }
  }

  lemma {:induction false} InsertByKeyPairwise<T(!new)>(x: T, xs: seq<T>, key: T -> Key, rel: (T, T) -> bool)
    requires forall y :: y in xs ==> (rel(x, y) <==> rel(y, x))
    ensures Pairwise(InsertByKey(x, xs, key), rel) <==>
            Pairwise(xs, rel) && forall y :: y in xs ==> rel(x, y)
  {
    if |xs| == 0 || KeyLeq(key(x), key(xs[0])) {
      PairwiseCons(x, xs, rel);
    } else {
      var rest := InsertByKey(x, xs[1..], key);
      assert xs == [xs[0]] + xs[1..];
      InsertByKeyPairwise(x, xs[1..], key, rel);
      InsertByKeyMembers(x, xs[1..], key);
      assert x in rest;
      assert forall y :: y in xs <==> y == xs[0] || y in xs[1..];
      PairwiseCons(xs[0], rest, rel);
      PairwiseCons(xs[0], xs[1..], rel);
      assert xs[0] in xs;
      assert InsertByKey(x, xs, key) == [xs[0]] + rest;
    }
  }

  /** A symmetric relation holds of every pair before sorting iff it does after. */
  lemma {:induction false} SortByKeyPairwise<T(!new)>(xs: seq<T>, key: T -> Key, rel: (T, T) -> bool)
    requires SymmetricOn(xs, rel)
    ensures Pairwise(SortByKey(xs, key), rel) <==> Pairwise(xs, rel)
  {
    if |xs| > 0 {
      var s := SortByKey(xs[1..], key);
      assert xs == [xs[0]] + xs[1..];
      SortByKeyFacts(xs[1..], key);
      assert xs[0] in xs;
      assert SymmetricOn(xs[1..], rel) by {
        assert forall a :: a in xs[1..] ==> a in xs;
      }
      forall y | y in s
        ensures rel(xs[0], y) <==> rel(y, xs[0])
      {
        assert y in xs[1..];
        assert y in xs;
      }
      SortByKeyPairwise(xs[1..], key, rel);
      InsertByKeyPairwise(xs[0], s, key, rel);
      PairwiseCons(xs[0], xs[1..], rel);
    }
  }
}
