/** Sequence helpers used by the collection lookups and filters. */
module Seqs {
  import opened Common

  /** No element occurs twice. */
  predicate Distinct<T(==)>(xs: seq<T>) {
    forall a, b :: 0 <= a < b < |xs| ==> xs[a] != xs[b]
  }

  /** Position of the first element satisfying `p`: the document a find-one query
      returns when it scans a collection in natural (insertion) order. */
  function FirstIndex<T>(xs: seq<T>, p: T -> bool): (r: Option<nat>)
    ensures r.Some? ==> r.value < |xs| && p(xs[r.value])
    ensures r.Some? ==> forall j :: 0 <= j < r.value ==> !p(xs[j])
    ensures r.None? <==> forall j :: 0 <= j < |xs| ==> !p(xs[j])
    decreases |xs|
  {
    if |xs| == 0 then None
    else if p(xs[0]) then Some(0)
    else match FirstIndex(xs[1..], p)
      case None => None
      case Some(k) => Some(k + 1)
  }

  /** The elements satisfying `p`, in their original order (Array.prototype.filter). */
  function Filter<T(!new)>(xs: seq<T>, p: T -> bool): (r: seq<T>)
    ensures |r| <= |xs|
    decreases |xs|
  {
    if |xs| == 0 then []
    else
      assert xs == [xs[0]] + xs[1..];
      if p(xs[0]) then [xs[0]] + Filter(xs[1..], p) else Filter(xs[1..], p)
  }

  /** Filtering keeps every passing element as often as it occurred and drops
      every failing one entirely. */
  lemma {:induction false} FilterCounts<T(!new)>(xs: seq<T>, p: T -> bool)
    ensures forall x :: multiset(Filter(xs, p))[x] == if p(x) then multiset(xs)[x] else 0
    decreases |xs|
  {
    if |xs| > 0 {
      FilterCounts(xs[1..], p);
      assert xs == [xs[0]] + xs[1..];
      assert multiset(xs) == multiset{xs[0]} + multiset(xs[1..]);
    }
  }

  /** An element survives filtering exactly when it occurred and passes. */
  lemma {:induction false} FilterMembers<T(!new)>(xs: seq<T>, p: T -> bool)
    ensures forall x :: x in Filter(xs, p) <==> x in xs && p(x)
  {
    FilterCounts(xs, p);
    forall x
      ensures x in Filter(xs, p) <==> x in xs && p(x)
    {
      assert x in Filter(xs, p) <==> multiset(Filter(xs, p))[x] > 0;
      assert x in xs <==> multiset(xs)[x] > 0;
    }
  }

  /** Filtering distributes over concatenation, so the kept elements stay in
      their original relative order. */
  lemma {:induction false} FilterConcat<T(!new)>(a: seq<T>, b: seq<T>, p: T -> bool)
    ensures Filter(a + b, p) == Filter(a, p) + Filter(b, p)
    decreases |a|
  {
    if |a| == 0 {
      assert a + b == b;
    } else {
      var ab := a + b;
      assert ab[0] == a[0];
      assert ab[1..] == a[1..] + b;
      FilterConcat(a[1..], b, p);
      if p(a[0]) {
        calc {
          Filter(ab, p);
          [a[0]] + Filter(a[1..] + b, p);
          [a[0]] + (Filter(a[1..], p) + Filter(b, p));
          ([a[0]] + Filter(a[1..], p)) + Filter(b, p);
        }
      } else {
        calc {
          Filter(ab, p);
          Filter(a[1..] + b, p);
          Filter(a[1..], p) + Filter(b, p);
        }
      }
    }
  }

  /** Filtering twice with the same predicate is filtering once. */
  lemma {:induction false} FilterIdempotent<T(!new)>(xs: seq<T>, p: T -> bool)
    ensures Filter(Filter(xs, p), p) == Filter(xs, p)
    decreases |xs|
  {
    if |xs| > 0 {
      FilterIdempotent(xs[1..], p);
      if p(xs[0]) {
        var rest := Filter(xs[1..], p);
        assert ([xs[0]] + rest)[0] == xs[0];
        assert ([xs[0]] + rest)[1..] == rest;
      }
    }
  }

  /** When every element passes, filtering changes nothing. */
  lemma {:induction false} FilterKeepsAll<T(!new)>(xs: seq<T>, p: T -> bool)
    requires forall j :: 0 <= j < |xs| ==> p(xs[j])
    ensures Filter(xs, p) == xs
    decreases |xs|
  {
    if |xs| > 0 {
      FilterKeepsAll(xs[1..], p);
      assert xs == [xs[0]] + xs[1..];
    }
  }

  /** A sequence without repetitions has as many distinct elements as entries. */
  lemma {:induction false} DistinctCardinality<T>(xs: seq<T>)
    requires Distinct(xs)
    ensures |set x | x in xs| == |xs|
    decreases |xs|
  {
    if |xs| > 0 {
      var tail := xs[1..];
      assert Distinct(tail) by {
        forall a, b | 0 <= a < b < |tail| ensures tail[a] != tail[b] {
          assert tail[a] == xs[a + 1] && tail[b] == xs[b + 1];
        }
      }
      DistinctCardinality(tail);
      assert xs[0] !in tail by {
        forall j | 0 <= j < |tail| ensures tail[j] != xs[0] {
          assert tail[j] == xs[j + 1];
        }
      }
      assert (set x | x in xs) == {xs[0]} + (set x | x in tail) by {
        assert xs == [xs[0]] + tail;
      }
    }
  }
}
