/** Sorting a sequence of integers, as the Rust programs do with `Vec::sort` before
    scanning: the result is ordered, a permutation of the input, and the only ordered
    permutation there is. */
module Sorting {

  predicate Sorted(xs: seq<int>) {
    forall i, j :: 0 <= i < j < |xs| ==> xs[i] <= xs[j]
  }

  /** Ordered pairwise follows from ordered neighbours. */
  lemma {:induction false} SortedAdjacent(xs: seq<int>)
    requires forall i :: 0 < i < |xs| ==> xs[i - 1] <= xs[i]
    ensures Sorted(xs)
  {
    if |xs| > 1 {
      SortedAdjacent(xs[1..]);
      assert forall j :: 1 <= j < |xs| ==> xs[j] == xs[1..][j - 1];
      assert forall j :: 1 <= j < |xs| ==> xs[1] <= xs[j];
    }
  }

  /** Dropping the head of a non-empty sequence drops one copy of it. */
  lemma DropHead(a: seq<int>)
    requires a != []
    ensures Sorted(a) ==> Sorted(a[1..])
    ensures multiset(a[1..]) == multiset(a) - multiset{a[0]}
  {
    assert a == [a[0]] + a[1..];
  }

  /** An element at most every element of an ordered sequence can be put in front. */
  lemma ConsSorted(y: int, s: seq<int>)
    requires Sorted(s) && forall k :: 0 <= k < |s| ==> y <= s[k]
    ensures Sorted([y] + s)
  {
  }

  /** After `x` goes into the tail of `xs`, the head of `xs` is still the least. */
  lemma HeadBelowInserted(xs: seq<int>, x: int, rest: seq<int>)
    requires Sorted(xs) && xs != [] && xs[0] < x
    requires multiset(rest) == multiset(xs[1..]) + multiset{x}
    ensures forall k :: 0 <= k < |rest| ==> xs[0] <= rest[k]
    ensures multiset([xs[0]] + rest) == multiset(xs) + multiset{x}
  {
    forall k | 0 <= k < |rest|
      ensures xs[0] <= rest[k]
    {
      assert rest[k] in multiset(rest);
      if rest[k] != x {
        assert rest[k] in multiset(xs[1..]);
        var m :| 0 <= m < |xs[1..]| && xs[1..][m] == rest[k];
        assert xs[m + 1] == rest[k];
      }
    }
    assert xs == [xs[0]] + xs[1..];
  }

  function Insert(x: int, xs: seq<int>): (r: seq<int>)
    requires Sorted(xs)
    ensures Sorted(r) && multiset(r) == multiset(xs) + multiset{x} && |r| == |xs| + 1
  {
    if xs == [] || x <= xs[0] then
      ConsSorted(x, xs);
      [x] + xs
    else
      DropHead(xs);
      var rest := Insert(x, xs[1..]);
      HeadBelowInserted(xs, x, rest);
      ConsSorted(xs[0], rest);
      [xs[0]] + rest
  }

  /** `Vec::sort`. */
  function Sort(xs: seq<int>): (r: seq<int>)
    ensures Sorted(r) && multiset(r) == multiset(xs) && |r| == |xs|
  {
    if xs == [] then []
    else
      assert xs == [xs[0]] + xs[1..];
      Insert(xs[0], Sort(xs[1..]))
  }

  /** The head of an ordered sequence is at most each of its elements. */
  lemma SortedHeadLeast(a: seq<int>, x: int)
    requires Sorted(a) && x in multiset(a)
    ensures a != [] && a[0] <= x
  {
    var k :| 0 <= k < |a| && a[k] == x;
  }

  /** Two non-empty ordered sequences with the same elements start alike, and what
      follows the head is again ordered with the same elements. */
  lemma SameHead(a: seq<int>, b: seq<int>)
    requires a != [] && b != []
    requires Sorted(a) && Sorted(b) && multiset(a) == multiset(b)
    ensures a[0] == b[0]
    ensures Sorted(a[1..]) && Sorted(b[1..]) && multiset(a[1..]) == multiset(b[1..])
  {
    SortedHeadLeast(a, b[0]);
    SortedHeadLeast(b, a[0]);
    DropHead(a);
    DropHead(b);
  }

  /** Two ordered sequences with the same elements are equal. */
  lemma {:induction false} SortedUnique(a: seq<int>, b: seq<int>)
    requires Sorted(a) && Sorted(b) && multiset(a) == multiset(b)
    ensures a == b
    decreases |a|
  {
    if a == [] || b == [] {
      assert |multiset(a)| == |a| && |multiset(b)| == |b|;
    } else {
      SameHead(a, b);
      SortedUnique(a[1..], b[1..]);
      assert a == [a[0]] + a[1..];
      assert b == [b[0]] + b[1..];
    }
  }

  /** Sorting depends only on the multiset of the input. */
  lemma SortDependsOnMultiset(a: seq<int>, b: seq<int>)
    requires multiset(a) == multiset(b)
    ensures Sort(a) == Sort(b)
  {
    SortedUnique(Sort(a), Sort(b));
  }

  /** An ordered input is left as it is. */
  lemma SortSorted(a: seq<int>)
    requires Sorted(a)
    ensures Sort(a) == a
  {
    SortedUnique(Sort(a), a);
  }
}
