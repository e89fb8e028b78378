/** Sequences in the order of a key. */
module Sorting {

  predicate SortedBy<T>(key: T -> int, xs: seq<T>) {
    forall i, j :: 0 <= i < j < |xs| ==> key(xs[i]) <= key(xs[j])
  }

  lemma InsertedSorted<T>(key: T -> int, before: seq<T>, x: T, after: seq<T>)
    requires SortedBy(key, before + after)
    requires forall i :: 0 <= i < |before| ==> key(before[i]) <= key(x)
    requires forall i :: 0 <= i < |after| ==> key(x) <= key(after[i])
    ensures SortedBy(key, before + [x] + after)
  {
    var xs, r, n := before + after, before + [x] + after, |before|;
    forall i, j | 0 <= i < j < |r|
      ensures key(r[i]) <= key(r[j])
    {
      if i != n && j != n {
        assert r[i] == xs[if i < n then i else i - 1] && r[j] == xs[if j < n then j else j - 1];
      }
    }
  }

  lemma SameElements<T>(xs: seq<T>, ys: seq<T>)
    requires multiset(xs) == multiset(ys)
    ensures |xs| == |ys| && forall x :: x in xs <==> x in ys
  {
    assert |multiset(xs)| == |multiset(ys)|;
    assert forall x :: x in xs <==> x in multiset(xs);
    assert forall x :: x in ys <==> x in multiset(ys);
  }
}
