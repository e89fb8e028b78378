/** The k elements of a set closest by some distance, and how their list behaves when it is cut short and refilled. */
module Closest {
  import opened Arith

  predicate Ordered<T>(dist: T -> nat, ids: seq<T>) {
    forall i, j :: 0 <= i < j < |ids| ==> dist(ids[i]) < dist(ids[j])
  }

  /** ids lists the k closest members of the set (all of them if there are fewer), closest first. */
  ghost predicate IsClosest<T>(dist: T -> nat, ids: seq<T>, all: set<T>, k: nat) {
    && Ordered(dist, ids)
    && (forall x :: x in ids ==> x in all)
    && |ids| <= k
    && (forall x :: x in all && x !in ids ==> |ids| == k)
    && (forall x, y :: x in all && x !in ids && y in ids ==> dist(y) < dist(x))
  }

  ghost function Elements<T>(ids: seq<T>): set<T> {
    set x | x in ids
  }

  predicate Distinct<T(==)>(ids: seq<T>) {
    forall i, j :: 0 <= i < j < |ids| ==> ids[i] != ids[j]
  }

  lemma {:induction false} ElementCount<T>(ids: seq<T>)
    requires Distinct(ids)
    ensures |Elements(ids)| == |ids|
  {
    if ids != [] {
      var init, last := ids[..|ids| - 1], ids[|ids| - 1];
      ElementCount(init);
      assert Elements(ids) == Elements(init) + {last};
    }
  }

  /** A list of distinct IDs, all found in another, is no longer than it. */
  lemma Pigeonhole<T>(ids: seq<T>, others: seq<T>)
    requires Distinct(ids) && Distinct(others) && forall x :: x in ids ==> x in others
    ensures |ids| <= |others|
    ensures |ids| == |others| ==> forall x :: x in others ==> x in ids
  {
    ElementCount(ids);
    ElementCount(others);
    SubsetCount(Elements(ids), Elements(others));
    if |ids| == |others| {
      forall x | x in others
        ensures x in ids
      {
        assert x in Elements(ids);
      }
    }
  }

  /** As many as asked for, or as there are. */
  lemma ClosestCount<T>(dist: T -> nat, ids: seq<T>, all: set<T>, k: nat)
    requires IsClosest(dist, ids, all, k)
    ensures |ids| == if k < |all| then k else |all|
  {
    ElementCount(ids);
    SubsetCount(Elements(ids), all);
    if Elements(ids) != all {
      var x :| x in all && x !in ids;
    }
  }

  lemma OrderedDistinct<T>(dist: T -> nat, ids: seq<T>)
    requires Ordered(dist, ids)
    ensures Distinct(ids)
  {
  }

  /** Neither list can hold something the other lacks. */
  lemma ClosestWithin<T>(dist: T -> nat, ids: seq<T>, others: seq<T>, all: set<T>, k: nat)
    requires IsClosest(dist, ids, all, k) && IsClosest(dist, others, all, k)
    ensures forall x :: x in ids ==> x in others
  {
    OrderedDistinct(dist, ids);
    OrderedDistinct(dist, others);
    ClosestCount(dist, ids, all, k);
    ClosestCount(dist, others, all, k);
    if y :| y in others && y !in ids {
    } else {
      Pigeonhole(others, ids);
    }
  }

  lemma OrderedTail<T>(dist: T -> nat, ids: seq<T>)
    requires Ordered(dist, ids) && ids != []
    ensures Ordered(dist, ids[1..])
    ensures forall x :: x in ids[1..] <==> x in ids && x != ids[0]
    ensures forall x :: x in ids[1..] ==> dist(ids[0]) < dist(x)
  {
    assert ids == [ids[0]] + ids[1..];
    forall x | x in ids[1..]
      ensures dist(ids[0]) < dist(x)
    {
      var i :| 0 <= i < |ids[1..]| && ids[1..][i] == x;
      assert ids[i + 1] == x;
    }
  }

  /** An ordered list is determined by its elements. */
  lemma {:induction false} OrderedUnique<T>(dist: T -> nat, ids: seq<T>, others: seq<T>)
    requires Ordered(dist, ids) && Ordered(dist, others) && forall x :: x in ids <==> x in others
    ensures ids == others
  {
    assert ids != [] ==> ids[0] in ids;
    assert others != [] ==> others[0] in others;
    if ids != [] && others != [] {
      OrderedTail(dist, ids);
      OrderedTail(dist, others);
      assert ids[0] == others[0];
      OrderedUnique(dist, ids[1..], others[1..]);
      assert ids == [ids[0]] + ids[1..] && others == [others[0]] + others[1..];
    }
  }

  /** The k closest are determined: no two lists answer the description. */
  lemma ClosestUnique<T>(dist: T -> nat, ids: seq<T>, others: seq<T>, all: set<T>, k: nat)
    requires IsClosest(dist, ids, all, k) && IsClosest(dist, others, all, k)
    ensures ids == others
  {
    ClosestWithin(dist, ids, others, all, k);
    ClosestWithin(dist, others, ids, all, k);
    OrderedUnique(dist, ids, others);
  }

  /** What a shortened list dropped can be forgotten: only the list and the newcomers matter. */
  lemma ClosestAbsorbs<T>(dist: T -> nat, kept: seq<T>, all: set<T>, more: set<T>, ids: seq<T>, k: nat)
    requires IsClosest(dist, kept, all, k)
    requires IsClosest(dist, ids, Elements(kept) + more, k)
    ensures IsClosest(dist, ids, all + more, k)
  {
    OrderedDistinct(dist, kept);
    OrderedDistinct(dist, ids);
    forall x | x in all + more && x !in ids
      ensures |ids| == k && forall y :: y in ids ==> dist(y) < dist(x)
    {
      if x in kept || x in more {
        assert x in Elements(kept) + more;
      } else {
        DroppedIsFarther(dist, kept, all, more, ids, k, x);
      }
    }
  }

  lemma DroppedIsFarther<T>(dist: T -> nat, kept: seq<T>, all: set<T>, more: set<T>, ids: seq<T>, k: nat, x: T)
    requires IsClosest(dist, kept, all, k)
    requires IsClosest(dist, ids, Elements(kept) + more, k)
    requires Distinct(kept) && Distinct(ids)
    requires x in all && x !in kept
    ensures |ids| == k && forall y :: y in ids ==> dist(y) < dist(x)
  {
    assert |kept| == k;
    if z :| z in kept && z !in ids {
      assert z in Elements(kept) + more;
    } else {
      Pigeonhole(kept, ids);
    }
  }

  function Take<T>(s: seq<T>, k: nat): seq<T> {
    if |s| > k then s[..k] else s
  }

  /** Sorting everything and cutting gives the closest. */
  lemma SortedPrefix<T>(dist: T -> nat, ids: seq<T>, k: nat)
    requires Ordered(dist, ids)
    ensures IsClosest(dist, Take(ids, k), Elements(ids), k)
  {
    var r := Take(ids, k);
    forall x, y | x in ids && x !in r && y in r
      ensures dist(y) < dist(x)
    {
      var i :| 0 <= i < |ids| && ids[i] == x;
      var j :| 0 <= j < |r| && r[j] == y;
      assert i >= |r|;
    }
  }

  lemma ElementsAppend<T>(ids: seq<T>, x: T)
    ensures Elements(ids + [x]) == Elements(ids) + {x}
  {
  }

  // ----- Skipping what is done

  /** The first k elements that are not in the set. */
  function Remaining<T(==)>(ids: seq<T>, done: set<T>, k: nat): (r: seq<T>)
    ensures |r| <= k
  {
    if ids == [] || k == 0 then []
    else if ids[0] in done then Remaining(ids[1..], done, k)
    else [ids[0]] + Remaining(ids[1..], done, k - 1)
  }

  lemma ClosestCons<T>(dist: T -> nat, x: T, ids: seq<T>, all: set<T>, k: nat)
    requires k > 0 && IsClosest(dist, ids, all, k - 1) && forall y :: y in all ==> dist(x) < dist(y)
    ensures IsClosest(dist, [x] + ids, {x} + all, k)
  {
    assert forall i :: 0 <= i < |ids| ==> ids[i] in ids;
  }

  lemma ElementsTail<T>(ids: seq<T>)
    requires ids != []
    ensures Elements(ids) == {ids[0]} + Elements(ids[1..])
  {
    assert ids == [ids[0]] + ids[1..];
  }

  /** In an ordered list they are the closest of those not in the set. */
  lemma {:induction false} RemainingIsClosest<T>(dist: T -> nat, ids: seq<T>, done: set<T>, k: nat)
    requires Ordered(dist, ids)
    ensures IsClosest(dist, Remaining(ids, done, k), Elements(ids) - done, k)
  {
    if ids != [] && k > 0 {
      var rest := ids[1..];
      OrderedTail(dist, ids);
      ElementsTail(ids);
      if ids[0] in done {
        RemainingIsClosest(dist, rest, done, k);
        assert Elements(ids) - done == Elements(rest) - done;
      } else {
        RemainingIsClosest(dist, rest, done, k - 1);
        assert Elements(ids) - done == {ids[0]} + (Elements(rest) - done);
        ClosestCons(dist, ids[0], Remaining(rest, done, k - 1), Elements(rest) - done, k);
      }
    }
  }
}
