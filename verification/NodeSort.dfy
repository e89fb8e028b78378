/** Sorting nodes by their distance to a target. */
module NodeSort {
  import opened Sorting
  import opened NodeDistance
  import opened Closest

  function From(target: NodeID): NodeID -> nat {
    id => Distance(target, id)
  }

  function Ids(ns: seq<Node>): (ids: seq<NodeID>)
    ensures |ids| == |ns| && forall i :: 0 <= i < |ns| ==> ids[i] == ns[i].id
  {
    seq(|ns|, i requires 0 <= i < |ns| => ns[i].id)
  }

  /** The distance of a node is that of its ID. */
  function OfNode(dist: NodeID -> nat): Node -> int {
    (n: Node) => dist(n.id)
  }

  predicate Sorted(dist: NodeID -> nat, ns: seq<Node>) {
    SortedBy(OfNode(dist), ns)
  }

  /** Stands for sort.Slice: nothing but an ordered rearrangement is promised. */
  method SortByDistance(target: NodeID, ns: seq<Node>) returns (r: seq<Node>)
    ensures multiset(r) == multiset(ns) && Sorted(From(target), r)
  {
    r := [];
    for i := 0 to |ns|
      invariant multiset(r) == multiset(ns[..i]) && Sorted(From(target), r)
    {
      assert ns[..i + 1] == ns[..i] + [ns[i]];
      var k := PlaceOf(target, r, ns[i]);
      assert r == r[..k] + r[k..];
      InsertedSorted(OfNode(From(target)), r[..k], ns[i], r[k..]);
      r := r[..k] + [ns[i]] + r[k..];
    }
    assert ns[..|ns|] == ns;
  }

  method PlaceOf(target: NodeID, ns: seq<Node>, n: Node) returns (k: nat)
    requires Sorted(From(target), ns)
    ensures k <= |ns|
    ensures forall i :: 0 <= i < k ==> From(target)(ns[i].id) <= From(target)(n.id)
    ensures forall i :: k <= i < |ns| ==> From(target)(n.id) <= From(target)(ns[i].id)
  {
    k := 0;
    while k < |ns|
      invariant k <= |ns|
      invariant forall i :: 0 <= i < k ==> From(target)(ns[i].id) <= From(target)(n.id)
    {
      var c := CompareDistance(target, ns[k].id, n.id);
      if c >= 0 {
        return;
      }
      k := k + 1;
    }
  }

  /** A rearrangement keeps the IDs distinct. */
  lemma {:induction false} SameDistinct(ns: seq<Node>, r: seq<Node>)
    requires multiset(r) == multiset(ns) && Distinct(Ids(ns))
    ensures Distinct(Ids(r)) && Elements(Ids(r)) == Elements(Ids(ns))
  {
    SameElements(ns, r);
    IdsHold(ns);
    IdsHold(r);
    assert Elements(Ids(r)) == Elements(Ids(ns));
    ElementCount(Ids(ns));
    CountDistinct(Ids(r));
  }

  lemma IdsHold(ns: seq<Node>)
    ensures forall x :: x in Ids(ns) <==> exists n :: n in ns && n.id == x
  {
    forall x | x in Ids(ns)
      ensures exists n :: n in ns && n.id == x
    {
      var i :| 0 <= i < |ns| && Ids(ns)[i] == x;
      assert ns[i] in ns;
    }
    forall n | n in ns
      ensures n.id in Ids(ns)
    {
      var i :| 0 <= i < |ns| && ns[i] == n;
      assert Ids(ns)[i] == n.id;
    }
  }

  /** A list with as many different elements as it is long has no repetition. */
  lemma {:induction false} CountDistinct<T>(ids: seq<T>)
    ensures |Elements(ids)| <= |ids|
    ensures |Elements(ids)| == |ids| ==> Distinct(ids)
  {
    if ids != [] {
      var init, last := ids[..|ids| - 1], ids[|ids| - 1];
      CountDistinct(init);
      assert Elements(ids) == Elements(init) + {last};
      assert last !in init ==> last !in Elements(init);
    }
  }

  /** No two IDs are equally far. */
  ghost predicate Injective(dist: NodeID -> nat) {
    forall x :: Only(dist, x)
  }

  /** Nothing but x is as far as x. */
  ghost predicate Only(dist: NodeID -> nat, x: NodeID) {
    forall y :: dist(y) == dist(x) ==> y == x
  }

  lemma FromInjective(target: NodeID)
    ensures Injective(From(target))
  {
    forall x
      ensures Only(From(target), x)
    {
      forall y | From(target)(y) == From(target)(x)
        ensures y == x
      {
        DistanceInjective(target, x, y);
      }
    }
  }

  /** Sorting nodes with different IDs puts them in strict order. */
  lemma SortedOrdered(dist: NodeID -> nat, ns: seq<Node>)
    requires Injective(dist) && Sorted(dist, ns) && Distinct(Ids(ns))
    ensures Ordered(dist, Ids(ns))
  {
    forall i, j | 0 <= i < j < |ns|
      ensures dist(Ids(ns)[i]) < dist(Ids(ns)[j])
    {
      assert Ids(ns)[i] != Ids(ns)[j];
      assert Only(dist, Ids(ns)[i]);
    }
  }

  lemma IdsTake(ns: seq<Node>, k: nat)
    ensures Ids(Take(ns, k)) == Take(Ids(ns), k)
  {
  }

  /** Sorted and cut to k, nodes with different IDs are the k closest. */
  lemma CutIsClosest(dist: NodeID -> nat, ns: seq<Node>, r: seq<Node>, k: nat)
    requires Injective(dist) && Distinct(Ids(ns)) && multiset(r) == multiset(ns) && Sorted(dist, r)
    ensures IsClosest(dist, Ids(Take(r, k)), Elements(Ids(ns)), k)
  {
    SameDistinct(ns, r);
    SortedOrdered(dist, r);
    SortedPrefix(dist, Ids(r), k);
    IdsTake(r, k);
  }
}
