/** The routing table as the client keeps it. */
module RoutingTableClass {
  import opened Sorting
  import opened NodeDistance
  import opened Closest
  import opened NodeSort
  import opened RoutingModel

  /** The buckets are those of a history, one by one. */
  ghost predicate Is(buckets: Buckets, self: NodeID, history: seq<Node>) {
    |buckets| == NUM_BUCKETS && forall i :: 0 <= i < NUM_BUCKETS ==> buckets[i] == Table(self, history)[i]
  }

  /** They are then the table. */
  lemma IsTable(buckets: Buckets, self: NodeID, history: seq<Node>)
    ensures Is(buckets, self, history) <==> buckets == Table(self, history)
  {
  }

  class RoutingTable {
    const selfID: NodeID
    var buckets: Buckets
    /** The nodes given to Add so far. */
    ghost var history: seq<Node>

    ghost predicate Valid()
      reads this
    {
      Is(buckets, selfID, history)
    }

    constructor (selfID: NodeID)
      ensures Valid() && this.selfID == selfID && history == []
    {
      this.selfID := selfID;
      buckets := Empty();
      history := [];
      new;
      IsTable(buckets, selfID, history);
    }

    /** The place of the first set bit of the distance. */
    method BucketIndex(id: NodeID) returns (k: nat)
      ensures k == BucketOf(selfID, id)
    {
      var dist := XORDistance(selfID, id);
      for i := 0 to ID_LENGTH
        invariant SharePrefix(selfID, id, i * 8)
      {
        var bit := 7;
        while bit >= 0
          invariant -1 <= bit <= 7 && SharePrefix(selfID, id, i * 8 + (7 - bit))
        {
          DistanceBit(selfID, id, dist, i, bit);
          if dist[i] & Mask(bit) != 0 {
            PrefixMeaning(selfID, id, i * 8 + (7 - bit));
            return i * 8 + (7 - bit);
          }
          bit := bit - 1;
        }
      }
      PrefixMeaning(selfID, id, ID_BITS);
      k := NUM_BUCKETS - 1;
    }

    method Add(node: Node)
      requires Valid()
      modifies this
      ensures Valid() && history == old(history) + [node]
    {
      IsTable(buckets, selfID, history);
      TableKeepsOk(selfID, history);
      Store(node);
      history := history + [node];
      assert history[..|history| - 1] == old(history);
      IsTable(buckets, selfID, history);
    }

    method Store(node: Node)
      requires TableOk(selfID, buckets)
      modifies this`buckets
      ensures buckets == Added(selfID, old(buckets), node)
    {
      if node.id == selfID {
        return;
      }
      var idx := BucketIndex(node.id);
      var bucket := buckets[idx];
      for i := 0 to |bucket|
        invariant buckets == old(buckets)
        invariant forall k :: 0 <= k < i ==> bucket[k].id != node.id
      {
        if bucket[i].id == node.id {
          FindIs(bucket, node.id, i);
          buckets := buckets[idx := bucket[..i] + bucket[i + 1..] + [node]];
          return;
        }
      }
      FindIs(bucket, node.id, |bucket|);
      if |bucket| < BUCKET_SIZE {
        buckets := buckets[idx := bucket + [node]];
      }
    }

    method FindClosest(target: NodeID, count: nat) returns (r: seq<Node>)
      requires Valid()
      ensures IsClosest(From(target), Ids(r), TableIds(buckets), count)
      ensures |r| == if count < |TableIds(buckets)| then count else |TableIds(buckets)|
      ensures forall n :: n in r ==> n in buckets[BucketOf(selfID, n.id)]
    {
      IsTable(buckets, selfID, history);
      TableKeepsOk(selfID, history);
      var all := [];
      for i := 0 to NUM_BUCKETS
        invariant all == Flatten(buckets[..i])
      {
        assert buckets[..i + 1][..i] == buckets[..i];
        all := all + buckets[i];
      }
      assert buckets[..NUM_BUCKETS] == buckets;
      var sorted := SortByDistance(target, all);
      r := if |sorted| > count then sorted[..count] else sorted;
      assert r == Take(sorted, count);
      FromInjective(target);
      ClosestOfTable(selfID, buckets, From(target), sorted, count);
    }

    method Count() returns (count: nat)
      requires Valid()
      ensures count == |TableIds(buckets)|
    {
      IsTable(buckets, selfID, history);
      TableKeepsOk(selfID, history);
      count := 0;
      for i := 0 to NUM_BUCKETS
        invariant count == |Flatten(buckets[..i])|
      {
        assert buckets[..i + 1][..i] == buckets[..i];
        count := count + |buckets[i]|;
      }
      assert buckets[..NUM_BUCKETS] == buckets;
      FlatTable(selfID, buckets);
    }
  }

  lemma DistanceBit(a: NodeID, b: NodeID, dist: NodeID, i: nat, bit: nat)
    requires dist == Xor(a, b) && i < ID_LENGTH && bit < 8
    ensures dist[i] & Mask(bit) != 0 <==> Bit(a, i * 8 + (7 - bit)) != Bit(b, i * 8 + (7 - bit))
  {
    MaskHas(dist[i], bit);
    XorByteAt(a, b, i, bit);
    BitOfByte(a, i, bit);
    BitOfByte(b, i, bit);
  }

  lemma FindIs(bucket: seq<Node>, id: NodeID, k: nat)
    requires k <= |bucket| && (forall i :: 0 <= i < k ==> bucket[i].id != id) && (k < |bucket| ==> bucket[k].id == id)
    ensures Find(bucket, id) == k
  {
  }

  lemma ClosestOfTable(self: NodeID, t: Buckets, dist: NodeID -> nat, sorted: seq<Node>, count: nat)
    requires Injective(dist) && TableOk(self, t) && multiset(sorted) == multiset(Flatten(t)) && Sorted(dist, sorted)
    ensures var r := Take(sorted, count);
            && IsClosest(dist, Ids(r), TableIds(t), count)
            && |r| == (if count < |TableIds(t)| then count else |TableIds(t)|)
            && forall n :: n in r ==> n in t[BucketOf(self, n.id)]
  {
    var r := Take(sorted, count);
    FlatTable(self, t);
    CutIsClosest(dist, Flatten(t), sorted, count);
    ClosestCount(dist, Ids(r), TableIds(t), count);
    SameElements(Flatten(t), sorted);
    forall n | n in r
      ensures n in t[BucketOf(self, n.id)]
    {
      assert n in sorted;
      FlattenElements(t, n);
      var i :| 0 <= i < |t| && n in t[i];
      assert BucketOk(self, t[i], i);
    }
  }
}
