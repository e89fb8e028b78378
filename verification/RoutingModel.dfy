/** The Kademlia routing table: 160 buckets of at most 8 nodes. */
module RoutingModel {
  import opened NodeDistance
  import opened Closest
  import opened NodeSort

  const BUCKET_SIZE: nat := 8
  const NUM_BUCKETS: nat := 160

  type Buckets = seq<seq<Node>>

  /** The bucket of a node: the number of leading bits it shares with ourselves. */
  function BucketOf(self: NodeID, id: NodeID): (i: nat)
    ensures i < NUM_BUCKETS
  {
    var n := CommonPrefix(self, id);
    if n == ID_BITS then NUM_BUCKETS - 1 else n
  }

  /** The position of an ID in a bucket, or its length. */
  function Find(bucket: seq<Node>, id: NodeID): (k: nat)
    ensures k <= |bucket|
    ensures forall i :: 0 <= i < k ==> bucket[i].id != id
    ensures k < |bucket| ==> bucket[k].id == id
  {
    if bucket == [] || bucket[0].id == id then 0 else 1 + Find(bucket[1..], id)
  }

  /** A bucket after a node was seen: moved to the end, added, or discarded. */
  function Seen(bucket: seq<Node>, node: Node): seq<Node> {
    var k := Find(bucket, node.id);
    if k < |bucket| then bucket[..k] + bucket[k + 1..] + [node]
    else if |bucket| < BUCKET_SIZE then bucket + [node]
    else bucket
  }

  function Added(self: NodeID, t: Buckets, node: Node): (r: Buckets)
    requires |t| == NUM_BUCKETS
    ensures |r| == NUM_BUCKETS
  {
    if node.id == self then t
    else var i := BucketOf(self, node.id); t[i := Seen(t[i], node)]
  }

  function Empty(): (t: Buckets)
    ensures |t| == NUM_BUCKETS && forall i :: 0 <= i < NUM_BUCKETS ==> t[i] == []
  {
    seq(NUM_BUCKETS, _ => [])
  }

  /** The table after a history of Add calls. */
  function Table(self: NodeID, adds: seq<Node>): (t: Buckets)
    ensures |t| == NUM_BUCKETS
  {
    if adds == [] then Empty() else Added(self, Table(self, adds[..|adds| - 1]), adds[|adds| - 1])
  }

  // ----- Shape

  /** No ID occurs twice. */
  predicate Once(bucket: seq<Node>) {
    forall i, j :: 0 <= i < j < |bucket| ==> bucket[i].id != bucket[j].id
  }

  ghost predicate BucketOk(self: NodeID, bucket: seq<Node>, i: nat) {
    && |bucket| <= BUCKET_SIZE
    && Once(bucket)
    && forall k :: 0 <= k < |bucket| ==> bucket[k].id != self && BucketOf(self, bucket[k].id) == i
  }

  ghost predicate TableOk(self: NodeID, t: Buckets) {
    |t| == NUM_BUCKETS && forall i :: 0 <= i < NUM_BUCKETS ==> BucketOk(self, t[i], i)
  }

  predicate DrawnFrom(r: seq<Node>, bucket: seq<Node>, node: Node) {
    forall k :: 0 <= k < |r| ==> r[k] == node || r[k] in bucket
  }

  lemma MovedShape(bucket: seq<Node>, node: Node, k: nat)
    requires Once(bucket) && k < |bucket| && bucket[k].id == node.id
    ensures var r := bucket[..k] + bucket[k + 1..] + [node]; Once(r) && |r| == |bucket| && DrawnFrom(r, bucket, node)
  {
    var r, n := bucket[..k] + bucket[k + 1..] + [node], |bucket| - 1;
    forall i | 0 <= i < n
      ensures r[i] in bucket && r[i].id != node.id
    {
      assert r[i] == bucket[if i < k then i else i + 1];
    }
    forall i, j | 0 <= i < j < n
      ensures r[i].id != r[j].id
    {
      assert r[i] == bucket[if i < k then i else i + 1] && r[j] == bucket[if j < k then j else j + 1];
    }
  }

  lemma SeenShape(bucket: seq<Node>, node: Node)
    requires Once(bucket) && |bucket| <= BUCKET_SIZE
    ensures var r := Seen(bucket, node); Once(r) && |bucket| <= |r| <= BUCKET_SIZE && DrawnFrom(r, bucket, node)
  {
    var k := Find(bucket, node.id);
    if k < |bucket| {
      MovedShape(bucket, node, k);
    }
  }

  lemma SeenKeepsOk(self: NodeID, bucket: seq<Node>, node: Node, i: nat)
    requires BucketOk(self, bucket, i) && node.id != self && BucketOf(self, node.id) == i
    ensures BucketOk(self, Seen(bucket, node), i)
  {
    SeenShape(bucket, node);
  }

  /** Every table that Add can build has every node in the bucket of its prefix, once, and never ourselves. */
  lemma {:induction false} TableKeepsOk(self: NodeID, adds: seq<Node>)
    ensures TableOk(self, Table(self, adds))
  {
    if adds != [] {
      var node := adds[|adds| - 1];
      TableKeepsOk(self, adds[..|adds| - 1]);
      if node.id != self {
        SeenKeepsOk(self, Table(self, adds[..|adds| - 1])[BucketOf(self, node.id)], node, BucketOf(self, node.id));
      }
    }
  }

  /** The nodes of a higher bucket are all strictly closer to ourselves. */
  lemma HigherBucketCloser(self: NodeID, t: Buckets, i: nat, j: nat, a: Node, b: Node)
    requires TableOk(self, t) && i < j < NUM_BUCKETS && a in t[i] && b in t[j]
    ensures Distance(self, b.id) < Distance(self, a.id)
  {
    WholePrefix(self, a.id);
    WholePrefix(self, b.id);
    assert BucketOk(self, t[i], i) && BucketOk(self, t[j], j);
    LongerPrefixCloser(self, a.id, b.id);
  }

  // ----- Contents

  /** The IDs of bucket i in the order in which they were first seen. */
  function Firsts(self: NodeID, adds: seq<Node>, i: nat): (ids: seq<NodeID>)
    ensures Distinct(ids)
    ensures forall x :: x in ids ==> x != self && BucketOf(self, x) == i
  {
    if adds == [] then []
    else
      var ids := Firsts(self, adds[..|adds| - 1], i);
      var x := adds[|adds| - 1].id;
      if x != self && BucketOf(self, x) == i && x !in ids then ids + [x] else ids
  }

  /** One more than the position of the last Add of an ID, or 0. */
  function Recent(adds: seq<Node>, id: NodeID): (r: nat)
    ensures r <= |adds|
    ensures r > 0 ==> adds[r - 1].id == id
  {
    if adds == [] then 0
    else if adds[|adds| - 1].id == id then |adds|
    else Recent(adds[..|adds| - 1], id)
  }

  /** There is no later Add of it. */
  lemma {:induction false} RecentIsLast(adds: seq<Node>, id: NodeID, k: nat)
    requires Recent(adds, id) <= k < |adds|
    ensures adds[k].id != id
  {
    if k < |adds| - 1 {
      RecentIsLast(adds[..|adds| - 1], id, k);
    }
  }

  predicate AsLastSeen(n: Node, adds: seq<Node>) {
    Recent(adds, n.id) > 0 && n == adds[Recent(adds, n.id) - 1]
  }

  /** The most recently added node is last. */
  ghost predicate ByRecency(bucket: seq<Node>, adds: seq<Node>) {
    forall k, l :: 0 <= k < l < |bucket| ==> Recent(adds, bucket[k].id) < Recent(adds, bucket[l].id)
  }

  /** Every node is as its last Add gave it, and in the order of those. */
  ghost predicate Latest(bucket: seq<Node>, adds: seq<Node>) {
    (forall k :: 0 <= k < |bucket| ==> AsLastSeen(bucket[k], adds)) && ByRecency(bucket, adds)
  }

  /** The bucket holds the first 8 IDs there were for it. */
  ghost predicate Admits(bucket: seq<Node>, firsts: seq<NodeID>) {
    forall x :: x in Ids(bucket) <==> x in Take(firsts, BUCKET_SIZE)
  }

  lemma OnceDistinct(bucket: seq<Node>)
    requires Once(bucket)
    ensures Distinct(Ids(bucket))
  {
  }

  lemma AdmitsCount(bucket: seq<Node>, firsts: seq<NodeID>)
    requires Once(bucket) && Distinct(firsts) && Admits(bucket, firsts)
    ensures |bucket| == |Take(firsts, BUCKET_SIZE)|
  {
    var t := Take(firsts, BUCKET_SIZE);
    assert Distinct(t);
    OnceDistinct(bucket);
    Pigeonhole(Ids(bucket), t);
    Pigeonhole(t, Ids(bucket));
  }

  lemma SeenAdmits(bucket: seq<Node>, node: Node, firsts: seq<NodeID>)
    requires Once(bucket) && Distinct(firsts) && Admits(bucket, firsts)
    ensures Admits(Seen(bucket, node), if node.id in firsts then firsts else firsts + [node.id])
  {
    AdmitsCount(bucket, firsts);
    var k := Find(bucket, node.id);
    if k < |bucket| {
      assert Ids(bucket)[k] == node.id;
      assert node.id in Take(firsts, BUCKET_SIZE);
      assert node.id in firsts;
      MovedIds(bucket, node, k);
    } else {
      assert node.id !in Ids(bucket);
      assert Ids(bucket + [node]) == Ids(bucket) + [node.id];
      assert |firsts| < BUCKET_SIZE ==> Take(firsts, BUCKET_SIZE) == firsts;
      assert |firsts| >= BUCKET_SIZE ==> Take(firsts + [node.id], BUCKET_SIZE) == Take(firsts, BUCKET_SIZE);
    }
  }

  lemma MovedIds(bucket: seq<Node>, node: Node, k: nat)
    requires k < |bucket| && bucket[k].id == node.id
    ensures forall x :: x in Ids(bucket[..k] + bucket[k + 1..] + [node]) <==> x in Ids(bucket)
  {
    var ids := Ids(bucket);
    assert ids == ids[..k] + [ids[k]] + ids[k + 1..];
    assert Ids(bucket[..k] + bucket[k + 1..] + [node]) == ids[..k] + ids[k + 1..] + [node.id];
  }

  lemma RecentStep(adds: seq<Node>, node: Node, id: NodeID)
    ensures Recent(adds + [node], id) == if node.id == id then |adds| + 1 else Recent(adds, id)
  {
    assert (adds + [node])[..|adds|] == adds;
  }

  /** A node that is not in the bucket, and does not get into it, changes nothing there. */
  lemma LatestKept(bucket: seq<Node>, adds: seq<Node>, node: Node)
    requires Latest(bucket, adds) && forall k :: 0 <= k < |bucket| ==> bucket[k].id != node.id
    ensures Latest(bucket, adds + [node])
  {
    forall k | 0 <= k < |bucket|
      ensures Recent(adds + [node], bucket[k].id) == Recent(adds, bucket[k].id)
    {
      RecentStep(adds, node, bucket[k].id);
    }
  }

  lemma LatestAppended(bucket: seq<Node>, adds: seq<Node>, node: Node)
    requires Latest(bucket, adds) && forall k :: 0 <= k < |bucket| ==> bucket[k].id != node.id
    ensures Latest(bucket + [node], adds + [node])
  {
    LatestKept(bucket, adds, node);
    RecentStep(adds, node, node.id);
    forall k | 0 <= k < |bucket|
      ensures Recent(adds + [node], bucket[k].id) <= |adds|
    {
      RecentStep(adds, node, bucket[k].id);
    }
    LatestExtends(bucket, adds + [node], node);
  }

  lemma LatestExtends(bucket: seq<Node>, adds: seq<Node>, node: Node)
    requires Latest(bucket, adds) && AsLastSeen(node, adds)
    requires forall k :: 0 <= k < |bucket| ==> Recent(adds, bucket[k].id) < Recent(adds, node.id)
    ensures Latest(bucket + [node], adds)
  {
    var r := bucket + [node];
    forall k, l | 0 <= k < l < |r|
      ensures Recent(adds, r[k].id) < Recent(adds, r[l].id)
    {
      assert l < |bucket| ==> Recent(adds, bucket[k].id) < Recent(adds, bucket[l].id);
    }
  }

  lemma LatestWithout(bucket: seq<Node>, adds: seq<Node>, k: nat)
    requires Latest(bucket, adds) && k < |bucket|
    ensures Latest(bucket[..k] + bucket[k + 1..], adds)
  {
  }

  lemma SeenLatest(bucket: seq<Node>, adds: seq<Node>, node: Node)
    requires Latest(bucket, adds) && Once(bucket)
    ensures Latest(Seen(bucket, node), adds + [node])
  {
    var k := Find(bucket, node.id);
    if k < |bucket| {
      var rest := bucket[..k] + bucket[k + 1..];
      LatestWithout(bucket, adds, k);
      LatestAppended(rest, adds, node);
    } else {
      LatestKept(bucket, adds, node);
      LatestAppended(bucket, adds, node);
    }
  }

  /**
   * What the table remembers of any history: in each bucket the first 8 IDs there were for it, each as it
   * was last seen, the most recently seen last.
   */
  lemma {:induction false} TableRemembers(self: NodeID, adds: seq<Node>, i: nat)
    requires i < NUM_BUCKETS
    ensures Admits(Table(self, adds)[i], Firsts(self, adds, i))
    ensures Latest(Table(self, adds)[i], adds)
  {
    if adds != [] {
      var before, node := adds[..|adds| - 1], adds[|adds| - 1];
      assert adds == before + [node];
      TableRemembers(self, before, i);
      TableKeepsOk(self, before);
      var bucket := Table(self, before)[i];
      assert BucketOk(self, bucket, i);
      if node.id != self && BucketOf(self, node.id) == i {
        SeenAdmits(bucket, node, Firsts(self, before, i));
        SeenLatest(bucket, before, node);
      } else {
        LatestKept(bucket, before, node);
      }
    }
  }

  // ----- All nodes

  function Flatten(t: Buckets): seq<Node> {
    if t == [] then [] else Flatten(t[..|t| - 1]) + t[|t| - 1]
  }

  ghost function TableIds(t: Buckets): set<NodeID> {
    set i, k | 0 <= i < |t| && 0 <= k < |t[i]| :: t[i][k].id
  }

  lemma {:induction false} FlattenElements(t: Buckets, n: Node)
    ensures n in Flatten(t) <==> exists i :: 0 <= i < |t| && n in t[i]
  {
    if t != [] {
      FlattenElements(t[..|t| - 1], n);
      assert forall i :: 0 <= i < |t| - 1 ==> t[..|t| - 1][i] == t[i];
    }
  }

  /** The first n buckets hold every ID once. */
  lemma {:induction false} FlattenOnce(self: NodeID, t: Buckets, n: nat)
    requires TableOk(self, t) && n <= NUM_BUCKETS
    ensures Once(Flatten(t[..n]))
    ensures forall k :: 0 <= k < |Flatten(t[..n])| ==> BucketOf(self, Flatten(t[..n])[k].id) < n
  {
    if n > 0 {
      FlattenOnce(self, t, n - 1);
      assert t[..n][..n - 1] == t[..n - 1];
      assert BucketOk(self, t[n - 1], n - 1);
    }
  }

  lemma FlatIds(t: Buckets)
    ensures Elements(Ids(Flatten(t))) == TableIds(t)
  {
    var all := Flatten(t);
    IdsHold(all);
    forall x | x in Ids(all)
      ensures x in TableIds(t)
    {
      var k :| 0 <= k < |all| && all[k].id == x;
      FlattenElements(t, all[k]);
    }
    forall i, k | 0 <= i < |t| && 0 <= k < |t[i]|
      ensures t[i][k].id in Ids(all)
    {
      FlattenElements(t, t[i][k]);
    }
  }

  /** No two nodes of the table have the same ID, and the flat list holds exactly the table. */
  lemma FlatTable(self: NodeID, t: Buckets)
    requires TableOk(self, t)
    ensures Distinct(Ids(Flatten(t))) && Elements(Ids(Flatten(t))) == TableIds(t)
    ensures |Flatten(t)| == |TableIds(t)|
  {
    assert t[..NUM_BUCKETS] == t;
    FlattenOnce(self, t, NUM_BUCKETS);
    OnceDistinct(Flatten(t));
    ElementCount(Ids(Flatten(t)));
    FlatIds(t);
  }
}
