/** The encoder's loops: key collection, in-place sort, output. */
module BencodeEncoder {
  import opened Bytes
  import opened Bencode
  import opened BencodeText

  predicate Leq(a: Bytes, b: Bytes) {
    a == b || Less(a, b)
  }

  lemma LeqTransitive(a: Bytes, b: Bytes, c: Bytes)
    requires Leq(a, b) && Leq(b, c)
    ensures Leq(a, c)
  {
    if a != b && b != c {
      LessTransitive(a, b, c);
    }
  }

  /** Positions x < y up to i are in order, except possibly those that involve j. */
  predicate OrderedBut(s: seq<Bytes>, i: nat, j: nat)
    requires i < |s|
  {
    forall x, y :: 0 <= x < y <= i && x != j && y != j ==> Leq(s[x], s[y])
  }

  /** All are in order but element j, which is no larger than those after it. */
  predicate Sinking(s: seq<Bytes>, i: nat, j: nat)
    requires j <= i < |s|
  {
    OrderedBut(s, i, j) && forall y :: j < y <= i ==> Leq(s[j], s[y])
  }

  predicate Ordered(s: seq<Bytes>, n: nat)
    requires n <= |s|
  {
    forall x, y :: 0 <= x < y < n ==> Leq(s[x], s[y])
  }

  /** One swap of the inner loop carries the small element down and leaves the rest in order. */
  lemma SwapStep(s: seq<Bytes>, i: nat, j: nat)
    requires 0 < j <= i < |s| && Sinking(s, i, j) && Less(s[j], s[j - 1])
    ensures Sinking(s[j - 1 := s[j]][j := s[j - 1]], i, j - 1)
  {
  }

  /** When the element is no smaller than its left neighbour, all is in order. */
  lemma Settled(s: seq<Bytes>, i: nat, j: nat)
    requires j <= i < |s| && Sinking(s, i, j) && (j > 0 ==> !Less(s[j], s[j - 1]))
    ensures Ordered(s, i + 1)
  {
    if j > 0 {
      LessTotal(s[j], s[j - 1]);
      forall x | 0 <= x < j
        ensures Leq(s[x], s[j])
      {
        if x < j - 1 {
          LeqTransitive(s[x], s[j - 1], s[j]);
        }
      }
    }
  }

  /** sortStrings: insertion by swaps, in place. */
  method SortStrings(a: array<Bytes>)
    modifies a
    ensures Ordered(a[..], a.Length)
    ensures multiset(a[..]) == multiset(old(a[..]))
  {
    var i := 1;
    while i < a.Length
      invariant 1 <= i && (i <= a.Length || a.Length == 0)
      invariant a.Length > 0 ==> Ordered(a[..], i)
      invariant multiset(a[..]) == multiset(old(a[..]))
    {
      Sink(a, i);
      i := i + 1;
    }
  }

  /** The inner loop: element i is carried down to its place. */
  method Sink(a: array<Bytes>, i: nat)
    requires 0 < i < a.Length && Ordered(a[..], i)
    modifies a
    ensures Ordered(a[..], i + 1) && multiset(a[..]) == multiset(old(a[..]))
  {
    var j := i;
    while j > 0 && Less(a[j], a[j - 1])
      invariant 0 <= j <= i < a.Length && Sinking(a[..], i, j)
      invariant multiset(a[..]) == multiset(old(a[..]))
    {
      SwapStep(a[..], i, j);
      ghost var s := a[..];
      a[j - 1], a[j] := a[j], a[j - 1];
      assert a[..] == s[j - 1 := s[j]][j := s[j - 1]];
      j := j - 1;
    }
    Settled(a[..], i, j);
  }

  /** All keys of the map in the order the map happens to give them, then sorted. */
  method CollectKeys(m: map<Bytes, Value>) returns (keys: array<Bytes>)
    ensures fresh(keys) && keys[..] == SortedKeys(m.Keys)
  {
    var found: seq<Bytes> := [];
    var left := m.Keys;
    while left != {}
      invariant left <= m.Keys
      invariant forall k :: k in found <==> k in m.Keys - left
      invariant forall i, j :: 0 <= i < j < |found| ==> found[i] != found[j]
      decreases |left|
    {
      var k :| k in left;
      assert k !in found;
      found := found + [k];
      left := left - {k};
    }
    keys := new Bytes[|found|](i requires 0 <= i < |found| => found[i]);
    assert keys[..] == found;
    SortStrings(keys);
    SortedIsCanonical(found, keys[..], m.Keys);
  }

  /** Sorting distinct keys gives the canonical order, whatever order they came in. */
  lemma SortedIsCanonical(found: seq<Bytes>, sorted: seq<Bytes>, keys: set<Bytes>)
    requires multiset(sorted) == multiset(found) && Ordered(sorted, |sorted|)
    requires forall i, j :: 0 <= i < j < |found| ==> found[i] != found[j]
    requires forall k :: k in found <==> k in keys
    ensures sorted == SortedKeys(keys)
  {
    forall k
      ensures k in sorted <==> k in found
    {
      assert k in sorted <==> k in multiset(sorted);
      assert k in found <==> k in multiset(found);
    }
    forall i, j | 0 <= i < j < |sorted|
      ensures Less(sorted[i], sorted[j])
    {
      if sorted[i] == sorted[j] {
        TwiceCounted(sorted, i, j);
        OnceCounted(found, sorted[i]);
      }
    }
    AscendingUnique(sorted, SortedKeys(keys));
  }

  lemma TwiceCounted(s: seq<Bytes>, i: nat, j: nat)
    requires i < j < |s| && s[i] == s[j]
    ensures multiset(s)[s[i]] >= 2
  {
    assert s == s[..j] + s[j..];
    assert s[..j][i] in s[..j] && s[j..][0] in s[j..];
  }

  lemma {:induction false} OnceCounted(s: seq<Bytes>, k: Bytes)
    requires forall i, j :: 0 <= i < j < |s| ==> s[i] != s[j]
    ensures multiset(s)[k] <= 1
  {
    if s != [] {
      var init, last := s[..|s| - 1], s[|s| - 1];
      assert s == init + [last];
      OnceCounted(init, k);
      assert last !in init;
      assert multiset(init)[last] == 0;
    }
  }

  /** encodeBencode: the text does not depend on the order in which the map is iterated. */
  method EncodeBencode(v: Value) returns (text: Bytes)
    ensures text == Encode(v)
    decreases v, 1
  {
    match v
    case Str(s) => text := EncodeString(s);
    case Int(n) => text := [INTEGER] + Itoa(n) + [END];
    case List(items) =>
      var body := EncodeAll(items);
      text := [LIST] + body + [END];
    case Dict(m) =>
      var keys := CollectKeys(m);
      var body := EncodePairs(v, keys[..]);
      text := [DICT] + body + [END];
  }

  lemma {:induction false} ItemsAppend(items: seq<Value>, v: Value)
    ensures EncodeItems(items + [v]) == EncodeItems(items) + Encode(v)
  {
    if items == [] {
      assert (items + [v])[1..] == [];
      assert Encode(v) + [] == Encode(v);
    } else {
      ItemsAppend(items[1..], v);
      assert (items + [v])[1..] == items[1..] + [v];
      Associative(Encode(items[0]), EncodeItems(items[1..]), Encode(v));
    }
  }

  method EncodeAll(items: seq<Value>) returns (text: Bytes)
    ensures text == EncodeItems(items)
    decreases items, 0
  {
    text := [];
    for k := 0 to |items|
      invariant text == EncodeItems(items[..k])
    {
      var item := EncodeBencode(items[k]);
      ItemsAppend(items[..k], items[k]);
      assert items[..k + 1] == items[..k] + [items[k]];
      text := text + item;
    }
    assert items[..|items|] == items;
  }

  lemma {:induction false} PairsAppend(d: Value, ks: seq<Bytes>, k: Bytes)
    requires d.Dict? && k in d.entries && forall x :: x in ks ==> x in d.entries
    ensures EncodeEntries(d, ks + [k]) == EncodeEntries(d, ks) + EncodeString(k) + Encode(d.entries[k])
  {
    if ks == [] {
      assert (ks + [k])[1..] == [];
    } else {
      assert ks[0] in ks;
      PairsAppend(d, ks[1..], k);
      assert (ks + [k])[1..] == ks[1..] + [k];
    }
  }

  method EncodePairs(d: Value, ks: seq<Bytes>) returns (text: Bytes)
    requires d.Dict? && forall k :: k in ks ==> k in d.entries
    ensures text == EncodeEntries(d, ks)
    decreases d, 0
  {
    text := [];
    for i := 0 to |ks|
      invariant forall k :: k in ks[..i] ==> k in d.entries
      invariant text == EncodeEntries(d, ks[..i])
    {
      assert ks[i] in ks;
      var value := EncodeBencode(d.entries[ks[i]]);
      PairsAppend(d, ks[..i], ks[i]);
      assert ks[..i + 1] == ks[..i] + [ks[i]];
      text := text + EncodeString(ks[i]);
      text := text + value;
    }
    assert ks[..|ks|] == ks;
  }
}
