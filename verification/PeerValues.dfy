/** Compact peer lists: six bytes a peer. */
module PeerValues {
  import opened Bytes

  datatype Peer = Peer(ip: Bytes, port: nat)

  /** Six bytes a peer; a shorter remainder is ignored. */
  function PeersOfValue(data: Bytes): seq<Peer> {
    if |data| < 6 then []
    else [Peer(data[..4], BigEndian(data[4..6]))] + PeersOfValue(data[6..])
  }

  function PeersOfValues(values: seq<Bytes>): seq<Peer> {
    if values == [] then []
    else PeersOfValues(values[..|values| - 1]) + PeersOfValue(values[|values| - 1])
  }

  // ----- Byte by byte

  /** p is what bytes 6c to 6c + 5 of the value say: four of address, and a port, most significant byte first. */
  predicate IsPeer(v: Bytes, c: nat, p: Peer) {
    && 6 * c + 6 <= |v|
    && p.ip == v[6 * c..6 * c + 4] && p.port == v[6 * c + 4] as int * 256 + v[6 * c + 5] as int
  }

  lemma {:induction false} ValueFields(data: Bytes)
    ensures var peers := PeersOfValue(data);
            |peers| == |data| / 6 && forall k :: 0 <= k < |peers| ==> IsPeer(data, k, peers[k])
  {
    if |data| >= 6 {
      ValueFields(data[6..]);
      Uint16Is(data[4..6]);
      forall k | 1 <= k < |PeersOfValue(data)|
        ensures IsPeer(data, k, PeersOfValue(data)[k])
      {
        LaterPeer(data, k, PeersOfValue(data)[k]);
      }
    }
  }

  lemma LaterPeer(data: Bytes, k: nat, p: Peer)
    requires |data| >= 6 && k > 0 && IsPeer(data[6..], k - 1, p)
    ensures IsPeer(data, k, p)
  {
    assert data[6..][6 * (k - 1)..6 * (k - 1) + 4] == data[6 * k..6 * k + 4];
  }

  /** How many peers the first n values hold. */
  function CountIn(values: seq<Bytes>, n: nat): nat
    requires n <= |values|
  {
    if n == 0 then 0 else CountIn(values, n - 1) + |values[n - 1]| / 6
  }

  /** The peer of bytes 6c to 6c + 5 of value j comes after those of the values before and the c before it. */
  ghost predicate InPlace(values: seq<Bytes>, peers: seq<Peer>, j: nat, c: nat)
    requires j < |values|
  {
    CountIn(values, j) + c < |peers| && IsPeer(values[j], c, peers[CountIn(values, j) + c])
  }

  /** The peers are those of the values, one every six bytes, in order and with nothing else in between. */
  ghost predicate ListsPeers(values: seq<Bytes>, peers: seq<Peer>) {
    && |peers| == CountIn(values, |values|)
    && forall j: nat, c: nat :: j < |values| && c < |values[j]| / 6 ==> InPlace(values, peers, j, c)
  }

  lemma {:induction false} CountPrefix(values: seq<Bytes>, more: seq<Bytes>, n: nat)
    requires n <= |values|
    ensures CountIn(values + more, n) == CountIn(values, n)
  {
    if n > 0 {
      CountPrefix(values, more, n - 1);
    }
  }

  lemma {:induction false} ValuesList(values: seq<Bytes>)
    ensures ListsPeers(values, PeersOfValues(values))
  {
    if values != [] {
      var init, v := values[..|values| - 1], values[|values| - 1];
      ValuesList(init);
      ValueFields(v);
      assert init + [v] == values;
      OneMoreValue(init, v, PeersOfValues(init), PeersOfValue(v));
    }
  }

  lemma OneMoreValue(values: seq<Bytes>, v: Bytes, peers: seq<Peer>, more: seq<Peer>)
    requires ListsPeers(values, peers)
    requires |more| == |v| / 6 && forall k :: 0 <= k < |more| ==> IsPeer(v, k, more[k])
    ensures ListsPeers(values + [v], peers + more)
  {
    var all := values + [v];
    CountPrefix(values, [v], |values|);
    forall j: nat, c: nat | j < |all| && c < |all[j]| / 6
      ensures InPlace(all, peers + more, j, c)
    {
      if j < |values| {
        CountPrefix(values, [v], j);
        assert InPlace(values, peers, j, c);
      }
    }
  }
}
