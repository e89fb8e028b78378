/** GetPeers as the client executes it, against any network: what each query of each round brings is a parameter. */
module DhtClient {
  import opened Bytes
  import opened NodeDistance
  import opened Closest
  import opened NodeSort
  import opened PeerValues
  import opened RoutingModel
  import opened RoutingTableClass
  import opened Lookup

  method ParsePeerValues(data: Bytes) returns (peers: seq<Peer>)
    ensures peers == PeersOfValue(data) && |peers| == |data| / 6
    ensures forall k :: 0 <= k < |peers| ==> IsPeer(data, k, peers[k])
  {
    ValueFields(data);
    peers := [];
    var i := 0;
    while i + 6 <= |data|
      invariant i <= |data| && peers + PeersOfValue(data[i..]) == PeersOfValue(data)
      decreases |data| - i
    {
      var rest := data[i..];
      assert rest[..4] == data[i..i + 4] && rest[4..6] == data[i + 4..i + 6] && rest[6..] == data[i + 6..];
      var p := Peer(data[i..i + 4], BigEndian(data[i + 4..i + 6]));
      assert PeersOfValue(rest) == [p] + PeersOfValue(data[i + 6..]);
      peers := peers + [p];
      i := i + 6;
    }
  }

  method CollectPeers(values: seq<Bytes>) returns (peers: seq<Peer>)
    ensures peers == PeersOfValues(values)
  {
    peers := [];
    for i := 0 to |values|
      invariant peers == PeersOfValues(values[..i])
    {
      var found := ParsePeerValues(values[i]);
      assert values[..i + 1][..i] == values[..i];
      peers := peers + found;
    }
    assert values[..|values|] == values;
  }

  /** The closest ALPHA candidates that have not been queried yet. */
  method NextToQuery(candidates: seq<Node>, queried: set<NodeID>) returns (toQuery: seq<Node>)
    ensures toQuery == Pick(candidates, queried, ALPHA)
  {
    toQuery := [];
    for i := 0 to |candidates|
      invariant |toQuery| < ALPHA
      invariant toQuery + Pick(candidates[i..], queried, ALPHA - |toQuery|) == Pick(candidates, queried, ALPHA)
    {
      PickNext(candidates, queried, i, ALPHA - |toQuery|);
      if candidates[i].id !in queried {
        Associative(toQuery, [candidates[i]], Pick(candidates[i + 1..], queried, ALPHA - |toQuery| - 1));
        toQuery := toQuery + [candidates[i]];
        if |toQuery| == ALPHA {
          break;
        }
      }
    }
  }

  lemma PickNext(cands: seq<Node>, queried: set<NodeID>, i: nat, k: nat)
    requires i < |cands| && k > 0
    ensures Pick(cands[i..], queried, k) ==
            if cands[i].id in queried then Pick(cands[i + 1..], queried, k)
            else [cands[i]] + Pick(cands[i + 1..], queried, k - 1)
  {
    assert cands[i..][1..] == cands[i + 1..];
  }

  method Present(candidates: seq<Node>, id: NodeID) returns (found: bool)
    ensures found <==> id in Ids(candidates)
  {
    found := false;
    for i := 0 to |candidates|
      invariant !found && id !in Ids(candidates)[..i]
    {
      if candidates[i].id == id {
        assert Ids(candidates)[i] == id;
        return true;
      }
      assert Ids(candidates)[..i + 1] == Ids(candidates)[..i] + [candidates[i].id];
    }
    assert Ids(candidates)[..|candidates|] == Ids(candidates);
  }

  lemma HearStep(h: Heard, asked: seq<Node>, answers: seq<Answer>, a: Answer)
    requires |answers| < |asked|
    ensures HearAll(h, asked, answers + [a]) == Hear(HearAll(h, asked, answers), asked[|answers|], a)
  {
    assert (answers + [a])[..|answers|] == answers;
  }

  lemma QueriedStep(asked: seq<Node>, q: nat)
    requires q < |asked|
    ensures Elements(Ids(asked[..q + 1])) == Elements(Ids(asked[..q])) + {asked[q].id}
  {
    assert Ids(asked[..q + 1]) == Ids(asked[..q]) + [asked[q].id];
    ElementsAppend(Ids(asked[..q]), asked[q].id);
  }

  class DHT {
    const routingTable: RoutingTable

    constructor (routingTable: RoutingTable)
      ensures this.routingTable == routingTable
    {
      this.routingTable := routingTable;
    }

    method AddNodes(candidates0: seq<Node>, nodes: seq<Node>) returns (candidates: seq<Node>, newNodesFound: bool)
      requires routingTable.Valid()
      modifies routingTable
      ensures routingTable.Valid() && routingTable.history == old(routingTable.history) + nodes
      ensures candidates == Grow(candidates0, nodes)
      ensures newNodesFound <==> |candidates| > |candidates0|
    {
      candidates, newNodesFound := candidates0, false;
      for i := 0 to |nodes|
        invariant routingTable.Valid() && routingTable.history == old(routingTable.history) + nodes[..i]
        invariant candidates == Grow(candidates0, nodes[..i]) && |candidates| >= |candidates0|
        invariant newNodesFound <==> |candidates| > |candidates0|
      {
        assert nodes[..i + 1] == nodes[..i] + [nodes[i]];
        routingTable.Add(nodes[i]);
        var found := Present(candidates, nodes[i].id);
        if !found {
          candidates := candidates + [nodes[i]];
          newNodesFound := true;
        }
      }
      assert nodes[..|nodes|] == nodes;
    }

    /** One query and what its answer changes. */
    method Query(candidates0: seq<Node>, peers0: seq<Peer>, node: Node, resp: Answer)
      returns (candidates: seq<Node>, peers: seq<Peer>, newNodesFound: bool)
      requires routingTable.Valid()
      modifies routingTable
      ensures routingTable.Valid()
      ensures Heard(candidates, peers, routingTable.history) ==
              Hear(Heard(candidates0, peers0, old(routingTable.history)), node, resp)
      ensures |candidates| >= |candidates0| && (newNodesFound <==> |candidates| > |candidates0|)
    {
      candidates, newNodesFound, peers := candidates0, false, peers0;
      if resp.None? {
        return;
      }
      routingTable.Add(Node(resp.value.id, node.addr));
      var more := CollectPeers(resp.value.values);
      peers := peers + more;
      GrowExtends(candidates, resp.value.nodes);
      Associative(old(routingTable.history), [Node(resp.value.id, node.addr)], resp.value.nodes);
      candidates, newNodesFound := AddNodes(candidates, resp.value.nodes);
    }

    /** The queries of one round. */
    method QueryAll(candidates0: seq<Node>, peers0: seq<Peer>, toQuery: seq<Node>, queried0: set<NodeID>,
                    network: seq<Answer>)
      returns (candidates: seq<Node>, peers: seq<Peer>, queried: set<NodeID>, newNodesFound: bool)
      requires routingTable.Valid() && |toQuery| <= |network|
      modifies routingTable
      ensures routingTable.Valid()
      ensures Heard(candidates, peers, routingTable.history)
           == HearAll(Heard(candidates0, peers0, old(routingTable.history)), toQuery, network[..|toQuery|])
      ensures newNodesFound <==> |candidates| > |candidates0|
      ensures queried == queried0 + Elements(Ids(toQuery))
    {
      candidates, peers, queried, newNodesFound := candidates0, peers0, queried0, false;
      ghost var h := Heard(candidates0, peers0, routingTable.history);
      for q := 0 to |toQuery|
        invariant routingTable.Valid()
        invariant Heard(candidates, peers, routingTable.history) == HearAll(h, toQuery, network[..q])
        invariant |candidates| >= |candidates0| && (newNodesFound <==> |candidates| > |candidates0|)
        invariant queried == queried0 + Elements(Ids(toQuery[..q]))
      {
        HearStep(h, toQuery, network[..q], network[q]);
        assert network[..q + 1] == network[..q] + [network[q]];
        QueriedStep(toQuery, q);
        queried := queried + {toQuery[q].id};
        var found;
        candidates, peers, found := Query(candidates, peers, toQuery[q], network[q]);
        newNodesFound := newNodesFound || found;
      }
      assert toQuery[..|toQuery|] == toQuery;
    }

    /**
     * The iterative lookup. network[i][q] is what query q of round i brings; the ghost results are the
     * states between the rounds and the answers of each.
     */
    method GetPeers(target: NodeID, network: seq<seq<Answer>>)
      returns (r: Option<seq<Peer>>, ghost states: seq<Search>, ghost answers: seq<seq<Answer>>)
      requires routingTable.Valid()
      requires |network| == MAX_ITERATIONS && forall i :: 0 <= i < MAX_ITERATIONS ==> |network[i]| >= ALPHA
      modifies routingTable
      ensures routingTable.Valid()
      ensures Rounds(From(target), states, answers) && Starts(From(target), states[0])
      ensures states[0].seen == old(TableIds(routingTable.buckets)) && states[0].history == old(routingTable.history)
      ensures FromNetwork(answers, network)
      ensures |answers| < MAX_ITERATIONS ==> StoppedEarly(states, answers)
      ensures routingTable.history == states[|answers|].history
      ensures forall i :: 0 <= i < |answers| - 1 ==> !SettledAt(states, answers, i)
      ensures r == if states[|answers|].peers == [] then None else Some(states[|answers|].peers)
      ensures ListsPeers(AllValues(answers), if r.Some? then r.value else [])
    {
      var candidates := routingTable.FindClosest(target, WIDTH);
      var peers, queried := [], {};
      ghost var s := Search(candidates, [], TableIds(routingTable.buckets), [], routingTable.history);
      states, answers := [s], [];
      if candidates == [] {
        PeersListed(From(target), states, answers);
        return None, states, answers;
      }
      var iter, stop := 0, false;
      while iter < MAX_ITERATIONS && !stop
        invariant 0 <= iter <= MAX_ITERATIONS && routingTable.Valid()
        invariant InProgress(From(target), s, states, answers, network, stop)
        invariant |answers| <= iter && (!stop ==> |answers| == iter)
        invariant AtState(states[|answers|], candidates, peers, queried, routingTable.history)
        decreases MAX_ITERATIONS - iter, if stop then 0 else 1
      {
        candidates, peers, queried, stop, states, answers :=
          Iterate(target, candidates, peers, queried, network, iter, s, states, answers);
        iter := iter + 1;
      }
      PeersListed(From(target), states, answers);
      r := if peers == [] then None else Some(peers);
    }

    /** One iteration: a round, or the end when everybody was queried. */
    method Iterate(target: NodeID, candidates0: seq<Node>, peers0: seq<Peer>, queried0: set<NodeID>,
                   network: seq<seq<Answer>>, iter: nat,
                   ghost s: Search, ghost states0: seq<Search>, ghost answers0: seq<seq<Answer>>)
      returns (candidates: seq<Node>, peers: seq<Peer>, queried: set<NodeID>, stop: bool,
               ghost states: seq<Search>, ghost answers: seq<seq<Answer>>)
      requires routingTable.Valid() && InProgress(From(target), s, states0, answers0, network, false)
      requires |answers0| == iter < MAX_ITERATIONS <= |network| && |network[iter]| >= ALPHA
      requires AtState(states0[iter], candidates0, peers0, queried0, routingTable.history)
      modifies routingTable
      ensures routingTable.Valid() && InProgress(From(target), s, states, answers, network, stop)
      ensures |answers| <= iter + 1 && (!stop ==> |answers| == iter + 1)
      ensures AtState(states[|answers|], candidates, peers, queried, routingTable.history)
    {
      var toQuery := NextToQuery(candidates0, queried0);
      if toQuery == [] {
        return candidates0, peers0, queried0, true, states0, answers0;
      }
      ghost var got := network[iter][..|toQuery|];
      ghost var next;
      candidates, peers, queried, stop,
        next := DoRound(target, candidates0, peers0, queried0, toQuery, network[iter], states0[iter]);
      ProgressExtends(From(target), s, states0, answers0, network, got, next, stop);
      states, answers := states0 + [next], answers0 + [got];
    }

    /** Query, sort and cut. */
    method DoRound(target: NodeID, candidates0: seq<Node>, peers0: seq<Peer>, queried0: set<NodeID>, toQuery: seq<Node>,
                   network: seq<Answer>, ghost state: Search)
      returns (candidates: seq<Node>, peers: seq<Peer>, queried: set<NodeID>, stop: bool, ghost next: Search)
      requires routingTable.Valid() && ALPHA <= |network|
      requires AtState(state, candidates0, peers0, queried0, routingTable.history)
      requires toQuery == Queried(state) && toQuery != []
      modifies routingTable
      ensures routingTable.Valid()
      ensures Round(From(target), state, network[..|toQuery|], next)
      ensures AtState(next, candidates, peers, queried, routingTable.history)
      ensures stop <==> Settled(state, network[..|toQuery|])
    {
      ghost var got := network[..|toQuery|];
      var newNodesFound;
      candidates, peers, queried, newNodesFound := QueryAll(candidates0, peers0, toQuery, queried0, network);
      var sorted := SortByDistance(target, candidates);
      ghost var grown := candidates;
      candidates := if |sorted| > WIDTH then sorted[..WIDTH] else sorted;
      assert candidates == Take(sorted, WIDTH);
      assert SortedCut(From(target), grown, candidates);
      stop := !newNodesFound && |toQuery| < ALPHA;
      NothingNew(state, toQuery, got);
      next := Search(candidates, state.log + Ids(toQuery), state.seen + Elements(Ids(Returned(got))), peers,
        routingTable.history);
      assert Elements(next.log) == Elements(state.log) + Elements(Ids(toQuery));
    }
  }

  /** The answers of each round are the first that the network has for it. */
  predicate FromNetwork(answers: seq<seq<Answer>>, network: seq<seq<Answer>>) {
    |answers| <= |network| && forall i :: 0 <= i < |answers| ==> answers[i] <= network[i]
  }

  ghost predicate AtState(s: Search, candidates: seq<Node>, peers: seq<Peer>, queried: set<NodeID>,
                          history: seq<Node>) {
    s.candidates == candidates && s.peers == peers && Elements(s.log) == queried && s.history == history
  }

  lemma NothingNew(s: Search, asked: seq<Node>, answers: seq<Answer>)
    requires |answers| <= |asked|
    ensures |HearAll(Before(s), asked, answers).candidates| <= |s.candidates| ==>
            Grow(s.candidates, Returned(answers)) == s.candidates
    ensures Grow(s.candidates, Returned(answers)) == s.candidates ==>
            HearAll(Before(s), asked, answers).candidates == s.candidates
  {
    HearAllParts(Before(s), asked, answers);
    GrowExtends(s.candidates, Returned(answers));
  }

  /** The rounds so far, from state s, with what the network answered; and a reason to stop, if it stops. */
  ghost predicate InProgress(dist: NodeID -> nat, s: Search, states: seq<Search>, answers: seq<seq<Answer>>,
                             network: seq<seq<Answer>>, stop: bool)
  {
    && Rounds(dist, states, answers) && states[0] == s && FromNetwork(answers, network)
    && (stop ==> StoppedEarly(states, answers))
    && forall i :: 0 <= i < |answers| - (if stop then 1 else 0) ==> !SettledAt(states, answers, i)
  }

  ghost predicate SettledAt(states: seq<Search>, answers: seq<seq<Answer>>, i: nat) {
    i < |states| && i < |answers| && Settled(states[i], answers[i])
  }

  lemma ProgressExtends(dist: NodeID -> nat, s: Search, states: seq<Search>, answers: seq<seq<Answer>>,
                        network: seq<seq<Answer>>, got: seq<Answer>, next: Search, stop: bool)
    requires InProgress(dist, s, states, answers, network, false) && |answers| < MAX_ITERATIONS <= |network|
    requires Round(dist, states[|answers|], got, next) && got <= network[|answers|] &&
             (stop <==> Settled(states[|answers|], got))
    ensures InProgress(dist, s, states + [next], answers + [got], network, stop)
  {
    RoundsExtend(dist, states, answers, got, next);
    var ss, aa := states + [next], answers + [got];
    forall i | 0 <= i < |answers|
      ensures !SettledAt(ss, aa, i)
    {
      assert !SettledAt(states, answers, i);
    }
  }

  lemma RoundsExtend(dist: NodeID -> nat, states: seq<Search>, answers: seq<seq<Answer>>, got: seq<Answer>,
                     next: Search)
    requires Rounds(dist, states, answers) && |answers| < MAX_ITERATIONS && Round(dist, states[|answers|], got, next)
    ensures Rounds(dist, states + [next], answers + [got])
  {
    var ss, aa := states + [next], answers + [got];
    forall i | 0 <= i < |aa|
      ensures RoundAt(dist, ss, aa, i)
    {
      assert i < |answers| ==> RoundAt(dist, states, answers, i);
    }
  }

  /** What a finished lookup is worth, by XOR distance to the target. */
  lemma LookupOutcome(target: NodeID, states: seq<Search>, answers: seq<seq<Answer>>, i: nat)
    requires Rounds(From(target), states, answers) && Starts(From(target), states[0]) && i <= |answers|
    ensures IsClosest(From(target), Ids(states[i].candidates), states[i].seen, WIDTH)
    ensures Distinct(states[i].log) && |states[i].log| <= 60
    ensures i < |answers| ==>
              IsClosest(From(target), Ids(Queried(states[i])),
                Elements(Ids(states[i].candidates)) - Elements(states[i].log), ALPHA)
    ensures StoppedEarly(states, answers) ==> Complete(From(target), states[|answers|])
  {
    var dist := From(target);
    FromInjective(target);
    EveryRoundOk(dist, states, answers, i);
    AskedIsClosest(dist, states[i]);
    if StoppedEarly(states, answers) {
      Converged(dist, states, answers);
    }
  }
}
