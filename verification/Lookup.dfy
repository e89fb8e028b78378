/** The iterative lookup of GetPeers, round by round, for any behaviour of the network. */
module Lookup {
  import opened Bytes
  import opened Sorting
  import opened NodeDistance
  import opened Closest
  import opened NodeSort
  import opened PeerValues

  const ALPHA: nat := 3
  const MAX_ITERATIONS: nat := 20
  const WIDTH: nat := 20

  datatype Response = Response(id: NodeID, nodes: seq<Node>, values: seq<Bytes>)

  /** What a query brought: a response, or nothing when sending or reading failed. */
  type Answer = Option<Response>

  // ----- One round

  /** The first k candidates that were not queried. */
  function Pick(cands: seq<Node>, queried: set<NodeID>, k: nat): (r: seq<Node>)
    ensures |r| <= k
  {
    if cands == [] || k == 0 then []
    else if cands[0].id in queried then Pick(cands[1..], queried, k)
    else [cands[0]] + Pick(cands[1..], queried, k - 1)
  }

  /** Nodes appended unless their ID is there already. */
  function Grow(cands: seq<Node>, nodes: seq<Node>): seq<Node> {
    if nodes == [] then cands
    else
      var c, n := Grow(cands, nodes[..|nodes| - 1]), nodes[|nodes| - 1];
      if n.id in Ids(c) then c else c + [n]
  }

  function NodesOf(a: Answer): seq<Node> {
    if a.Some? then a.value.nodes else []
  }

  /** The nodes returned in a round, in order. */
  function Returned(answers: seq<Answer>): seq<Node> {
    if answers == [] then [] else Returned(answers[..|answers| - 1]) + NodesOf(answers[|answers| - 1])
  }

  // ----- What else the answers leave

  function PeersOf(a: Answer): seq<Peer> {
    if a.Some? then PeersOfValues(a.value.values) else []
  }

  /** The peers in the answers, in order. */
  function PeersIn(answers: seq<Answer>): seq<Peer> {
    if answers == [] then [] else PeersIn(answers[..|answers| - 1]) + PeersOf(answers[|answers| - 1])
  }

  /** What one answer adds to the routing table: the responding node, and the nodes it returned. */
  function Sighted(node: Node, a: Answer): seq<Node> {
    if a.Some? then [Node(a.value.id, node.addr)] + a.value.nodes else []
  }

  /** What answers change: the candidates, the peers found, the history of the routing table. */
  datatype Heard = Heard(candidates: seq<Node>, peers: seq<Peer>, history: seq<Node>)

  function Hear(h: Heard, node: Node, a: Answer): Heard {
    Heard(Grow(h.candidates, NodesOf(a)), h.peers + PeersOf(a), h.history + Sighted(node, a))
  }

  function HearAll(h: Heard, asked: seq<Node>, answers: seq<Answer>): Heard
    requires |answers| <= |asked|
  {
    if answers == [] then h
    else var n := |answers| - 1; Hear(HearAll(h, asked, answers[..n]), asked[n], answers[n])
  }

  lemma {:induction false} HearAllParts(h: Heard, asked: seq<Node>, answers: seq<Answer>)
    requires |answers| <= |asked|
    ensures HearAll(h, asked, answers).candidates == Grow(h.candidates, Returned(answers))
    ensures HearAll(h, asked, answers).peers == h.peers + PeersIn(answers)
  {
    if answers != [] {
      var before, a := answers[..|answers| - 1], answers[|answers| - 1];
      HearAllParts(h, asked, before);
      GrowTwice(h.candidates, Returned(before), NodesOf(a));
    }
  }

  // ----- Rounds

  /** The search between rounds; log lists the queries in order, seen every ID that was ever a candidate or returned. */
  datatype Search = Search(candidates: seq<Node>, log: seq<NodeID>, seen: set<NodeID>, peers: seq<Peer>,
    history: seq<Node>)

  function Before(s: Search): Heard {
    Heard(s.candidates, s.peers, s.history)
  }

  ghost function Queried(s: Search): seq<Node> {
    Pick(s.candidates, Elements(s.log), ALPHA)
  }

  ghost predicate SortedCut(dist: NodeID -> nat, ns: seq<Node>, r: seq<Node>) {
    exists sorted :: multiset(sorted) == multiset(ns) && Sorted(dist, sorted) && r == Take(sorted, WIDTH)
  }

  /** One iteration that queries somebody. */
  ghost predicate Round(dist: NodeID -> nat, s: Search, answers: seq<Answer>, next: Search) {
    && Queried(s) != [] && |answers| == |Queried(s)|
    && next.log == s.log + Ids(Queried(s))
    && next.seen == s.seen + Elements(Ids(Returned(answers)))
    && var heard := HearAll(Before(s), Queried(s), answers);
       SortedCut(dist, heard.candidates, next.candidates) && next.peers == heard.peers && next.history == heard.history
  }

  /** All candidates queried: the first way to stop early. */
  ghost predicate Exhausted(s: Search) {
    Queried(s) == []
  }

  /** Nothing was appended and there were not even ALPHA to ask: the second way. */
  ghost predicate Settled(s: Search, answers: seq<Answer>) {
    Grow(s.candidates, Returned(answers)) == s.candidates && |Queried(s)| < ALPHA
  }

  /** The candidates only grow at the end. */
  lemma {:induction false} GrowExtends(cands: seq<Node>, nodes: seq<Node>)
    ensures |cands| <= |Grow(cands, nodes)| && Grow(cands, nodes)[..|cands|] == cands
  {
    if nodes != [] {
      GrowExtends(cands, nodes[..|nodes| - 1]);
    }
  }

  lemma {:induction false} GrowTwice(cands: seq<Node>, first: seq<Node>, second: seq<Node>)
    ensures Grow(Grow(cands, first), second) == Grow(cands, first + second)
  {
    if second == [] {
      assert first + second == first;
    } else {
      var init := second[..|second| - 1];
      GrowTwice(cands, first, init);
      assert (first + second)[..|first + second| - 1] == first + init;
    }
  }

  // ----- What every round keeps

  ghost predicate SearchOk(dist: NodeID -> nat, s: Search) {
    && IsClosest(dist, Ids(s.candidates), s.seen, WIDTH)
    && Distinct(s.log)
    && Elements(s.log) <= s.seen
  }

  lemma {:induction false} GrowElements(cands: seq<Node>, nodes: seq<Node>)
    requires Distinct(Ids(cands))
    ensures var g := Grow(cands, nodes);
            Distinct(Ids(g)) && Elements(Ids(g)) == Elements(Ids(cands)) + Elements(Ids(nodes))
  {
    if nodes != [] {
      var init, n := nodes[..|nodes| - 1], nodes[|nodes| - 1];
      GrowElements(cands, init);
      var c := Grow(cands, init);
      assert Ids(nodes) == Ids(init) + [n.id];
      assert Ids(c + [n]) == Ids(c) + [n.id];
      ElementsAppend(Ids(init), n.id);
      ElementsAppend(Ids(c), n.id);
      assert n.id in Ids(c) <==> n.id in Elements(Ids(c));
    }
  }

  lemma {:induction false} PickIds(cands: seq<Node>, queried: set<NodeID>, k: nat)
    ensures Ids(Pick(cands, queried, k)) == Remaining(Ids(cands), queried, k)
  {
    if cands != [] && k > 0 {
      assert Ids(cands)[1..] == Ids(cands[1..]);
      PickIds(cands[1..], queried, if cands[0].id in queried then k else k - 1);
    }
  }

  /** The queried nodes are the closest candidates not queried before. */
  lemma AskedIsClosest(dist: NodeID -> nat, s: Search)
    requires Ordered(dist, Ids(s.candidates))
    ensures IsClosest(dist, Ids(Queried(s)), Elements(Ids(s.candidates)) - Elements(s.log), ALPHA)
  {
    PickIds(s.candidates, Elements(s.log), ALPHA);
    RemainingIsClosest(dist, Ids(s.candidates), Elements(s.log), ALPHA);
  }

  /** Truncation loses nothing: the candidates stay the 20 closest of everything seen. */
  lemma RoundKeepsOk(dist: NodeID -> nat, s: Search, answers: seq<Answer>, next: Search)
    requires Injective(dist) && SearchOk(dist, s) && Round(dist, s, answers, next)
    ensures SearchOk(dist, next)
    ensures IsClosest(dist, Ids(Queried(s)), Elements(Ids(s.candidates)) - Elements(s.log), ALPHA)
  {
    OrderedDistinct(dist, Ids(s.candidates));
    HearAllParts(Before(s), Queried(s), answers);
    CutKeepsClosest(dist, s.candidates, s.seen, Returned(answers), next.candidates);
    AskedIsClosest(dist, s);
    OrderedDistinct(dist, Ids(Queried(s)));
    LogGrows(s, Ids(Queried(s)));
  }

  lemma CutKeepsClosest(dist: NodeID -> nat, cands: seq<Node>, seen: set<NodeID>, nodes: seq<Node>, r: seq<Node>)
    requires Injective(dist) && IsClosest(dist, Ids(cands), seen, WIDTH) && Distinct(Ids(cands))
    requires SortedCut(dist, Grow(cands, nodes), r)
    ensures IsClosest(dist, Ids(r), seen + Elements(Ids(nodes)), WIDTH)
  {
    GrowElements(cands, nodes);
    var grown := Grow(cands, nodes);
    var sorted :| multiset(sorted) == multiset(grown) && Sorted(dist, sorted) && r == Take(sorted, WIDTH);
    CutIsClosest(dist, grown, sorted, WIDTH);
    ClosestAbsorbs(dist, Ids(cands), seen, Elements(Ids(nodes)), Ids(r), WIDTH);
  }

  lemma LogGrows(s: Search, asked: seq<NodeID>)
    requires Distinct(s.log) && Distinct(asked) && Elements(s.log) <= s.seen
    requires forall x :: x in asked ==> x in s.seen && x !in Elements(s.log)
    ensures Distinct(s.log + asked) && Elements(s.log + asked) <= s.seen
  {
    forall i, j | 0 <= i < |s.log| && 0 <= j < |asked|
      ensures s.log[i] != asked[j]
    {
      assert s.log[i] in Elements(s.log) && asked[j] in asked;
    }
  }

  // ----- Whole lookups

  /** The states before the first round and after each. */
  ghost predicate Rounds(dist: NodeID -> nat, states: seq<Search>, answers: seq<seq<Answer>>) {
    && |states| == |answers| + 1 <= MAX_ITERATIONS + 1
    && forall i :: 0 <= i < |answers| ==> RoundAt(dist, states, answers, i)
  }

  ghost predicate RoundAt(dist: NodeID -> nat, states: seq<Search>, answers: seq<seq<Answer>>, i: nat)
    requires |states| == |answers| + 1 && i < |answers|
  {
    Round(dist, states[i], answers[i], states[i + 1])
  }

  ghost predicate Starts(dist: NodeID -> nat, s: Search) {
    IsClosest(dist, Ids(s.candidates), s.seen, WIDTH) && s.log == [] && s.peers == []
  }

  /**
   * After every round the candidates are exactly the 20 closest IDs among all seen so far, and no ID was queried
   * twice.
   */
  lemma {:induction false} EveryRoundOk(dist: NodeID -> nat, states: seq<Search>, answers: seq<seq<Answer>>, i: nat)
    requires Injective(dist) && Rounds(dist, states, answers) && Starts(dist, states[0]) && i < |states|
    ensures SearchOk(dist, states[i])
    ensures |states[i].log| <= i * ALPHA
  {
    if i > 0 {
      EveryRoundOk(dist, states, answers, i - 1);
      NextRoundOk(dist, states, answers, i - 1);
    } else {
      StartsOk(dist, states[0]);
    }
  }

  lemma StartsOk(dist: NodeID -> nat, s: Search)
    requires Starts(dist, s)
    ensures SearchOk(dist, s) && s.log == []
  {
  }

  lemma NextRoundOk(dist: NodeID -> nat, states: seq<Search>, answers: seq<seq<Answer>>, i: nat)
    requires Injective(dist) && Rounds(dist, states, answers) && i < |answers| && SearchOk(dist, states[i])
    ensures SearchOk(dist, states[i + 1]) && |states[i + 1].log| <= |states[i].log| + ALPHA
  {
    assert RoundAt(dist, states, answers, i);
    RoundKeepsOk(dist, states[i], answers[i], states[i + 1]);
  }

  /** At most 60 queries, no ID twice. */
  lemma QueriesBounded(dist: NodeID -> nat, states: seq<Search>, answers: seq<seq<Answer>>)
    requires Injective(dist) && Rounds(dist, states, answers) && Starts(dist, states[0])
    ensures var log := states[|states| - 1].log; |log| <= 60 && Distinct(log)
  {
    EveryRoundOk(dist, states, answers, |states| - 1);
  }

  /** The WIDTH closest IDs that were ever seen have all been queried. */
  ghost predicate Complete(dist: NodeID -> nat, s: Search) {
    forall closest: seq<NodeID> :: IsClosest(dist, closest, s.seen, WIDTH) ==> Elements(closest) <= Elements(s.log)
  }

  lemma CandidatesSuffice(dist: NodeID -> nat, s: Search)
    requires IsClosest(dist, Ids(s.candidates), s.seen, WIDTH)
    requires Elements(Ids(s.candidates)) <= Elements(s.log)
    ensures Complete(dist, s)
  {
    forall closest: seq<NodeID> | IsClosest(dist, closest, s.seen, WIDTH)
      ensures Elements(closest) <= Elements(s.log)
    {
      ClosestUnique(dist, closest, Ids(s.candidates), s.seen, WIDTH);
    }
  }

  /** If fewer than ALPHA are left to ask, they are all that is left. */
  lemma FewLeft(dist: NodeID -> nat, s: Search)
    requires Ordered(dist, Ids(s.candidates)) && |Queried(s)| < ALPHA
    ensures Elements(Ids(s.candidates)) <= Elements(s.log) + Elements(Ids(Queried(s)))
  {
    AskedIsClosest(dist, s);
  }

  lemma ExhaustedComplete(dist: NodeID -> nat, s: Search)
    requires SearchOk(dist, s) && Exhausted(s)
    ensures Complete(dist, s)
  {
    FewLeft(dist, s);
    CandidatesSuffice(dist, s);
  }

  lemma SettledComplete(dist: NodeID -> nat, s: Search, answers: seq<Answer>, next: Search)
    requires Injective(dist) && SearchOk(dist, s) && Round(dist, s, answers, next) && Settled(s, answers)
    ensures Complete(dist, next)
  {
    RoundKeepsOk(dist, s, answers, next);
    FewLeft(dist, s);
    HearAllParts(Before(s), Queried(s), answers);
    CutWithin(dist, s.candidates, next.candidates);
    assert Elements(next.log) == Elements(s.log) + Elements(Ids(Queried(s)));
    CandidatesSuffice(dist, next);
  }

  /** The loop was left before the limit. */
  ghost predicate StoppedEarly(states: seq<Search>, answers: seq<seq<Answer>>)
    requires |states| == |answers| + 1
  {
    var n := |answers|;
    Exhausted(states[n]) || (n > 0 && Settled(states[n - 1], answers[n - 1]))
  }

  /** A lookup that stops by itself has queried each of the 20 closest IDs it ever saw. */
  lemma Converged(dist: NodeID -> nat, states: seq<Search>, answers: seq<seq<Answer>>)
    requires Injective(dist) && Rounds(dist, states, answers) && Starts(dist, states[0]) &&
             StoppedEarly(states, answers)
    ensures Complete(dist, states[|answers|])
  {
    if Exhausted(states[|answers|]) {
      ExhaustedRounds(dist, states, answers);
    } else {
      SettledRounds(dist, states, answers);
    }
  }

  lemma ExhaustedRounds(dist: NodeID -> nat, states: seq<Search>, answers: seq<seq<Answer>>)
    requires Injective(dist) && Rounds(dist, states, answers) && Starts(dist, states[0]) && Exhausted(states[|answers|])
    ensures Complete(dist, states[|answers|])
  {
    EveryRoundOk(dist, states, answers, |answers|);
    ExhaustedComplete(dist, states[|answers|]);
  }

  lemma SettledRounds(dist: NodeID -> nat, states: seq<Search>, answers: seq<seq<Answer>>)
    requires Injective(dist) && Rounds(dist, states, answers) && Starts(dist, states[0])
    requires var n := |answers|; n > 0 && Settled(states[n - 1], answers[n - 1])
    ensures Complete(dist, states[|answers|])
  {
    EveryRoundOk(dist, states, answers, |answers| - 1);
    SettledRound(dist, states, answers, |answers| - 1);
  }

  lemma SettledRound(dist: NodeID -> nat, states: seq<Search>, answers: seq<seq<Answer>>, i: nat)
    requires Injective(dist) && Rounds(dist, states, answers) && i < |answers| && SearchOk(dist, states[i])
    requires Settled(states[i], answers[i])
    ensures Complete(dist, states[i + 1])
  {
    assert RoundAt(dist, states, answers, i);
    SettledComplete(dist, states[i], answers[i], states[i + 1]);
  }

  /** The peers in all rounds, in the order of the queries. */
  function AllPeers(answers: seq<seq<Answer>>): seq<Peer> {
    if answers == [] then [] else AllPeers(answers[..|answers| - 1]) + PeersIn(answers[|answers| - 1])
  }

  /** Every peer of every answer is reported, in order, whatever became of the candidates. */
  lemma {:induction false} PeersOfRounds(dist: NodeID -> nat, states: seq<Search>, answers: seq<seq<Answer>>, i: nat)
    requires Rounds(dist, states, answers) && Starts(dist, states[0]) && i < |states|
    ensures states[i].peers == AllPeers(answers[..i])
  {
    if i > 0 {
      PeersOfRounds(dist, states, answers, i - 1);
      assert RoundAt(dist, states, answers, i - 1);
      PeersOfRound(dist, states[i - 1], answers[i - 1], states[i]);
      assert answers[..i][..i - 1] == answers[..i - 1];
    }
  }

  lemma PeersOfRound(dist: NodeID -> nat, s: Search, answers: seq<Answer>, next: Search)
    requires Round(dist, s, answers, next)
    ensures next.peers == s.peers + PeersIn(answers)
  {
    HearAllParts(Before(s), Queried(s), answers);
  }

  // ----- The same, answer by answer

  /** The values in the answers of a round, in order. */
  function ValuesIn(answers: seq<Answer>): seq<Bytes> {
    if answers == [] then []
    else
      var a := answers[|answers| - 1];
      ValuesIn(answers[..|answers| - 1]) + if a.Some? then a.value.values else []
  }

  /** The values in all answers, in order. */
  function AllValues(answers: seq<seq<Answer>>): seq<Bytes> {
    if answers == [] then [] else AllValues(answers[..|answers| - 1]) + ValuesIn(answers[|answers| - 1])
  }

  lemma {:induction false} ValuesAppend(values: seq<Bytes>, more: seq<Bytes>)
    ensures PeersOfValues(values + more) == PeersOfValues(values) + PeersOfValues(more)
  {
    if more == [] {
      assert values + more == values;
    } else {
      var init, last := more[..|more| - 1], more[|more| - 1];
      ValuesAppend(values, init);
      assert (values + more)[..|values + more| - 1] == values + init && (values + more)[|values + more| - 1] == last;
      Associative(PeersOfValues(values), PeersOfValues(init), PeersOfValue(last));
    }
  }

  lemma {:induction false} PeersInValues(answers: seq<Answer>)
    ensures PeersIn(answers) == PeersOfValues(ValuesIn(answers))
  {
    if answers != [] {
      var a := answers[|answers| - 1];
      PeersInValues(answers[..|answers| - 1]);
      ValuesAppend(ValuesIn(answers[..|answers| - 1]), if a.Some? then a.value.values else []);
    }
  }

  lemma {:induction false} AllPeersValues(answers: seq<seq<Answer>>)
    ensures AllPeers(answers) == PeersOfValues(AllValues(answers))
  {
    if answers != [] {
      var last := answers[|answers| - 1];
      AllPeersValues(answers[..|answers| - 1]);
      PeersInValues(last);
      ValuesAppend(AllValues(answers[..|answers| - 1]), ValuesIn(last));
    }
  }

  /** The peers found are those that the bytes of all values say, in order. */
  lemma PeersListed(dist: NodeID -> nat, states: seq<Search>, answers: seq<seq<Answer>>)
    requires Rounds(dist, states, answers) && Starts(dist, states[0])
    ensures ListsPeers(AllValues(answers), states[|answers|].peers)
  {
    PeersOfRounds(dist, states, answers, |answers|);
    assert answers[..|answers|] == answers;
    AllPeersValues(answers);
    ValuesList(AllValues(answers));
  }

  // ----- What goes into the routing table

  /** Node n was sighted in the answer to query q of a round: it responded from the queried address, or was returned. */
  ghost predicate SightedBy(asked: seq<Node>, answers: seq<Answer>, q: nat, n: Node) {
    && q < |answers| && q < |asked| && answers[q].Some?
    && ((n.id == answers[q].value.id && n.addr == asked[q].addr) || n in answers[q].value.nodes)
  }

  ghost predicate Sighting(asked: seq<Node>, answers: seq<Answer>, n: Node) {
    exists q: nat :: SightedBy(asked, answers, q, n)
  }

  lemma {:induction false} HeardHistory(h: Heard, asked: seq<Node>, answers: seq<Answer>, n: Node)
    requires |answers| <= |asked|
    ensures h.history <= HearAll(h, asked, answers).history
    ensures n in HearAll(h, asked, answers).history <==> n in h.history || Sighting(asked, answers, n)
  {
    if answers != [] {
      var last := |answers| - 1;
      HeardHistory(h, asked, answers[..last], n);
      LastSighted(asked, answers, n);
      assert n in Sighted(asked[last], answers[last]) <==> SightedBy(asked, answers, last, n);
    }
  }

  lemma LastSighted(asked: seq<Node>, answers: seq<Answer>, n: Node)
    requires 0 < |answers| <= |asked|
    ensures Sighting(asked, answers, n) <==>
            Sighting(asked, answers[..|answers| - 1], n) || SightedBy(asked, answers, |answers| - 1, n)
  {
    var init := answers[..|answers| - 1];
    if Sighting(asked, answers, n) {
      var q: nat :| SightedBy(asked, answers, q, n);
      assert q < |init| ==> SightedBy(asked, init, q, n);
    }
    if Sighting(asked, init, n) {
      var q: nat :| SightedBy(asked, init, q, n);
      assert SightedBy(asked, answers, q, n);
    }
  }

  ghost predicate SightedIn(states: seq<Search>, answers: seq<seq<Answer>>, i: nat, n: Node) {
    i < |states| && i < |answers| && Sighting(Queried(states[i]), answers[i], n)
  }

  lemma RoundHistory(dist: NodeID -> nat, states: seq<Search>, answers: seq<seq<Answer>>, i: nat, n: Node)
    requires Rounds(dist, states, answers) && i < |answers|
    ensures states[i].history <= states[i + 1].history
    ensures n in states[i + 1].history <==> n in states[i].history || SightedIn(states, answers, i, n)
  {
    assert RoundAt(dist, states, answers, i);
    HeardHistory(Before(states[i]), Queried(states[i]), answers[i], n);
  }

  /** A lookup adds to the routing table exactly the nodes that responded, where they were asked, and those returned. */
  lemma {:induction false} HistoryOfRounds(
    dist: NodeID -> nat, states: seq<Search>, answers: seq<seq<Answer>>, i: nat, n: Node)
    requires Rounds(dist, states, answers) && i < |states|
    ensures states[0].history <= states[i].history
    ensures n in states[i].history <==>
              n in states[0].history || exists j :: 0 <= j < i && SightedIn(states, answers, j, n)
  {
    if i > 0 {
      HistoryOfRounds(dist, states, answers, i - 1, n);
      RoundHistory(dist, states, answers, i - 1, n);
    }
  }

  lemma CutWithin(dist: NodeID -> nat, cands: seq<Node>, r: seq<Node>)
    requires SortedCut(dist, cands, r)
    ensures Elements(Ids(r)) <= Elements(Ids(cands))
  {
    var sorted :| multiset(sorted) == multiset(cands) && Sorted(dist, sorted) && r == Take(sorted, WIDTH);
    SameElements(cands, sorted);
    IdsHold(r);
    IdsHold(cands);
    assert forall n :: n in r ==> n in sorted;
  }
}
