/** Exactly when a download can still be completed. */
module Finishing {
  import opened Arith
  import opened Bytes
  import opened Layout
  import opened PickerModel
  import opened PickerRuns
  import opened PickerChoice
  import opened ManagerModel
  import opened ManagerRuns
  import opened EndToEnd
  import opened BlockHistory
  import opened EventLoop
  import opened Awaiting
  import opened Starving
  import opened Quiet
  import opened Delivery
  import opened Requesting

  ghost function TrackedKeys(m: Manager, c: Addr): set<Key>
    requires c in m.clients
  {
    m.clients[c].outstanding.Keys
  }

  /** Nothing but the tracked requests of c changes hands: the same blocks are missing, and c tracks more of them. */
  ghost predicate AsksMore(m: Manager, m': Manager, c: Addr) {
    && c in m.clients && c in m'.clients
    && MissingKeys(m'.picker) == MissingKeys(m.picker)
    && TrackedKeys(m, c) <= TrackedKeys(m', c) <= TrackedKeys(m, c) + MissingKeys(m.picker)
  }

  // ----- A grant

  lemma GrantMissing(t: Torrent, m: Manager, e: Event, m': Manager)
    requires ManagerInv(t, m) && ManagerStep(t, m, e, m') && e.GrantTurn?
    ensures MissingKeys(m'.picker) == MissingKeys(m.picker)
  {
    MissingShrinks(t, m, e, m');
    ManagerStepKeepsInv(t, m, e, m');
    forall k | k in MissingKeys(m.picker)
      ensures k in MissingKeys(m'.picker)
    {
      var b := KeyBlock(m.picker, k);
      BlockMoves(t, m, e, m', k.0, b);
      MissingKey(m'.picker, k.0, b);
    }
  }

  lemma GrantAskable(t: Torrent, m: Manager, c: Addr, now: int, s': Picker, block: Block)
    requires ManagerInv(t, m) && c in m.clients && |m.clients[c].outstanding| < PIPELINE && Askable(m, c)
    requires NextBlock(m.picker, c, now, s', Some(block))
    ensures Askable(Given(m, c, now, s', block), c)
  {
    var e, m' := GrantTurn(c, now, Some(block)), Given(m, c, now, s', block);
    GrantIsStep(t, m, c, now, s', block);
    ManagerStepKeepsInv(t, m, e, m');
    forall i: nat, b: nat | Exists(m'.picker, i, b) && At(m'.picker, i, b).state == Pending
      ensures (i, b * BLOCK_SIZE) in m'.clients[c].outstanding
    {
      SameShape(t, m, m', i, b);
      BlockMoves(t, m, e, m', i, b);
      ShapeOf(t, m', c, i, b);
    }
  }

  lemma GrantAsksMore(t: Torrent, m: Manager, c: Addr, now: int, s': Picker, block: Block)
    requires ManagerInv(t, m) && c in m.clients && |m.clients[c].outstanding| < PIPELINE
    requires NextBlock(m.picker, c, now, s', Some(block))
    ensures AsksMore(m, Given(m, c, now, s', block), c)
  {
    GrantIsStep(t, m, c, now, s', block);
    GrantMissing(t, m, GrantTurn(c, now, Some(block)), Given(m, c, now, s', block));
    GrantedMissing(t, m, c, now, s', block);
  }

  lemma MoreReach(m: Manager, m': Manager, c: Addr)
    requires AsksMore(m, m', c)
    ensures Reach(m', c) == Reach(m, c)
  {
  }

  lemma UnrequestedOffered(t: Torrent, m: Manager, c: Addr, k: Key)
    requires ManagerInv(t, m) && Willing(m, c) && k in MissingKeys(m.picker) && k !in m.clients[c].outstanding
    ensures Offers(m.picker, c, Unrequested, k.0)
  {
    var b := KeyBlock(m.picker, k);
    NotDoneYet(t, m, k.0, b);
    FirstInFinds(m.picker.pieces[k.0].blocks, Unrequested, b);
  }

  /** With room in the pipeline and something to ask for, c is asked. */
  lemma GrantOnce(t: Torrent, pieces: seq<Bytes>, l0: Loop, l: Loop, c: Addr) returns (l': Loop)
    requires Reaches(t, pieces, l0, l) && Asks(t, l, c) && Willing(l.m, c) && |TrackedKeys(l.m, c)| < PIPELINE
    ensures Reaches(t, pieces, l0, l') && Asks(t, l', c) && Willing(l'.m, c) && AsksMore(l.m, l'.m, c)
    ensures Tally(l'.m.picker.pieces, {Unrequested}) == Tally(l.m.picker.pieces, {Unrequested}) - 1
  {
    ReachedInv(t, l.m);
    var k := Untracked(l.m, c);
    UnrequestedOffered(t, l.m, c, k);
    var s', block := GrantPossible(l.m.picker, c, l.clock, k.0, t.length, t.pieceLength);
    GrantStep(t, pieces, l0, l, c, s', block);
    l' := l.(m := Given(l.m, c, l.clock, s', block));
    GrantAsksMore(t, l.m, c, l.clock, s', block);
    GrantAskable(t, l.m, c, l.clock, s', block);
    MoreReach(l.m, l'.m, c);
    Sizes(t, l'.m);
  }

  lemma Untracked(m: Manager, c: Addr) returns (k: Key)
    requires c in m.clients && |TrackedKeys(m, c)| < |Reach(m, c)|
    ensures k in MissingKeys(m.picker) && k !in TrackedKeys(m, c)
  {
    if Reach(m, c) <= TrackedKeys(m, c) {
      SubsetCount(Reach(m, c), TrackedKeys(m, c));
    }
    k :| k in Reach(m, c) && k !in TrackedKeys(m, c);
  }

  lemma AsksMoreTwice(m: Manager, m1: Manager, m2: Manager, c: Addr)
    requires AsksMore(m, m1, c) && AsksMore(m1, m2, c)
    ensures AsksMore(m, m2, c)
  {
  }

  /** The request loop for c comes to its end with a full pipeline. */
  lemma {:induction false} GrantsToFull(t: Torrent, pieces: seq<Bytes>, l0: Loop, l: Loop, c: Addr) returns (l': Loop)
    requires Reaches(t, pieces, l0, l) && Asks(t, l, c) && Willing(l.m, c)
    ensures Reaches(t, pieces, l0, l') && Asks(t, l', c) && Willing(l'.m, c) && AsksMore(l.m, l'.m, c)
    ensures |TrackedKeys(l'.m, c)| >= PIPELINE
    decreases Tally(l.m.picker.pieces, {Unrequested})
  {
    if |TrackedKeys(l.m, c)| >= PIPELINE {
      l' := l;
    } else {
      var l1 := GrantOnce(t, pieces, l0, l, c);
      l' := GrantsToFull(t, pieces, l0, l1, c);
      AsksMoreTwice(l.m, l1.m, l'.m, c);
    }
  }

  // ----- A fill

  /** c stops choking, and the fill reaches it last. */
  lemma FillBegins(t: Torrent, pieces: seq<Bytes>, l0: Loop, l: Loop, c: Addr)
    requires Reaches(t, pieces, l0, l) && Calm(t, l) && c in l.m.clients
    ensures var l' := l.(m := Choking(l.m, c, false), phase := Asking(c, {}));
            Reaches(t, pieces, l0, l') && Asks(t, l', c)
  {
    Chokes(t, pieces, l0, l, c, false);
    var m1 := Choking(l.m, c, false);
    var l1 := l.(m := m1, inbox := l.inbox + multiset{Notice(c)});
    Sizes(t, m1);
    assert ManagerStep(t, m1, OtherMessage(c), m1);
    Happens(t, pieces, l0, l1, OtherMessage(c), m1);
    var l2 := l.(m := m1, phase := Ready);
    assert After(l1, OtherMessage(c), m1) == l2;
    FillReaches(t, pieces, l0, l2, c);
    assert l2.(phase := Asking(c, {})) == l.(m := m1, phase := Asking(c, {}));
  }

  lemma FillReaches(t: Torrent, pieces: seq<Bytes>, l0: Loop, l: Loop, c: Addr)
    requires Reaches(t, pieces, l0, l) && l.phase.Ready? && c in l.m.clients && !l.m.clients[c].choked
    requires forall a :: a in l.m.clients && a != c ==> l.m.clients[a].choked
    ensures Reaches(t, pieces, l0, l.(phase := Asking(c, {})))
  {
    var l1, l2, l3 := l.(phase := Filling(l.m.clients.Keys)), l.(phase := Filling({c})), l.(phase := Asking(c, {}));
    assert LoopStep(t, pieces, l, Begin, l1);
    ReachesStep(t, pieces, l0, l, Begin, l1);
    SkipTo(t, pieces, l0, l1, {c});
    assert l1.(phase := Filling({c})) == l2;
    assert {c} - {c} == {};
    assert LoopStep(t, pieces, l2, Pick(c), l3);
    ReachesStep(t, pieces, l0, l2, Pick(c), l3);
  }

  /** The fill is over, and c chokes again. */
  lemma FillEnds(t: Torrent, pieces: seq<Bytes>, l0: Loop, l: Loop, c: Addr)
    requires Reaches(t, pieces, l0, l) && Asks(t, l, c) && c in l.m.clients && |l.m.clients[c].outstanding| >= PIPELINE
    ensures var l' := l.(m := Choking(l.m, c, true), phase := Waiting); Reaches(t, pieces, l0, l') && Calm(t, l')
  {
    var l1, l2 := l.(phase := Filling({})), l.(phase := Waiting);
    assert LoopStep(t, pieces, l, Full, l1);
    ReachesStep(t, pieces, l0, l, Full, l1);
    assert LoopStep(t, pieces, l1, Rest, l2);
    ReachesStep(t, pieces, l0, l1, Rest, l2);
    Chokes(t, pieces, l0, l2, c, true);
    var l3 := l2.(m := Choking(l.m, c, true), inbox := l2.inbox + multiset{Notice(c)});
    Settles(t, pieces, l0, l3);
    assert l3.(inbox := multiset{}) == l.(m := Choking(l.m, c, true), phase := Waiting);
  }

  /** Whether c chokes does not matter to what could be asked of it. */
  lemma ChokingWilling(m: Manager, c: Addr, choked: bool)
    requires c in m.clients
    ensures Willing(m, c) ==> Willing(Choking(m, c, choked), c)
    ensures AsksMore(m, Choking(m, c, choked), c)
  {
    var m' := Choking(m, c, choked);
    if Willing(m, c) {
      forall i: nat, b: nat | Exists(m'.picker, i, b) && At(m'.picker, i, b).state == Pending
        ensures (i, b * BLOCK_SIZE) in m'.clients[c].outstanding
      {
        assert Exists(m.picker, i, b) && At(m.picker, i, b).state == Pending;
      }
      assert Reach(m', c) == Reach(m, c);
    }
  }

  lemma FillsUp(t: Torrent, pieces: seq<Bytes>, l0: Loop, l: Loop, c: Addr) returns (l': Loop)
    requires Reaches(t, pieces, l0, l) && Calm(t, l) && Willing(l.m, c)
    ensures Reaches(t, pieces, l0, l') && Calm(t, l') && Willing(l'.m, c) && AsksMore(l.m, l'.m, c)
    ensures |TrackedKeys(l'.m, c)| >= PIPELINE
  {
    FillBegins(t, pieces, l0, l, c);
    ChokingWilling(l.m, c, false);
    var l1 := l.(m := Choking(l.m, c, false), phase := Asking(c, {}));
    var l2 := GrantsToFull(t, pieces, l0, l1, c);
    AsksMoreTwice(l.m, l1.m, l2.m, c);
    FillEnds(t, pieces, l0, l2, c);
    ChokingWilling(l2.m, c, true);
    l' := l2.(m := Choking(l2.m, c, true), phase := Waiting);
    AsksMoreTwice(l.m, l2.m, l'.m, c);
  }

  // ----- Round by round

  /** The missing blocks that c does not track. */
  ghost function Remainder(m: Manager, c: Addr): set<Key>
    requires c in m.clients
  {
    MissingKeys(m.picker) - TrackedKeys(m, c)
  }

  /** The request behind a tracked place is not answered yet. */
  lemma TrackedRequest(t: Torrent, m: Manager, c: Addr, k: Key) returns (r: Request)
    requires t.Valid() && Reached(t, m) && c in m.clients && k in m.clients[c].outstanding
    ensures r.peer == c && r.index == k.0 && r.begin == k.1 && r in m.requests && r in m.clients[c].unanswered
  {
    ReachedAsked(t, m);
    assert ClientAsked(m.clients[c], c, m.requests);
    r := Request(c, k.0, k.1, m.clients[c].outstanding[k].length);
  }

  /** c answers one tracked request: it is no longer tracked, and no longer missing. */
  lemma AnswersOne(t: Torrent, data: Bytes, pieces: seq<Bytes>, l0: Loop, l: Loop, c: Addr, k: Key) returns (l': Loop)
    requires WireSized(t) && Calm(t, l) && Served(t, data, pieces) && Reaches(t, pieces, l0, l)
    requires c in l.m.clients && HasAll(l.m.picker, c) && !l.m.picker.endGame && Askable(l.m, c)
    requires k in l.m.clients[c].outstanding
    ensures Reaches(t, pieces, l0, l') && Calm(t, l')
    ensures c in l'.m.clients && HasAll(l'.m.picker, c) && !l'.m.picker.endGame && Askable(l'.m, c)
    ensures TrackedKeys(l'.m, c) == TrackedKeys(l.m, c) - {k} &&
            MissingKeys(l'.m.picker) == MissingKeys(l.m.picker) - {k}
  {
    ReachedInv(t, l.m);
    var r := TrackedRequest(t, l.m, c, k);
    l' := AnswerArrives(t, data, pieces, l0, l, r);
    CompleteMissing(l.m.picker, k.0, k.1, c, t.length, t.pieceLength);
    AnswerAskable(t, l.m, c, k, l'.m);
    Sizes(t, l'.m);
  }

  lemma AnswerAskable(t: Torrent, m: Manager, c: Addr, k: Key, m': Manager)
    requires ManagerInv(t, m) && c in m.clients && Askable(m, c) && c in m'.clients
    requires m'.picker == Complete(m.picker, k.0, k.1, c).picker && TrackedKeys(m', c) == TrackedKeys(m, c) - {k}
    ensures Askable(m', c)
  {
    forall i: nat, b: nat | Exists(m'.picker, i, b) && At(m'.picker, i, b).state == Pending
      ensures (i, b * BLOCK_SIZE) in m'.clients[c].outstanding
    {
      CompleteShape(m.picker, k.0, k.1, c, i, b);
      CompleteBlock(m.picker, k.0, k.1, c, t.length, t.pieceLength, i, b);
      assert (i, b * BLOCK_SIZE) in TrackedKeys(m, c);
    }
  }

  /** With the pipeline full and something else to ask for, one answer leaves room and enough to fill it again. */
  lemma MakesRoom(t: Torrent, data: Bytes, pieces: seq<Bytes>, l0: Loop, l: Loop, c: Addr) returns (l': Loop)
    requires WireSized(t) && Calm(t, l) && Served(t, data, pieces) && Reaches(t, pieces, l0, l)
    requires Willing(l.m, c) && Remainder(l.m, c) != {}
    ensures Reaches(t, pieces, l0, l') && Calm(t, l') && Willing(l'.m, c)
    ensures |TrackedKeys(l'.m, c)| < PIPELINE && Remainder(l'.m, c) == Remainder(l.m, c)
  {
    if |TrackedKeys(l.m, c)| < PIPELINE {
      l' := l;
    } else {
      TrackedBound(t, l.m, c);
      var k :| k in TrackedKeys(l.m, c);
      l' := AnswersOne(t, data, pieces, l0, l, c, k);
      RoomCounts(TrackedKeys(l.m, c), MissingKeys(l.m.picker), k);
    }
  }

  lemma TrackedBound(t: Torrent, m: Manager, c: Addr)
    requires t.Valid() && Reached(t, m) && c in m.clients
    ensures |TrackedKeys(m, c)| <= PIPELINE
  {
    ReachedInv(t, m);
  }

  lemma RoomCounts(tracked: set<Key>, missing: set<Key>, k: Key)
    requires k in tracked && |tracked| == PIPELINE && missing - tracked != {}
    ensures |tracked - {k}| < PIPELINE <= |tracked - {k} + (missing - {k})|
    ensures missing - {k} - (tracked - {k}) == missing - tracked
  {
    var u :| u in missing - tracked;
    SubsetCount(tracked - {k} + {u}, tracked - {k} + (missing - {k}));
  }

  lemma RestShrinks(m: Manager, m': Manager, c: Addr)
    requires AsksMore(m, m', c) && |TrackedKeys(m, c)| < |TrackedKeys(m', c)|
    ensures Remainder(m', c) < Remainder(m, c)
  {
    if TrackedKeys(m', c) <= TrackedKeys(m, c) {
      SubsetCount(TrackedKeys(m', c), TrackedKeys(m, c));
    }
    var k :| k in TrackedKeys(m', c) && k !in TrackedKeys(m, c);
    assert k in Remainder(m, c) && k !in Remainder(m', c);
  }

  lemma RestAsked(t: Torrent, l: Loop, c: Addr)
    requires t.Valid() && Reached(t, l.m) && c in l.m.clients && Remainder(l.m, c) == {}
    ensures AllAwaited(l)
  {
    forall i: nat, b: nat | Exists(l.m.picker, i, b) && At(l.m.picker, i, b).state != Completed
      ensures Awaited(l, At(l.m.picker, i, b))
    {
      MissingKey(l.m.picker, i, b);
      assert (i, b * BLOCK_SIZE) !in Remainder(l.m, c);
      TrackedAwaited(t, l, c, i, b);
    }
  }

  /** What a connection tracks is awaited from it. */
  lemma TrackedAwaited(t: Torrent, l: Loop, c: Addr, i: nat, b: nat)
    requires t.Valid() && Reached(t, l.m) && c in l.m.clients && Exists(l.m.picker, i, b)
    requires (i, b * BLOCK_SIZE) in l.m.clients[c].outstanding
    ensures Awaited(l, At(l.m.picker, i, b))
  {
    ReachedInv(t, l.m);
    var r := TrackedRequest(t, l.m, c, (i, b * BLOCK_SIZE));
    ShapeOf(t, l.m, c, i, b);
    SameLength(t, r, Naming(c, At(l.m.picker, i, b)));
    assert r == Naming(c, At(l.m.picker, i, b));
    assert AwaitedFrom(l, c, At(l.m.picker, i, b));
  }

  /** Outside end-game one willing connection is asked for everything that is missing, over several fills. */
  lemma {:induction false} RequestsAll(t: Torrent, data: Bytes, pieces: seq<Bytes>, l0: Loop, l: Loop, c: Addr)
    returns (l': Loop)
    requires WireSized(t) && Calm(t, l) && Served(t, data, pieces) && Reaches(t, pieces, l0, l) && Willing(l.m, c)
    ensures Reaches(t, pieces, l0, l') && Calm(t, l') && AllAwaited(l')
    decreases |Remainder(l.m, c)|
  {
    if Remainder(l.m, c) == {} {
      RestAsked(t, l, c);
      l' := l;
    } else {
      var l1 := MakesRoom(t, data, pieces, l0, l, c);
      var l2 := FillsUp(t, pieces, l0, l1, c);
      RestShrinks(l1.m, l2.m, c);
      SmallerRest(Remainder(l2.m, c), Remainder(l1.m, c));
      l' := RequestsAll(t, data, pieces, l0, l2, c);
    }
  }

  lemma SmallerRest(x: set<Key>, y: set<Key>)
    requires x < y
    ensures |x| < |y|
  {
    var k :| k in y && k !in x;
    SubsetCount(x, y - {k});
  }
}
