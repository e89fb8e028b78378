/** What a step of the manager does to one block, and who was asked for it. */
module BlockHistory {
  import opened Bytes
  import opened Layout
  import opened Wire
  import opened PickerModel
  import opened PickerAccounting
  import opened PickerRuns
  import opened Seeder
  import opened ManagerModel
  import opened ManagerRuns
  import opened EndToEnd

  // ----- The picker's part of a step

  /** The picker operation of an event. */
  function OpOf(e: Event): Option<Op> {
    if !e.PieceMessage? then PickerOp(e)
    else if |e.payload| < 8 then None
    else Some(MarkCompleted(Uint32(e.payload, 0), Uint32(e.payload, 4), e.addr))
  }

  /** A piece message does to the picker what MarkCompleted does, whatever the verdict. */
  lemma PieceStep(t: Torrent, m: Manager, a: Addr, p: Bytes)
    requires ManagerInv(t, m)
    ensures var m' := PieceArrived(t, m, a, p);
            && m'.clients == m.clients && m'.requests == m.requests
            && m'.picker == if |p| < 8 then m.picker else Complete(m.picker, Uint32(p, 0), Uint32(p, 4), a).picker
  {
    if |p| >= 8 && Complete(m.picker, Uint32(p, 0), Uint32(p, 4), a).pieceDone {
      CompletedBuffers(t, m, PieceMessage(a, p), Uint32(p, 0));
      VerdictReached(t, AfterCount(m, a, p), Uint32(p, 0));
    }
  }

  /** The request that a step sends, if it sends one. */
  function SentBy(e: Event): set<Request> {
    if e.GrantTurn? && e.granted.Some? then {Naming(e.addr, e.granted.value)} else {}
  }

  lemma StepOp(t: Torrent, m: Manager, e: Event, m': Manager)
    requires ManagerInv(t, m) && ManagerStep(t, m, e, m')
    ensures OpOf(e).None? ==> m'.picker == m.picker
    ensures OpOf(e).Some? ==> Step(m.picker, OpOf(e).value, m'.picker)
    ensures m'.requests == m.requests + SentBy(e)
  {
    if e.PieceMessage? {
      PieceStep(t, m, e.addr, e.payload);
    }
  }

  // ----- One block

  function At(s: Picker, i: nat, b: nat): Block
    requires Exists(s, i, b)
  {
    s.pieces[i].blocks[b]
  }

  /** The request for a block. */
  function Naming(a: Addr, block: Block): Request {
    Request(a, block.index, block.begin, block.length)
  }

  /** Somebody was asked for the block. */
  ghost predicate Asked(m: Manager, block: Block) {
    exists a :: Naming(a, block) in m.requests
  }

  /** The owner of a Pending block changes only with its state. */
  ghost predicate OwnerMoves(s: Picker, op: Op, s': Picker, i: nat, b: nat)
    requires Exists(s, i, b) && Exists(s', i, b)
  {
    At(s', i, b).state == Pending ==>
      if At(s, i, b).state == Pending then At(s', i, b).peer == At(s, i, b).peer
        else op.Next? && At(s', i, b).peer == op.addr
  }

  lemma NextOwner(s: Picker, a: Addr, now: int, r: Option<Block>, s': Picker, i: nat, b: nat)
    requires Sized(s) && NextBlock(s, a, now, s', r) && Exists(s, i, b)
    ensures Exists(s', i, b) && OwnerMoves(s, Next(a, now, r), s', i, b)
  {
  }

  lemma OwnerStep(s: Picker, op: Op, s': Picker, i: nat, b: nat)
    requires Sized(s) && Step(s, op, s') && Exists(s, i, b)
    ensures Exists(s', i, b) && OwnerMoves(s, op, s', i, b)
  {
    match op
    case Next(a, now, r) => NextOwner(s, a, now, r, s', i, b);
    case UnregisterPeer(a) => assert s'.pieces[i] == ReclaimPiece(s.pieces[i], PeerLeft(a));
    case ReclaimStalled(now, timeout) => assert s'.pieces[i] == ReclaimPiece(s.pieces[i], Stale(now, timeout));
    case MarkCompleted(_, _, _) => CompleteOwner(s, op, s', i, b);
    case _ =>
  }

  lemma CompleteOwner(s: Picker, op: Op, s': Picker, i: nat, b: nat)
    requires Sized(s) && op.MarkCompleted? && Step(s, op, s') && Exists(s, i, b)
    ensures Exists(s', i, b) && OwnerMoves(s, op, s', i, b)
  {
  }

  ghost predicate Moves(m: Manager, e: Event, m': Manager, i: nat, b: nat)
    requires Exists(m.picker, i, b) && Exists(m'.picker, i, b)
  {
    var x, y := At(m.picker, i, b), At(m'.picker, i, b);
    && SamePlace(x, y)
    && (x.state == Completed ==> y.state == Completed)
    && (x.state == Pending && y.state == Pending ==> y.peer == x.peer)
    && (y.state == Pending && x.state != Pending ==>
          !m'.picker.endGame && e.GrantTurn? && e.granted.Some? && Naming(e.addr, e.granted.value) == Naming(y.peer, y))
    && (y.state == Completed && x.state != Completed ==>
          e.PieceMessage? && |e.payload| >= 8 && Uint32(e.payload, 0) == i && Uint32(e.payload, 4) == x.begin)
    && (x.state == Unrequested && e.GrantTurn? && e.granted.Some? && SamePlace(e.granted.value, x) ==>
          !m'.picker.endGame)
  }

  /** A block is one of the torrent's. */
  lemma ShapeOf(t: Torrent, m: Manager, a: Addr, i: nat, b: nat)
    requires ManagerInv(t, m) && Exists(m.picker, i, b)
    ensures RequestOk(t, Naming(a, At(m.picker, i, b))) && At(m.picker, i, b).index == i
    ensures At(m.picker, i, b).begin == b * BLOCK_SIZE
  {
    var len := PieceLength(t.length, t.pieceLength, i);
    assert PieceOk(m.picker.pieces[i], i, len, m.picker.peerPieces.Keys);
    assert BlockShaped(m.picker.pieces[i].blocks[b], i, len, b);
    BlockIsRequest(t, a, At(m.picker, i, b), i, b);
  }

  /** Index and offset determine the length. */
  lemma SameLength(t: Torrent, r: Request, q: Request)
    requires t.Valid() && RequestOk(t, r) && RequestOk(t, q) && r.index == q.index && r.begin == q.begin
    ensures r.length == q.length
  {
  }

  /** From the transition table to the event. */
  lemma MovesByTable(m: Manager, e: Event, m': Manager, i: nat, b: nat)
    requires Exists(m.picker, i, b) && OpOf(e).Some? && Evolves(m.picker, OpOf(e).value, m'.picker, i, b)
    requires At(m.picker, i, b).index == i && OwnerMoves(m.picker, OpOf(e).value, m'.picker, i, b)
    requires e.GrantTurn? && e.granted.Some? && Grants(m.picker, OpOf(e).value, i, b) ==>
               SamePlace(e.granted.value, At(m.picker, i, b))
    ensures Exists(m'.picker, i, b) && Moves(m, e, m', i, b)
  {
  }

  lemma GrantNames(t: Torrent, m: Manager, e: Event, m': Manager, i: nat, b: nat)
    requires ManagerInv(t, m) && Exists(m.picker, i, b) && OpOf(e).Some? && Step(m.picker, OpOf(e).value, m'.picker)
    ensures e.GrantTurn? && e.granted.Some? && Grants(m.picker, OpOf(e).value, i, b) ==>
              SamePlace(e.granted.value, At(m.picker, i, b))
  {
    if e.GrantTurn? && e.granted.Some? && Grants(m.picker, OpOf(e).value, i, b) {
      GrantedRequestOk(t, m.picker, e.addr, e.now, m'.picker, e.granted.value);
      ShapeOf(t, m, e.addr, i, b);
      SameLength(t, Naming(e.addr, e.granted.value), Naming(e.addr, At(m.picker, i, b)));
    }
  }

  lemma BlockMoves(t: Torrent, m: Manager, e: Event, m': Manager, i: nat, b: nat)
    requires ManagerInv(t, m) && ManagerStep(t, m, e, m') && Exists(m.picker, i, b)
    ensures Exists(m'.picker, i, b) && Moves(m, e, m', i, b)
  {
    StepOp(t, m, e, m');
    if OpOf(e).Some? {
      BlockTransition(m.picker, OpOf(e).value, m'.picker, t.length, t.pieceLength, i, b);
      OwnerStep(m.picker, OpOf(e).value, m'.picker, i, b);
      ShapeOf(t, m, "", i, b);
      GrantNames(t, m, e, m', i, b);
      MovesByTable(m, e, m', i, b);
    } else {
      assert m'.picker == m.picker;
    }
  }

  lemma SameShape(t: Torrent, m: Manager, m': Manager, i: nat, b: nat)
    requires ManagerInv(t, m) && ManagerInv(t, m')
    ensures Exists(m.picker, i, b) <==> Exists(m'.picker, i, b)
  {
    if i < t.Count() {
      var len := PieceLength(t.length, t.pieceLength, i);
      assert PieceOk(m.picker.pieces[i], i, len, m.picker.peerPieces.Keys);
      assert PieceOk(m'.picker.pieces[i], i, len, m'.picker.peerPieces.Keys);
    }
  }

  lemma NotDoneYet(t: Torrent, m: Manager, i: nat, b: nat)
    requires ManagerInv(t, m) && Exists(m.picker, i, b) && At(m.picker, i, b).state != Completed
    ensures !m.picker.pieces[i].done && m.doneCloses == 0
  {
    assert PieceOk(m.picker.pieces[i], i, PieceLength(t.length, t.pieceLength, i), m.picker.peerPieces.Keys);
  }

  // ----- Who was asked

  /** The owner of a Pending block was asked for it. */
  ghost predicate OwnersAsked(m: Manager) {
    forall i: nat, b: nat :: Exists(m.picker, i, b) && At(m.picker, i, b).state == Pending ==>
      Naming(At(m.picker, i, b).peer, At(m.picker, i, b)) in m.requests
  }

  lemma StepKeepsAsked(t: Torrent, m: Manager, e: Event, m': Manager)
    requires ManagerInv(t, m) && ManagerStep(t, m, e, m') && OwnersAsked(m)
    ensures OwnersAsked(m')
  {
    ManagerStepKeepsInv(t, m, e, m');
    StepOp(t, m, e, m');
    forall i: nat, b: nat | Exists(m'.picker, i, b) && At(m'.picker, i, b).state == Pending
      ensures Naming(At(m'.picker, i, b).peer, At(m'.picker, i, b)) in m'.requests
    {
      SameShape(t, m, m', i, b);
      BlockMoves(t, m, e, m', i, b);
    }
  }

  /** What a connection tracks was requested from it and not answered, and everything like that was once sent. */
  ghost predicate TrackedAsked(m: Manager) {
    forall a :: a in m.clients ==> ClientAsked(m.clients[a], a, m.requests)
  }

  ghost predicate ClientAsked(client: Client, a: Addr, requests: set<Request>) {
    && (forall k :: k in client.outstanding ==> Request(a, k.0, k.1, client.outstanding[k].length) in client.unanswered)
    && (forall r :: r in client.unanswered ==> r in requests && r.peer == a)
  }

  lemma StepKeepsTracked(t: Torrent, m: Manager, e: Event, m': Manager)
    requires ManagerInv(t, m) && ManagerStep(t, m, e, m') && TrackedAsked(m)
    ensures TrackedAsked(m')
  {
    StepOp(t, m, e, m');
    if e.PieceMessage? {
      PieceStep(t, m, e.addr, e.payload);
    } else {
      ClientsTracked(m, e, m');
    }
  }

  lemma ClientsTracked(m: Manager, e: Event, m': Manager)
    requires !e.PieceMessage? && ClientsStep(m, e, m') && TrackedAsked(m) && m.requests <= m'.requests
    ensures TrackedAsked(m')
  {
    forall a | a in m'.clients
      ensures ClientAsked(m'.clients[a], a, m'.requests)
    {
      ClientTracked(m, e, m', a);
    }
  }

  lemma ClientTracked(m: Manager, e: Event, m': Manager, a: Addr)
    requires !e.PieceMessage? && ClientsStep(m, e, m') && TrackedAsked(m) && m.requests <= m'.requests &&
             a in m'.clients
    ensures ClientAsked(m'.clients[a], a, m'.requests)
  {
    if a !in m.clients || e == PeerAdded(a) {
      assert m'.clients[a] == NEW_CLIENT;
    } else {
      assert ClientAsked(m.clients[a], a, m.requests);
      if e.GrantTurn? && e.addr == a && e.granted.Some? {
        PostedTracked(m.clients[a], a, Naming(a, e.granted.value), e.now, m.requests);
        assert m'.clients[a] == Posted(m.clients[a], Naming(a, e.granted.value), e.now);
      } else if e.PieceRead? && e.addr == a && |e.payload| >= 8 {
        HeardTracked(m.clients[a], a, e.payload, m.requests);
        assert m'.clients[a] == Heard(m.clients[a], a, e.payload);
      } else {
        FewerTracked(m.clients[a], m'.clients[a], a, m.requests, m'.requests);
      }
    }
  }

  lemma FewerTracked(client: Client, client': Client, a: Addr, requests: set<Request>, requests': set<Request>)
    requires ClientAsked(client, a, requests) && requests <= requests' && client'.unanswered == client.unanswered
    requires forall k :: k in client'.outstanding ==>
               k in client.outstanding && client'.outstanding[k] == client.outstanding[k]
    ensures ClientAsked(client', a, requests')
  {
  }

  lemma PostedTracked(client: Client, a: Addr, r: Request, now: int, requests: set<Request>)
    requires ClientAsked(client, a, requests) && r.peer == a
    ensures ClientAsked(Posted(client, r, now), a, requests + {r})
  {
  }

  lemma HeardTracked(client: Client, a: Addr, p: Bytes, requests: set<Request>)
    requires ClientAsked(client, a, requests) && |p| >= 8
    ensures ClientAsked(Heard(client, a, p), a, requests)
  {
  }

  lemma StartAsked(t: Torrent)
    requires t.Valid()
    ensures OwnersAsked(Start(t)) && TrackedAsked(Start(t))
  {
    var s := Start(t).picker;
    forall i: nat, b: nat | Exists(s, i, b)
      ensures At(s, i, b).state == Unrequested
    {
      assert s.pieces[i] == FreshPiece(t.length, t.pieceLength, i);
    }
  }

  lemma AskedNext(t: Torrent, ms: seq<Manager>, es: seq<Event>, k: nat)
    requires t.Valid() && ManagerRun(t, ms, es) && k < |es| && OwnersAsked(ms[k]) && TrackedAsked(ms[k])
    ensures OwnersAsked(ms[k + 1]) && TrackedAsked(ms[k + 1])
  {
    RunKeepsManagerInv(t, ms, es, k);
    assert ManagerStepAt(t, ms, es, k);
    StepKeepsAsked(t, ms[k], es[k], ms[k + 1]);
    StepKeepsTracked(t, ms[k], es[k], ms[k + 1]);
  }

  /** In every run the owner of a Pending block was asked for it, and a connection for what it tracks. */
  lemma {:induction false} RunKeepsAsked(t: Torrent, ms: seq<Manager>, es: seq<Event>, k: nat)
    requires t.Valid() && ManagerRun(t, ms, es) && k < |ms|
    ensures OwnersAsked(ms[k]) && TrackedAsked(ms[k])
  {
    if k == 0 {
      StartAsked(t);
    } else {
      RunKeepsAsked(t, ms, es, k - 1);
      AskedNext(t, ms, es, k - 1);
    }
  }

  // ----- A block nobody will be asked for

  /** An honest message names a block that was requested. */
  lemma AnswersAsked(t: Torrent, data: Bytes, pieces: seq<Bytes>, m: Manager, e: Event, i: nat, b: nat)
    requires ManagerInv(t, m) && WireSized(t) && Served(t, data, pieces) && Honest(pieces, m, e) &&
             Exists(m.picker, i, b)
    requires e.PieceMessage? && |e.payload| >= 8
    requires Uint32(e.payload, 0) == i && Uint32(e.payload, 4) == At(m.picker, i, b).begin
    ensures Asked(m, At(m.picker, i, b))
  {
    var r :| r in m.requests && Serve(pieces, RequestPayload(r.index, r.begin, r.length)) ==
      Send(Message(PIECE, e.payload));
    AnswerIsTrue(t, data, pieces, r, e.payload);
    ShapeOf(t, m, r.peer, i, b);
    SameLength(t, r, Naming(r.peer, At(m.picker, i, b)));
    assert r == Naming(r.peer, At(m.picker, i, b));
  }

  lemma EndGameStays(t: Torrent, m: Manager, e: Event, m': Manager)
    requires ManagerInv(t, m) && ManagerStep(t, m, e, m') && m.picker.endGame
    ensures m'.picker.endGame
  {
    StepOp(t, m, e, m');
    if OpOf(e).Some? {
      StepLater(m.picker, OpOf(e).value, m'.picker, t.length, t.pieceLength);
    }
  }

  /** The block is still to be asked for, for the first time. */
  ghost predicate Unasked(m: Manager, i: nat, b: nat) {
    Exists(m.picker, i, b) && At(m.picker, i, b).state == Unrequested && !Asked(m, At(m.picker, i, b))
  }

  lemma UnaskedByMove(m: Manager, e: Event, m': Manager, i: nat, b: nat)
    requires Unasked(m, i, b) && Exists(m'.picker, i, b) && Moves(m, e, m', i, b) &&
             m'.requests == m.requests + SentBy(e)
    requires At(m'.picker, i, b).state != Completed && (SentBy(e) == {} || m'.picker.endGame)
    ensures Unasked(m', i, b)
  {
    var x, y := At(m.picker, i, b), At(m'.picker, i, b);
    forall a
      ensures Naming(a, y) !in m'.requests
    {
      assert Naming(a, y) == Naming(a, x);
    }
  }

  lemma UnaskedNotDelivered(t: Torrent, data: Bytes, pieces: seq<Bytes>, m: Manager, e: Event, m': Manager, i: nat,
                            b: nat)
    requires ManagerInv(t, m) && WireSized(t) && Served(t, data, pieces) && Honest(pieces, m, e) && Unasked(m, i, b)
    requires Exists(m'.picker, i, b) && Moves(m, e, m', i, b)
    ensures At(m'.picker, i, b).state != Completed
  {
    if At(m'.picker, i, b).state == Completed {
      AnswersAsked(t, data, pieces, m, e, i, b);
    }
  }

  /** A block that nobody was asked for is not delivered, and it is asked for only by a grant outside end-game. */
  lemma UnaskedStays(t: Torrent, data: Bytes, pieces: seq<Bytes>, m: Manager, e: Event, m': Manager, i: nat, b: nat)
    requires ManagerInv(t, m) && WireSized(t) && Served(t, data, pieces) && Honest(pieces, m, e)
    requires ManagerStep(t, m, e, m') && Unasked(m, i, b) && (SentBy(e) == {} || m'.picker.endGame)
    ensures Unasked(m', i, b)
  {
    BlockMoves(t, m, e, m', i, b);
    StepOp(t, m, e, m');
    UnaskedNotDelivered(t, data, pieces, m, e, m', i, b);
    UnaskedByMove(m, e, m', i, b);
  }

  /** End-game is on and nobody was ever asked for the block. */
  ghost predicate Abandoned(m: Manager, i: nat, b: nat) {
    m.picker.endGame && Unasked(m, i, b)
  }

  lemma StaysAbandoned(t: Torrent, data: Bytes, pieces: seq<Bytes>, m: Manager, e: Event, m': Manager, i: nat, b: nat)
    requires ManagerInv(t, m) && WireSized(t) && Served(t, data, pieces) && Honest(pieces, m, e)
    requires ManagerStep(t, m, e, m') && Abandoned(m, i, b)
    ensures Abandoned(m', i, b)
  {
    EndGameStays(t, m, e, m');
    UnaskedStays(t, data, pieces, m, e, m', i, b);
  }

  /** Honest steps from any state that keeps the books, in any order whatsoever. */
  ghost predicate HonestSteps(t: Torrent, pieces: seq<Bytes>, ms: seq<Manager>, es: seq<Event>)
    requires t.Valid()
  {
    && |ms| == |es| + 1
    && forall k :: 0 <= k < |es| ==> ManagerStepAt(t, ms, es, k) && HonestAt(pieces, ms, es, k)
  }

  lemma AbandonedNext(t: Torrent, data: Bytes, pieces: seq<Bytes>, ms: seq<Manager>, es: seq<Event>, k: nat, i: nat,
                      b: nat)
    requires t.Valid() && WireSized(t) && Served(t, data, pieces) && k < |es| && k + 1 < |ms|
    requires ManagerStepAt(t, ms, es, k) && HonestAt(pieces, ms, es, k) && ManagerInv(t, ms[k]) &&
             Abandoned(ms[k], i, b)
    ensures ManagerInv(t, ms[k + 1]) && Abandoned(ms[k + 1], i, b)
  {
    ManagerStepKeepsInv(t, ms[k], es[k], ms[k + 1]);
    StaysAbandoned(t, data, pieces, ms[k], es[k], ms[k + 1], i, b);
  }

  lemma {:induction false} AbandonedForEver(
    t: Torrent, data: Bytes, pieces: seq<Bytes>, ms: seq<Manager>, es: seq<Event>, k: nat, i: nat, b: nat)
    requires t.Valid() && WireSized(t) && Served(t, data, pieces)
    requires HonestSteps(t, pieces, ms, es) && k < |ms| && ManagerInv(t, ms[0]) && Abandoned(ms[0], i, b)
    ensures ManagerInv(t, ms[k]) && Abandoned(ms[k], i, b)
  {
    if k > 0 {
      AbandonedForEver(t, data, pieces, ms, es, k - 1, i, b);
      AbandonedNext(t, data, pieces, ms, es, k - 1, i, b);
    }
  }

  /** With such a block the download never completes, whoever joins and whatever is sent honestly. */
  lemma AbandonedNeverFinishes(
    t: Torrent, data: Bytes, pieces: seq<Bytes>, ms: seq<Manager>, es: seq<Event>, k: nat, i: nat, b: nat)
    requires t.Valid() && WireSized(t) && Served(t, data, pieces)
    requires HonestSteps(t, pieces, ms, es) && k < |ms| && ManagerInv(t, ms[0]) && Abandoned(ms[0], i, b)
    ensures ms[k].doneCloses == 0
  {
    AbandonedForEver(t, data, pieces, ms, es, k, i, b);
    NotDoneYet(t, ms[k], i, b);
  }
}
