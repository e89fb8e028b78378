/** One honest peer with one piece is enough to make a torrent of several pieces impossible to complete. */
module EndGameTrap {
  import opened Arith
  import opened Bytes
  import opened Layout
  import opened PickerModel
  import opened PickerAccounting
  import opened PickerRuns
  import opened PickerChoice
  import opened ManagerModel
  import opened ManagerRuns
  import opened EndToEnd
  import opened BlockHistory
  import opened EventLoop
  import opened Awaiting
  import opened Losses
  import opened Starving
  import opened Quiet
  import opened Delivery
  import opened Requesting
  import opened Finishing

  // ----- Runs with one peer

  /** The event comes from a, or is about a. */
  predicate Concerns(e: Event, a: Addr) {
    match e
    case TimeoutMessage(_) => false
    case Tick(_) => false
    case PeerAdded(x) => x == a
    case PeerDropped(x) => x == a
    case PeerUnregistered(x) => x == a
    case BitfieldMessage(x, _) => x == a
    case HaveMessage(x, _) => x == a
    case PieceMessage(x, _) => x == a
    case OtherMessage(x) => x == a
    case GrantTurn(x, _, _) => x == a
    case PieceRead(x, _) => x == a
    case ChokeRead(x, _) => x == a
    case StallSweep(x, _) => x == a
  }

  predicate By(act: Act, a: Addr) {
    match act
    case Does(e) => Concerns(e, a)
    case Stray(_, _) => false
    case Closes(_, _, _) => false
    case Pick(x) => x == a
    case _ => true
  }

  /** Honest steps of the loop, all of them with a, lead from l to l'. */
  ghost predicate Alone(t: Torrent, pieces: seq<Bytes>, a: Addr, l: Loop, l': Loop) {
    exists ls, acts :: LonePath(t, pieces, a, ls, acts) && ls[0] == l && ls[|acts|] == l'
  }

  ghost predicate LonePath(t: Torrent, pieces: seq<Bytes>, a: Addr, ls: seq<Loop>, acts: seq<Act>) {
    LoopPath(t, pieces, ls, acts) && forall k :: 0 <= k < |acts| ==> By(acts[k], a)
  }

  lemma AloneSelf(t: Torrent, pieces: seq<Bytes>, a: Addr, l: Loop)
    ensures Alone(t, pieces, a, l, l)
  {
    assert LonePath(t, pieces, a, [l], []);
  }

  lemma AloneStep(t: Torrent, pieces: seq<Bytes>, a: Addr, l0: Loop, l: Loop, act: Act, l': Loop)
    requires Alone(t, pieces, a, l0, l) && By(act, a) && LoopStep(t, pieces, l, act, l')
    ensures Alone(t, pieces, a, l0, l')
  {
    var ls0, acts0 :| LonePath(t, pieces, a, ls0, acts0) && ls0[0] == l0 && ls0[|acts0|] == l;
    var ls, acts := ls0 + [l'], acts0 + [act];
    PathLonger(t, pieces, ls0, acts0, act, l');
    assert LonePath(t, pieces, a, ls, acts);
  }

  lemma AloneDoes(t: Torrent, pieces: seq<Bytes>, a: Addr, l0: Loop, l: Loop, e: Event, m': Manager)
    requires t.Valid() && Alone(t, pieces, a, l0, l) && Reached(t, l.m) && Concerns(e, a) && Allowed(l, e)
    requires ManagerMoves(t, pieces, l.m, e, m')
    ensures Alone(t, pieces, a, l0, After(l, e, m')) && Reached(t, m')
  {
    ReachedNext(t, l.m, e, m');
    AloneStep(t, pieces, a, l0, l, Does(e), After(l, e, m'));
  }

  /** A fill with nobody but a, which is skipped if it chokes and asked otherwise. */
  lemma AloneFill(t: Torrent, pieces: seq<Bytes>, a: Addr, l0: Loop, l: Loop)
    requires Alone(t, pieces, a, l0, l) && l.phase.Ready? && l.m.clients.Keys == {a}
    ensures Alone(t, pieces, a, l0, l.(phase := if l.m.clients[a].choked then Waiting else Asking(a, {})))
  {
    var l1 := l.(phase := Filling({a}));
    assert LoopStep(t, pieces, l, Begin, l1);
    AloneStep(t, pieces, a, l0, l, Begin, l1);
    var l2 := l.(phase := if l.m.clients[a].choked then Filling({}) else Asking(a, {}));
    assert {a} - {a} == {};
    assert LoopStep(t, pieces, l1, Pick(a), l2);
    AloneStep(t, pieces, a, l0, l1, Pick(a), l2);
    if l.m.clients[a].choked {
      var l3 := l.(phase := Waiting);
      assert LoopStep(t, pieces, l2, Rest, l3);
      AloneStep(t, pieces, a, l0, l2, Rest, l3);
    }
  }

  // ----- The peer with the first piece

  /** The peer has piece 0 and nothing else. */
  ghost predicate HasFirstOnly(s: Picker, a: Addr) {
    Sized(s) && a in s.peerPieces && forall i :: 0 <= i < |s.pieces| ==> (s.peerPieces[a][i] <==> i == 0)
  }

  /** The other pieces are as they were at the start. */
  ghost predicate Untouched(s: Picker) {
    forall i: nat, b: nat :: Exists(s, i, b) && i > 0 ==> At(s, i, b).state == Unrequested
  }

  /** Before end-game: piece 0 is not complete, and nothing happened to the others. */
  ghost predicate PickerNarrow(s: Picker, a: Addr) {
    HasFirstOnly(s, a) && !s.endGame && Untouched(s) && |s.pieces| > 0 && !s.pieces[0].done
  }

  /** The peer is alone and does not choke, only piece 0 was requested, and what it tracks is still missing. */
  ghost predicate ClientNarrow(m: Manager, a: Addr) {
    && m.clients.Keys == {a} && !m.clients[a].choked
    && (forall r :: r in m.requests ==> r.index == 0)
    && TrackedKeys(m, a) <= MissingKeys(m.picker)
  }

  ghost predicate Narrow(m: Manager, a: Addr) {
    PickerNarrow(m.picker, a) && ClientNarrow(m, a)
  }

  ghost predicate InLoop(t: Torrent, l: Loop, a: Addr) {
    && t.Valid() && Reached(t, l.m) && l.phase == Asking(a, {}) && l.inbox == multiset{} && l.older == multiset{}
    && Narrow(l.m, a)
  }

  /** Bit 0 set, the rest clear. */
  const FIRST: Bytes := [128]

  lemma FirstBit(i: nat)
    ensures BitSet(FIRST, i) <==> i == 0
  {
    if 0 < i < 8 {
      assert 128 / Bit(7 - i) % 2 == 0;
    }
  }

  lemma FirstTold(s: Picker, a: Addr)
    requires Sized(s)
    ensures HasFirstOnly(Bitfield(Register(s, a), a, FIRST), a)
  {
    forall i | 0 <= i < |s.pieces|
      ensures BitSet(FIRST, i) <==> i == 0
    {
      FirstBit(i);
    }
  }

  lemma StartUntouched(t: Torrent)
    requires t.Valid()
    ensures Untouched(Start(t).picker) && forall i :: 0 <= i < t.Count() ==> !Start(t).picker.pieces[i].done
  {
    var s := Start(t).picker;
    forall i | 0 <= i < |s.pieces|
      ensures s.pieces[i] == FreshPiece(t.length, t.pieceLength, i)
    {
    }
  }

  /** It connects, and announces its piece. */
  lemma FirstJoins(t: Torrent, pieces: seq<Bytes>, a: Addr) returns (l: Loop)
    requires t.Valid()
    ensures Alone(t, pieces, a, Begins(t), l) && Reached(t, l.m) && l.phase.Waiting?
    ensures l.inbox == multiset{} && l.older == multiset{}
    ensures l.m.picker.pieces == Start(t).picker.pieces && !l.m.picker.endGame && l.m.requests == {}
    ensures l.m.clients == map[a := NEW_CLIENT] && HasFirstOnly(l.m.picker, a)
  {
    var l0 := Begins(t);
    AloneSelf(t, pieces, a, l0);
    ReachedStart(t);
    Sizes(t, l0.m);
    var m1 := Joined(l0.m, a);
    assert ManagerStep(t, l0.m, PeerAdded(a), m1);
    AloneDoes(t, pieces, a, l0, l0, PeerAdded(a), m1);
    Sizes(t, m1);
    l := FirstAnnounces(t, pieces, a, l0, After(l0, PeerAdded(a), m1));
    FirstTold(l0.m.picker, a);
  }

  lemma FirstAnnounces(t: Torrent, pieces: seq<Bytes>, a: Addr, l0: Loop, l: Loop) returns (l': Loop)
    requires t.Valid() && Alone(t, pieces, a, l0, l) && Reached(t, l.m) && l.phase.Waiting?
    requires l.m.clients == map[a := NEW_CLIENT] && Sized(l.m.picker)
    ensures Alone(t, pieces, a, l0, l') && Reached(t, l'.m) && l' == l.(m := l'.m)
    ensures l'.m == l.m.(picker := Bitfield(l.m.picker, a, FIRST))
  {
    Sizes(t, l.m);
    var e, m' := BitfieldMessage(a, FIRST), Told(l.m, a, FIRST);
    assert ManagerStep(t, l.m, e, m');
    AloneDoes(t, pieces, a, l0, l, e, m');
    AloneFill(t, pieces, a, l0, After(l, e, m'));
    l' := l.(m := m');
    assert After(l, e, m').(phase := Waiting) == l';
  }

  /** It stops choking, and the loop begins to ask it. */
  lemma FirstUnchokes(t: Torrent, pieces: seq<Bytes>, a: Addr, l0: Loop, l: Loop) returns (l': Loop)
    requires t.Valid() && Alone(t, pieces, a, l0, l) && Reached(t, l.m) && l.phase.Waiting? && l.inbox == multiset{}
    requires l.m.clients.Keys == {a}
    ensures Alone(t, pieces, a, l0, l') && Reached(t, l'.m) && l'.phase == Asking(a, {}) && l'.inbox == multiset{}
    ensures l'.older == l.older
    ensures l'.m == Choking(l.m, a, false)
  {
    Sizes(t, l.m);
    var m1 := Choking(l.m, a, false);
    assert ManagerStep(t, l.m, ChokeRead(a, false), m1);
    AloneDoes(t, pieces, a, l0, l, ChokeRead(a, false), m1);
    var l1 := After(l, ChokeRead(a, false), m1);
    Sizes(t, m1);
    assert ManagerStep(t, m1, OtherMessage(a), m1);
    AloneDoes(t, pieces, a, l0, l1, OtherMessage(a), m1);
    var l2 := After(l1, OtherMessage(a), m1);
    assert l2.inbox == multiset{};
    AloneFill(t, pieces, a, l0, l2);
    l' := l2.(phase := Asking(a, {}));
  }

  lemma Enters(t: Torrent, pieces: seq<Bytes>, a: Addr) returns (l: Loop)
    requires t.Valid() && t.Count() > 0
    ensures Alone(t, pieces, a, Begins(t), l) && InLoop(t, l, a)
  {
    var l1 := FirstJoins(t, pieces, a);
    l := FirstUnchokes(t, pieces, a, Begins(t), l1);
    StartUntouched(t);
    Sizes(t, l.m);
    SamePlaces(Start(t).picker, l.m.picker);
    assert TrackedKeys(l.m, a) == {};
  }

  lemma SamePlaces(s: Picker, s': Picker)
    requires s'.pieces == s.pieces
    ensures Untouched(s) ==> Untouched(s')
  {
    if Untouched(s) {
      forall i: nat, b: nat | Exists(s', i, b) && i > 0
        ensures At(s', i, b).state == Unrequested
      {
        assert Exists(s, i, b) && At(s, i, b) == At(s', i, b);
      }
    }
  }

  // ----- It is asked for all of piece 0

  lemma OnlyFirst(s: Picker, a: Addr, st: BlockState, i: nat)
    requires HasFirstOnly(s, a) && Offers(s, a, st, i)
    ensures i == 0
  {
  }

  lemma GrantUntouched(t: Torrent, m: Manager, a: Addr, now: int, s': Picker, block: Block)
    requires ManagerInv(t, m) && a in m.clients && |m.clients[a].outstanding| < PIPELINE && Untouched(m.picker)
    requires NextBlock(m.picker, a, now, s', Some(block)) && block.index == 0
    ensures Untouched(s')
  {
    var e, m' := GrantTurn(a, now, Some(block)), Given(m, a, now, s', block);
    GrantIsStep(t, m, a, now, s', block);
    ManagerStepKeepsInv(t, m, e, m');
    forall i: nat, b: nat | Exists(s', i, b) && i > 0
      ensures At(s', i, b).state == Unrequested
    {
      SameShape(t, m, m', i, b);
      BlockMoves(t, m, e, m', i, b);
      ShapeOf(t, m', a, i, b);
    }
  }

  lemma MissingNotDone(t: Torrent, m: Manager, k: Key)
    requires ManagerInv(t, m) && k in MissingKeys(m.picker)
    ensures k.0 < |m.picker.pieces| && !m.picker.pieces[k.0].done
  {
    var b := KeyBlock(m.picker, k);
    NotDoneYet(t, m, k.0, b);
  }

  lemma FirstMissing(t: Torrent, m: Manager) returns (k: Key)
    requires ManagerInv(t, m) && |m.picker.pieces| > 0 && !m.picker.pieces[0].done
    ensures k in MissingKeys(m.picker) && k.0 == 0
  {
    assert PieceOk(m.picker.pieces[0], 0, PieceLength(t.length, t.pieceLength, 0), m.picker.peerPieces.Keys);
    var b :| 0 <= b < |m.picker.pieces[0].blocks| && m.picker.pieces[0].blocks[b].state != Completed;
    MissingKey(m.picker, 0, b);
    k := (0, b * BLOCK_SIZE);
  }

  lemma GrantParts(t: Torrent, m: Manager, a: Addr, now: int, s': Picker, block: Block)
    requires t.Valid() && Reached(t, m) && a in m.clients && |m.clients[a].outstanding| < PIPELINE &&
             Untouched(m.picker)
    requires Sized(m.picker) && NextBlock(m.picker, a, now, s', Some(block)) && block.index == 0
    ensures Untouched(s') && AsksMore(m, Given(m, a, now, s', block), a)
  {
    ReachedInv(t, m);
    GrantUntouched(t, m, a, now, s', block);
    GrantAsksMore(t, m, a, now, s', block);
  }

  lemma FirstKept(t: Torrent, m: Manager, m': Manager)
    requires t.Valid() && Reached(t, m) && Reached(t, m') && MissingKeys(m'.picker) == MissingKeys(m.picker)
    requires |m.picker.pieces| > 0 && !m.picker.pieces[0].done
    ensures |m'.picker.pieces| > 0 && !m'.picker.pieces[0].done
  {
    ReachedInv(t, m);
    var k := FirstMissing(t, m);
    StillNotDone(t, m', k);
  }

  lemma GrantClient(m: Manager, a: Addr, now: int, s': Picker, block: Block)
    requires ClientNarrow(m, a) && block.index == 0 && AsksMore(m, Given(m, a, now, s', block), a)
    ensures ClientNarrow(Given(m, a, now, s', block), a)
  {
  }

  lemma GrantPicker(t: Torrent, m: Manager, a: Addr, m': Manager)
    requires t.Valid() && Reached(t, m) && Reached(t, m') && PickerNarrow(m.picker, a) &&
             MissingKeys(m'.picker) == MissingKeys(m.picker)
    requires m'.picker.peerPieces == m.picker.peerPieces && !m'.picker.endGame && Untouched(m'.picker)
    ensures PickerNarrow(m'.picker, a)
  {
    Sizes(t, m);
    Sizes(t, m');
    FirstKept(t, m, m');
  }

  lemma GrantNarrow(t: Torrent, m: Manager, a: Addr, now: int, s': Picker, block: Block)
    requires t.Valid() && Reached(t, m) && Narrow(m, a) && |m.clients[a].outstanding| < PIPELINE
    requires NextBlock(m.picker, a, now, s', Some(block)) && !s'.endGame && s'.peerPieces == m.picker.peerPieces
    requires Reached(t, Given(m, a, now, s', block)) && block.index == 0
    ensures Narrow(Given(m, a, now, s', block), a)
  {
    GrantParts(t, m, a, now, s', block);
    GrantPicker(t, m, a, Given(m, a, now, s', block));
    GrantClient(m, a, now, s', block);
  }

  lemma StillNotDone(t: Torrent, m: Manager, k: Key)
    requires t.Valid() && Reached(t, m) && k in MissingKeys(m.picker)
    ensures k.0 < |m.picker.pieces| && !m.picker.pieces[k.0].done
  {
    ReachedInv(t, m);
    MissingNotDone(t, m, k);
  }

  lemma TrapGrant(t: Torrent, pieces: seq<Bytes>, l0: Loop, l: Loop, a: Addr) returns (l': Loop)
    requires Alone(t, pieces, a, l0, l) && InLoop(t, l, a) && |l.m.clients[a].outstanding| < PIPELINE
    requires Offers(l.m.picker, a, Unrequested, 0)
    ensures Alone(t, pieces, a, l0, l') && InLoop(t, l', a)
    ensures Tally(l'.m.picker.pieces, {Unrequested}) == Tally(l.m.picker.pieces, {Unrequested}) - 1
  {
    ReachedInv(t, l.m);
    var s', block := GrantPossible(l.m.picker, a, l.clock, 0, t.length, t.pieceLength);
    OnlyFirst(l.m.picker, a, Unrequested, block.index);
    AloneGrant(t, pieces, l0, l, a, s', block);
    GrantNarrow(t, l.m, a, l.clock, s', block);
    l' := l.(m := Given(l.m, a, l.clock, s', block));
  }

  lemma AloneGrant(t: Torrent, pieces: seq<Bytes>, l0: Loop, l: Loop, a: Addr, s': Picker, block: Block)
    requires t.Valid() && Alone(t, pieces, a, l0, l) && Reached(t, l.m) && l.phase == Asking(a, {})
    requires a in l.m.clients && |l.m.clients[a].outstanding| < PIPELINE
    requires Sized(l.m.picker) && NextBlock(l.m.picker, a, l.clock, s', Some(block))
    ensures var m' := Given(l.m, a, l.clock, s', block); Alone(t, pieces, a, l0, l.(m := m')) && Reached(t, m')
  {
    Sizes(t, l.m);
    var e, m' := GrantTurn(a, l.clock, Some(block)), Given(l.m, a, l.clock, s', block);
    GrantIsStep(t, l.m, a, l.clock, s', block);
    AloneDoes(t, pieces, a, l0, l, e, m');
    assert After(l, e, m') == l.(m := m');
  }

  // ----- It answers when the pipeline is full

  /** The fill is over; one answer is read and handled; the next fill comes back to a. */
  lemma AloneAnswer(t: Torrent, data: Bytes, pieces: seq<Bytes>, l0: Loop, l: Loop, a: Addr, r: Request)
    returns (l': Loop)
    requires t.Valid() && WireSized(t) && Served(t, data, pieces) && Alone(t, pieces, a, l0, l) && Reached(t, l.m)
    requires l.phase == Asking(a, {}) && l.inbox == multiset{} && l.m.clients.Keys == {a} && !l.m.clients[a].choked
    requires |l.m.clients[a].outstanding| >= PIPELINE
    requires r.peer == a && r in l.m.requests && r in l.m.clients[a].unanswered
    ensures Alone(t, pieces, a, l0, l') && Reached(t, l'.m) && l'.phase == Asking(a, {}) && l'.inbox == multiset{}
    ensures l'.older == l.older && l'.m.requests == l.m.requests && AfterAnswer(l.m, r, l'.m)
    ensures l'.m.picker == Complete(l.m.picker, r.index, r.begin, a).picker
  {
    ReachedInv(t, l.m);
    AnswerReplies(t, data, pieces, l.m.clients[a].unanswered, r);
    var p := AnswerTo(pieces, r);
    AloneFull(t, pieces, l0, l, a);
    AloneReads(t, pieces, l0, l.(phase := Waiting), a, p);
    var l1 := l.(m := Read(l.m, r, p), phase := Waiting, inbox := multiset{Arrived(a, p)});
    ReachedInv(t, l1.m);
    PieceStep(t, l1.m, a, p);
    AloneHandles(t, pieces, l0, l1, a, p);
    l' := l1.(m := PieceArrived(t, l1.m, a, p), phase := Asking(a, {}), inbox := multiset{});
  }

  /** The connections after the answer to r: its place is no longer tracked. */
  ghost predicate AfterAnswer(m: Manager, r: Request, m': Manager)
    requires r.peer in m.clients
  {
    && m'.clients.Keys == m.clients.Keys && m'.clients[r.peer].choked == m.clients[r.peer].choked
    && m'.clients[r.peer].outstanding == m.clients[r.peer].outstanding - {(r.index, r.begin)}
  }

  lemma AloneFull(t: Torrent, pieces: seq<Bytes>, l0: Loop, l: Loop, a: Addr)
    requires Alone(t, pieces, a, l0, l) && l.phase == Asking(a, {}) && a in l.m.clients
    requires |l.m.clients[a].outstanding| >= PIPELINE
    ensures Alone(t, pieces, a, l0, l.(phase := Waiting))
  {
    var l1, l2 := l.(phase := Filling({})), l.(phase := Waiting);
    assert LoopStep(t, pieces, l, Full, l1);
    AloneStep(t, pieces, a, l0, l, Full, l1);
    assert LoopStep(t, pieces, l1, Rest, l2);
    AloneStep(t, pieces, a, l0, l1, Rest, l2);
  }

  lemma AloneReads(t: Torrent, pieces: seq<Bytes>, l0: Loop, l: Loop, a: Addr, p: Bytes)
    requires t.Valid() && Alone(t, pieces, a, l0, l) && Reached(t, l.m) && l.inbox == multiset{} && a in l.m.clients
    requires !l.m.clients[a].choked && Replies(pieces, l.m.clients[a].unanswered, a, p)
    ensures var m1 := Read(l.m, ReplyTo(a, p), p);
            Alone(t, pieces, a, l0, l.(m := m1, inbox := multiset{Arrived(a, p)})) && Reached(t, m1)
  {
    Sizes(t, l.m);
    var e, m1 := PieceRead(a, p), Read(l.m, ReplyTo(a, p), p);
    assert ManagerStep(t, l.m, e, m1);
    AloneDoes(t, pieces, a, l0, l, e, m1);
    assert After(l, e, m1) == l.(m := m1, inbox := multiset{Arrived(a, p)});
  }

  lemma AloneHandles(t: Torrent, pieces: seq<Bytes>, l0: Loop, l: Loop, a: Addr, p: Bytes)
    requires t.Valid() && Alone(t, pieces, a, l0, l) && Reached(t, l.m) && l.phase.Waiting? &&
             l.inbox == multiset{Arrived(a, p)}
    requires l.m.clients.Keys == {a} && !l.m.clients[a].choked && |l.m.picker.pieces| == t.Count()
    ensures var l' := l.(m := PieceArrived(t, l.m, a, p), phase := Asking(a, {}), inbox := multiset{});
            Alone(t, pieces, a, l0, l') && Reached(t, l'.m)
  {
    Sizes(t, l.m);
    var e, m' := PieceMessage(a, p), PieceArrived(t, l.m, a, p);
    PieceQuiet(t, l.m, a, p);
    AloneDoes(t, pieces, a, l0, l, e, m');
    AloneFill(t, pieces, a, l0, After(l, e, m'));
    assert After(l, e, m').(phase := Asking(a, {})) == l.(m := m', phase := Asking(a, {}), inbox := multiset{});
  }

  lemma CompleteUntouched(s: Picker, k: Key, a: Addr, total: nat, pieceLen: nat)
    requires pieceLen > 0 && Inv(s, total, pieceLen) && Untouched(s) && k.0 == 0
    ensures Untouched(Complete(s, k.0, k.1, a).picker)
  {
    var s' := Complete(s, k.0, k.1, a).picker;
    forall i: nat, b: nat | Exists(s', i, b) && i > 0
      ensures At(s', i, b).state == Unrequested
    {
      CompleteShape(s, k.0, k.1, a, i, b);
      CompleteBlock(s, k.0, k.1, a, total, pieceLen, i, b);
    }
  }

  /** A delivery changes no other state, so the Unrequested blocks are as many as before. */
  lemma CompleteUnrequested(t: Torrent, m: Manager, k: Key, a: Addr)
    requires ManagerInv(t, m) && k in MissingKeys(m.picker)
    ensures Tally(Complete(m.picker, k.0, k.1, a).picker.pieces, {Unrequested}) <= Tally(m.picker.pieces, {Unrequested})
  {
    var s := m.picker;
    var b := KeyBlock(s, k);
    ShapeOf(t, m, a, k.0, b);
    NamedIs(s, t.length, t.pieceLength, k.0, b);
    NotDoneYet(t, m, k.0, b);
    var block := s.pieces[k.0].blocks[b].(state := Completed, peer := a);
    var ps := SetBlock(s.pieces, k.0, b, block);
    TallySet(s.pieces, k.0, b, block, AllCompleted(ps[k.0].blocks), {Unrequested});
  }

  lemma TrackedFirst(t: Torrent, m: Manager, a: Addr, k: Key) returns (r: Request)
    requires t.Valid() && Reached(t, m) && Narrow(m, a) && k in m.clients[a].outstanding
    ensures r.peer == a && r.index == k.0 == 0 && r.begin == k.1 && r in m.requests && r in m.clients[a].unanswered
  {
    r := TrackedRequest(t, m, a, k);
  }

  lemma AnswerParts(t: Torrent, m: Manager, a: Addr, k: Key)
    requires t.Valid() && Reached(t, m) && Untouched(m.picker) && k.0 == 0
    ensures var s' := Complete(m.picker, k.0, k.1, a).picker;
            && Untouched(s') && MissingKeys(s') == MissingKeys(m.picker) - {k}
            && s'.peerPieces == m.picker.peerPieces && s'.endGame == m.picker.endGame
  {
    ReachedInv(t, m);
    CompleteUntouched(m.picker, k, a, t.length, t.pieceLength);
    CompleteMissing(m.picker, k.0, k.1, a, t.length, t.pieceLength);
  }

  lemma Another(x: set<Key>, k: Key) returns (j: Key)
    requires k in x && |x| > 1
    ensures j in x && j != k
  {
    if x <= {k} {
      SubsetCount(x, {k});
    }
    j :| j in x && j !in {k};
  }

  /** Something else that is tracked is still missing from piece 0. */
  lemma FirstRemains(t: Torrent, m: Manager, a: Addr, k: Key, m': Manager)
    requires t.Valid() && Reached(t, m) && Narrow(m, a) && k in TrackedKeys(m, a) && |TrackedKeys(m, a)| > 1
    requires Reached(t, m') && MissingKeys(m'.picker) == MissingKeys(m.picker) - {k}
    ensures |m'.picker.pieces| > 0 && !m'.picker.pieces[0].done
  {
    var j := Another(TrackedKeys(m, a), k);
    var r := TrackedFirst(t, m, a, j);
    StillNotDone(t, m', j);
  }

  lemma AnswerNarrow(t: Torrent, m: Manager, a: Addr, k: Key, m': Manager)
    requires t.Valid() && Reached(t, m) && Narrow(m, a) && k in m.clients[a].outstanding &&
             |m.clients[a].outstanding| > 1
    requires Reached(t, m') && m'.requests == m.requests && m'.clients.Keys == {a} && !m'.clients[a].choked
    requires TrackedKeys(m', a) == TrackedKeys(m, a) - {k}
    requires m'.picker == Complete(m.picker, k.0, k.1, a).picker
    ensures Narrow(m', a) && |m'.clients[a].outstanding| < |m.clients[a].outstanding|
  {
    var r := TrackedFirst(t, m, a, k);
    Sizes(t, m);
    Sizes(t, m');
    AnswerParts(t, m, a, k);
    FirstRemains(t, m, a, k, m');
  }

  lemma TrapAnswer(t: Torrent, data: Bytes, pieces: seq<Bytes>, l0: Loop, l: Loop, a: Addr) returns (l': Loop)
    requires WireSized(t) && InLoop(t, l, a) && Served(t, data, pieces) && Alone(t, pieces, a, l0, l)
    requires |l.m.clients[a].outstanding| >= PIPELINE
    ensures Alone(t, pieces, a, l0, l') && InLoop(t, l', a)
    ensures Tally(l'.m.picker.pieces, {Unrequested}) <= Tally(l.m.picker.pieces, {Unrequested})
    ensures |l'.m.clients[a].outstanding| < |l.m.clients[a].outstanding|
  {
    var k :| k in l.m.clients[a].outstanding;
    var r := TrackedFirst(t, l.m, a, k);
    l' := AloneAnswer(t, data, pieces, l0, l, a, r);
    AnswerNarrow(t, l.m, a, k, l'.m);
    ReachedInv(t, l.m);
    CompleteUnrequested(t, l.m, k, a);
  }

  // ----- Until nothing of piece 0 is Unrequested

  lemma {:induction false} TrapRuns(t: Torrent, data: Bytes, pieces: seq<Bytes>, l0: Loop, l: Loop, a: Addr)
    returns (l': Loop)
    requires WireSized(t) && InLoop(t, l, a) && Served(t, data, pieces) && Alone(t, pieces, a, l0, l)
    ensures Alone(t, pieces, a, l0, l') && InLoop(t, l', a)
    ensures |l'.m.clients[a].outstanding| < PIPELINE && !Offers(l'.m.picker, a, Unrequested, 0)
    decreases Tally(l.m.picker.pieces, {Unrequested}), |l.m.clients[a].outstanding|
  {
    if |l.m.clients[a].outstanding| >= PIPELINE {
      var l1 := TrapAnswer(t, data, pieces, l0, l, a);
      l' := TrapRuns(t, data, pieces, l0, l1, a);
    } else if Offers(l.m.picker, a, Unrequested, 0) {
      var l1 := TrapGrant(t, pieces, l0, l, a);
      l' := TrapRuns(t, data, pieces, l0, l1, a);
    } else {
      l' := l;
    }
  }

  // ----- And once more

  /** With nothing Unrequested in its only piece, the next call switches to end-game. */
  lemma SwitchPossible(t: Torrent, m: Manager, a: Addr, now: int) returns (s': Picker, block: Block)
    requires ManagerInv(t, m) && Narrow(m, a) && !Offers(m.picker, a, Unrequested, 0)
    ensures NextBlock(m.picker, a, now, s', Some(block)) && s'.endGame && block.index == 0 &&
            s'.peerPieces == m.picker.peerPieces
  {
    var s := m.picker;
    var len := PieceLength(t.length, t.pieceLength, 0);
    assert PieceOk(s.pieces[0], 0, len, s.peerPieces.Keys);
    assert IsCandidate(s, a, 0);
    IncompleteHasBlock(s, t.length, t.pieceLength, 0);
    assert Offers(s, a, Pending, 0);
    assert forall i: nat :: Offers(s, a, Unrequested, i) ==> i == 0;
    assert EndGameAfter(s, a);
    var b := FirstIn(s.pieces[0].blocks, Pending);
    assert BlockShaped(s.pieces[0].blocks[b], 0, len, b);
    s' := Granted(s.(endGame := true), a, now, 0);
    block := s'.pieces[0].blocks[b];
  }

  lemma HasSecond(t: Torrent, m: Manager)
    requires t.Valid() && Reached(t, m) && t.Count() > 1
    ensures Exists(m.picker, 1, 0) && At(m.picker, 1, 0).index == 1
  {
    ReachedInv(t, m);
    assert PieceOk(m.picker.pieces[1], 1, PieceLength(t.length, t.pieceLength, 1), m.picker.peerPieces.Keys);
    ShapeOf(t, m, "", 1, 0);
  }

  lemma Trapped(t: Torrent, m: Manager, a: Addr, now: int, s': Picker, block: Block)
    requires t.Valid() && Reached(t, m) && Narrow(m, a) && t.Count() > 1 && |m.clients[a].outstanding| < PIPELINE
    requires NextBlock(m.picker, a, now, s', Some(block)) && s'.endGame && block.index == 0
    requires Reached(t, Given(m, a, now, s', block))
    ensures var m' := Given(m, a, now, s', block); ClientNarrow(m', a) && Untouched(m'.picker) && m'.picker.endGame
  {
    GrantParts(t, m, a, now, s', block);
    GrantClient(m, a, now, s', block);
  }

  /** Nobody was asked for the first block of the second piece. */
  lemma SecondStranded(t: Torrent, l: Loop, a: Addr)
    requires t.Valid() && Reached(t, l.m) && t.Count() > 1 && l.inbox == multiset{} && l.older == multiset{}
    requires ClientNarrow(l.m, a) && Untouched(l.m.picker)
    ensures Stranded(l, 1, 0)
  {
    HasSecond(t, l.m);
    ReachedAsked(t, l.m);
    assert ClientAsked(l.m.clients[a], a, l.m.requests);
    var x := At(l.m.picker, 1, 0);
    forall c
      ensures !AwaitedFrom(l, c, x)
    {
      assert Naming(c, x).index == 1;
    }
  }

  lemma AloneReaches(t: Torrent, pieces: seq<Bytes>, a: Addr, l: Loop, l': Loop)
    requires Alone(t, pieces, a, l, l')
    ensures Reaches(t, pieces, l, l')
  {
    var ls, acts :| LonePath(t, pieces, a, ls, acts) && ls[0] == l && ls[|acts|] == l';
  }

  /**
   * Every torrent of two or more pieces has an honest run of the event loop that concerns a single peer,
   * which has the first piece and no other, after which no honest continuation completes it.
   */
  lemma TrapExists(t: Torrent, data: Bytes, pieces: seq<Bytes>, a: Addr)
    requires t.Valid() && WireSized(t) && t.Count() > 1 && Served(t, data, pieces)
    ensures exists ls: seq<Loop>, acts: seq<Act> ::
              && LoopRun(t, pieces, ls, acts) && (forall k :: 0 <= k < |acts| ==> By(acts[k], a))
              && HasFirstOnly(ls[|acts|].m.picker, a) && ls[|acts|].m.clients.Keys == {a}
              && !CanFinish(t, pieces, ls[|acts|])
  {
    var l0 := Begins(t);
    var l1 := Enters(t, pieces, a);
    var l2 := TrapRuns(t, data, pieces, l0, l1, a);
    var l3 := Springs(t, pieces, l0, l2, a);
    ReachedStart(t);
    AloneReaches(t, pieces, a, l0, l3);
    SoundAlong(t, pieces, l0, l3);
    LeftBehindCannotFinish(t, pieces, l3, 1, 0);
    var ls, acts :| LonePath(t, pieces, a, ls, acts) && ls[0] == l0 && ls[|acts|] == l3;
    assert LoopRun(t, pieces, ls, acts);
  }

  lemma Springs(t: Torrent, pieces: seq<Bytes>, l0: Loop, l: Loop, a: Addr) returns (l': Loop)
    requires InLoop(t, l, a) && Alone(t, pieces, a, l0, l) && t.Count() > 1
    requires |l.m.clients[a].outstanding| < PIPELINE && !Offers(l.m.picker, a, Unrequested, 0)
    ensures Alone(t, pieces, a, l0, l') && Reached(t, l'.m) && LeftBehind(l', 1, 0)
    ensures HasFirstOnly(l'.m.picker, a) && l'.m.clients.Keys == {a}
  {
    ReachedInv(t, l.m);
    var s', block := SwitchPossible(t, l.m, a, l.clock);
    AloneGrant(t, pieces, l0, l, a, s', block);
    Trapped(t, l.m, a, l.clock, s', block);
    l' := l.(m := Given(l.m, a, l.clock, s', block));
    SecondStranded(t, l', a);
    Sizes(t, l'.m);
    Sizes(t, l.m);
  }
}
