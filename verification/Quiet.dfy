/** Runs in which nobody is asked: every connection chokes, so messages are handled without a request. */
module Quiet {
  import opened Bytes
  import opened Layout
  import opened Wire
  import opened PickerModel
  import opened Seeder
  import opened ManagerModel
  import opened ManagerRuns
  import opened EndToEnd
  import opened BlockHistory
  import opened EventLoop

  ghost predicate AllChoked(m: Manager) {
    forall a :: a in m.clients ==> m.clients[a].choked
  }

  /** The loop waits, nothing that was read is left to handle, and every peer chokes. */
  ghost predicate Calm(t: Torrent, l: Loop) {
    t.Valid() && Reached(t, l.m) && l.phase.Waiting? && l.inbox == multiset{} && AllChoked(l.m)
  }

  // ----- Fills that ask nobody

  /** The peers outside `keep` choke, and the fill passes over them. */
  lemma {:induction false} SkipTo(t: Torrent, pieces: seq<Bytes>, l0: Loop, l: Loop, keep: set<Addr>)
    requires Reaches(t, pieces, l0, l) && l.phase.Filling? && keep <= l.phase.left <= l.m.clients.Keys
    requires forall a :: a in l.phase.left && a !in keep ==> l.m.clients[a].choked
    ensures Reaches(t, pieces, l0, l.(phase := Filling(keep)))
    decreases |l.phase.left|
  {
    if l.phase.left == keep {
      assert l == l.(phase := Filling(keep));
    } else {
      var a :| a in l.phase.left && a !in keep;
      var l1 := l.(phase := Filling(l.phase.left - {a}));
      assert LoopStep(t, pieces, l, Pick(a), l1);
      ReachesStep(t, pieces, l0, l, Pick(a), l1);
      SkipTo(t, pieces, l0, l1, keep);
      assert l1.(phase := Filling(keep)) == l.(phase := Filling(keep));
    }
  }

  lemma IdleFill(t: Torrent, pieces: seq<Bytes>, l0: Loop, l: Loop)
    requires Reaches(t, pieces, l0, l) && l.phase.Ready? && AllChoked(l.m)
    ensures Reaches(t, pieces, l0, l.(phase := Waiting))
  {
    var l1, l2 := l.(phase := Filling(l.m.clients.Keys)), l.(phase := Filling({}));
    assert LoopStep(t, pieces, l, Begin, l1);
    ReachesStep(t, pieces, l0, l, Begin, l1);
    SkipTo(t, pieces, l0, l1, {});
    assert l1.(phase := Filling({})) == l2;
    assert LoopStep(t, pieces, l2, Rest, l.(phase := Waiting));
    ReachesStep(t, pieces, l0, l2, Rest, l.(phase := Waiting));
  }

  lemma Happens(t: Torrent, pieces: seq<Bytes>, l0: Loop, l: Loop, e: Event, m': Manager)
    requires Reaches(t, pieces, l0, l) && Allowed(l, e) && ManagerMoves(t, pieces, l.m, e, m')
    ensures Reaches(t, pieces, l0, After(l, e, m'))
  {
    assert LoopStep(t, pieces, l, Does(e), After(l, e, m'));
    ReachesStep(t, pieces, l0, l, Does(e), After(l, e, m'));
  }

  /** An event that is handled while everybody chokes is followed by an idle fill. */
  lemma Handles(t: Torrent, pieces: seq<Bytes>, l0: Loop, l: Loop, e: Event, m': Manager)
    requires Reaches(t, pieces, l0, l) && l.phase.Waiting? && Allowed(l, e) && PhaseAfter(Waiting, e) == Ready
    requires ManagerMoves(t, pieces, l.m, e, m') && AllChoked(m')
    ensures Reaches(t, pieces, l0, After(l, e, m').(phase := Waiting))
  {
    Happens(t, pieces, l0, l, e, m');
    IdleFill(t, pieces, l0, After(l, e, m'));
  }

  lemma Sizes(t: Torrent, m: Manager)
    requires t.Valid() && Reached(t, m)
    ensures |m.picker.pieces| == t.Count() && Sized(m.picker)
  {
    ReachedInv(t, m);
  }

  // ----- A peer joins, a peer chokes

  ghost function Joined(m: Manager, a: Addr): Manager {
    m.(clients := m.clients[a := NEW_CLIENT], picker := Register(m.picker, a))
  }

  lemma Joins(t: Torrent, pieces: seq<Bytes>, l0: Loop, l: Loop, a: Addr)
    requires Reaches(t, pieces, l0, l) && Calm(t, l)
    ensures var l' := l.(m := Joined(l.m, a), older := OlderAfter(l, PeerAdded(a)));
            Reaches(t, pieces, l0, l') && Calm(t, l')
  {
    Sizes(t, l.m);
    var m' := Joined(l.m, a);
    assert ManagerStep(t, l.m, PeerAdded(a), m');
    ReachedNext(t, l.m, PeerAdded(a), m');
    Happens(t, pieces, l0, l, PeerAdded(a), m');
    assert After(l, PeerAdded(a), m') == l.(m := m', older := OlderAfter(l, PeerAdded(a)));
  }

  ghost function Choking(m: Manager, a: Addr, choked: bool): Manager
    requires a in m.clients
  {
    m.(clients := m.clients[a := m.clients[a].(choked := choked)])
  }

  lemma Chokes(t: Torrent, pieces: seq<Bytes>, l0: Loop, l: Loop, a: Addr, choked: bool)
    requires t.Valid() && Reaches(t, pieces, l0, l) && Reached(t, l.m) && a in l.m.clients
    ensures Reached(t, Choking(l.m, a, choked))
    ensures Reaches(t, pieces, l0, l.(m := Choking(l.m, a, choked), inbox := l.inbox + multiset{Notice(a)}))
  {
    Sizes(t, l.m);
    var e, m' := ChokeRead(a, choked), Choking(l.m, a, choked);
    assert ManagerStep(t, l.m, e, m');
    ReachedNext(t, l.m, e, m');
    Happens(t, pieces, l0, l, e, m');
    assert After(l, e, m') == l.(m := m', inbox := l.inbox + multiset{Notice(a)});
  }

  /** The notice that a peer chokes is handled while everybody chokes. */
  lemma Notices(t: Torrent, pieces: seq<Bytes>, l0: Loop, l: Loop, a: Addr)
    requires t.Valid() && Reaches(t, pieces, l0, l) && Reached(t, l.m) && l.phase.Waiting? && AllChoked(l.m)
    ensures Reaches(t, pieces, l0, l.(inbox := l.inbox - multiset{Notice(a)}))
  {
    Sizes(t, l.m);
    assert ManagerStep(t, l.m, OtherMessage(a), l.m);
    Handles(t, pieces, l0, l, OtherMessage(a), l.m);
    assert After(l, OtherMessage(a), l.m).(phase := Waiting) == l.(inbox := l.inbox - multiset{Notice(a)});
  }

  /** All notices are handled. */
  lemma {:induction false} Settles(t: Torrent, pieces: seq<Bytes>, l0: Loop, l: Loop)
    requires t.Valid() && Reaches(t, pieces, l0, l) && Reached(t, l.m) && l.phase.Waiting? && AllChoked(l.m)
    requires forall u :: u in l.inbox ==> u.Notice?
    ensures Reaches(t, pieces, l0, l.(inbox := multiset{})) && Calm(t, l.(inbox := multiset{}))
    decreases |l.inbox|
  {
    if l.inbox == multiset{} {
      assert l == l.(inbox := multiset{});
    } else {
      var u :| u in l.inbox;
      Notices(t, pieces, l0, l, u.addr);
      var l1 := l.(inbox := l.inbox - multiset{u});
      Settles(t, pieces, l0, l1);
      assert l1.(inbox := multiset{}) == l.(inbox := multiset{});
    }
  }

  /** The same connections with the same requests. */
  predicate SameTracked(m: Manager, m': Manager) {
    && m'.clients.Keys == m.clients.Keys
    && forall a :: a in m.clients ==> m'.clients[a] == m.clients[a].(choked := m'.clients[a].choked)
  }

  ghost function Unchoked(m: Manager): set<Addr> {
    set a | a in m.clients && !m.clients[a].choked
  }

  lemma {:induction false} ChokesAll(t: Torrent, pieces: seq<Bytes>, l0: Loop, l: Loop) returns (m': Manager)
    requires t.Valid() && Reaches(t, pieces, l0, l) && Reached(t, l.m) && l.phase.Waiting?
    requires forall u :: u in l.inbox ==> u.Notice?
    ensures Reaches(t, pieces, l0, l.(m := m', inbox := multiset{})) && Calm(t, l.(m := m', inbox := multiset{}))
    ensures m' == l.m.(clients := m'.clients) && SameTracked(l.m, m')
    decreases |Unchoked(l.m)|
  {
    if Unchoked(l.m) == {} {
      m' := l.m;
      assert forall a :: a in l.m.clients && !l.m.clients[a].choked ==> a in Unchoked(l.m);
      Settles(t, pieces, l0, l);
      assert l.(inbox := multiset{}) == l.(m := m', inbox := multiset{});
    } else {
      var a :| a in Unchoked(l.m);
      Chokes(t, pieces, l0, l, a, true);
      var l1 := l.(m := Choking(l.m, a, true), inbox := l.inbox + multiset{Notice(a)});
      assert Unchoked(l1.m) == Unchoked(l.m) - {a};
      m' := ChokesAll(t, pieces, l0, l1);
      assert l1.(m := m', inbox := multiset{}) == l.(m := m', inbox := multiset{});
    }
  }

  // ----- An answer

  /** The bytes a seeder sends in answer to the request. */
  function AnswerTo(pieces: seq<Bytes>, r: Request): Bytes
    requires r.index < |pieces| && r.begin + r.length <= |pieces[r.index]|
  {
    PiecePayload(r.index, r.begin, pieces[r.index][r.begin..r.begin + r.length])
  }

  lemma AnswerFits(t: Torrent, data: Bytes, pieces: seq<Bytes>, r: Request)
    requires t.Valid() && WireSized(t) && Served(t, data, pieces) && RequestOk(t, r)
    ensures r.index < |pieces| && r.begin + r.length <= |pieces[r.index]|
    ensures var p := AnswerTo(pieces, r);
            && |p| >= 8 && Uint32(p, 0) == r.index && Uint32(p, 4) == r.begin
            && Serve(pieces, RequestPayload(r.index, r.begin, r.length)) == Send(Message(PIECE, p))
  {
    RequestInPiece(t, data, r);
    ServesBlock(pieces, r.index, r.begin, r.length);
    AnswerIs(pieces, r, AnswerTo(pieces, r));
  }

  ghost function Read(m: Manager, r: Request, p: Bytes): Manager
    requires r.peer in m.clients && |p| >= 8
  {
    m.(clients := m.clients[r.peer := Heard(m.clients[r.peer], r.peer, p)])
  }

  /** An answer is read while the peer does not choke. */
  lemma ReadsAnswer(t: Torrent, pieces: seq<Bytes>, l0: Loop, l: Loop, a: Addr, p: Bytes)
    requires t.Valid() && Reaches(t, pieces, l0, l) && Reached(t, l.m) && a in l.m.clients && !l.m.clients[a].choked
    requires Replies(pieces, l.m.clients[a].unanswered, a, p)
    ensures var m1 := Read(l.m, ReplyTo(a, p), p);
            Reaches(t, pieces, l0, l.(m := m1, inbox := l.inbox + multiset{Arrived(a, p)})) && Reached(t, m1)
  {
    Sizes(t, l.m);
    var e, m1 := PieceRead(a, p), Read(l.m, ReplyTo(a, p), p);
    assert ManagerStep(t, l.m, e, m1);
    ReachedNext(t, l.m, e, m1);
    Happens(t, pieces, l0, l, e, m1);
    assert After(l, e, m1) == l.(m := m1, inbox := l.inbox + multiset{Arrived(a, p)});
  }

  lemma PieceQuiet(t: Torrent, m: Manager, a: Addr, p: Bytes)
    requires t.Valid() && Reached(t, m) && |m.picker.pieces| == t.Count()
    ensures PieceArrived(t, m, a, p).clients == m.clients
  {
    ReachedInv(t, m);
    PieceStep(t, m, a, p);
  }

  /** An answer is handled while everybody chokes, and then the notices. */
  lemma HandlesAnswer(t: Torrent, pieces: seq<Bytes>, l0: Loop, l: Loop, a: Addr, p: Bytes)
    requires t.Valid() && Reaches(t, pieces, l0, l) && Reached(t, l.m) && l.phase.Waiting? && AllChoked(l.m)
    requires Arrived(a, p) in l.inbox && (forall u :: u in l.inbox - multiset{Arrived(a, p)} ==> u.Notice?)
    requires |l.m.picker.pieces| == t.Count()
    ensures var l' := l.(m := PieceArrived(t, l.m, a, p), inbox := multiset{});
            Reaches(t, pieces, l0, l') && Calm(t, l')
  {
    Sizes(t, l.m);
    var e, m' := PieceMessage(a, p), PieceArrived(t, l.m, a, p);
    PieceQuiet(t, l.m, a, p);
    ReachedNext(t, l.m, e, m');
    Handles(t, pieces, l0, l, e, m');
    var l1 := l.(m := m', inbox := l.inbox - multiset{Arrived(a, p)});
    assert After(l, e, m').(phase := Waiting) == l1;
    Settles(t, pieces, l0, l1);
    assert l1.(inbox := multiset{}) == l.(m := m', inbox := multiset{});
  }

  /** A peer stops choking, answers, and chokes again. */
  lemma Interlude(t: Torrent, pieces: seq<Bytes>, l0: Loop, l: Loop, a: Addr, p: Bytes)
    returns (inbox: multiset<Unhandled>)
    requires Calm(t, l) && Reaches(t, pieces, l0, l) && a in l.m.clients
    requires Replies(pieces, l.m.clients[a].unanswered, a, p)
    ensures var l' := l.(m := Read(l.m, ReplyTo(a, p), p), inbox := inbox);
            Reaches(t, pieces, l0, l') && Reached(t, l'.m) && AllChoked(l'.m)
    ensures Arrived(a, p) in inbox && forall u :: u in inbox - multiset{Arrived(a, p)} ==> u.Notice?
  {
    var m1 := Choking(l.m, a, false);
    var m2 := Read(m1, ReplyTo(a, p), p);
    var m3 := Choking(m2, a, true);
    var i1 := multiset{Notice(a)};
    var i2 := i1 + multiset{Arrived(a, p)};
    inbox := i2 + multiset{Notice(a)};
    Chokes(t, pieces, l0, l, a, false);
    ReadsAnswer(t, pieces, l0, l.(m := m1, inbox := i1), a, p);
    assert l.(m := m1, inbox := i1).(m := m2, inbox := i2) == l.(m := m2, inbox := i2);
    Chokes(t, pieces, l0, l.(m := m2, inbox := i2), a, true);
    assert l.(m := m2, inbox := i2).(m := m3, inbox := inbox) == l.(m := m3, inbox := inbox);
    ReadBetween(l.m, ReplyTo(a, p), p);
  }

  lemma ReadBetween(m: Manager, r: Request, p: Bytes)
    requires r.peer in m.clients && m.clients[r.peer].choked && |p| >= 8
    ensures Choking(Read(Choking(m, r.peer, false), r, p), r.peer, true) == Read(m, r, p)
  {
    var a := r.peer;
    var m' := Choking(Read(Choking(m, a, false), r, p), a, true);
    assert m'.clients[a] == Read(m, r, p).clients[a];
    assert m'.clients == Read(m, r, p).clients;
  }

  lemma AnswerReplies(t: Torrent, data: Bytes, pieces: seq<Bytes>, unanswered: multiset<Request>, r: Request)
    requires t.Valid() && WireSized(t) && Served(t, data, pieces) && RequestOk(t, r) && r in unanswered
    ensures r.index < |pieces| && r.begin + r.length <= |pieces[r.index]|
    ensures var p := AnswerTo(pieces, r); Replies(pieces, unanswered, r.peer, p) && ReplyTo(r.peer, p) == r
  {
    AnswerFits(t, data, pieces, r);
    var p := AnswerTo(pieces, r);
    AnswerIs(pieces, r, p);
    assert |p| == 8 + r.length;
  }

  /** A connection answers one of its requests, and the answer is handled at once. */
  lemma AnswerArrives(t: Torrent, data: Bytes, pieces: seq<Bytes>, l0: Loop, l: Loop, r: Request) returns (l': Loop)
    requires WireSized(t) && Calm(t, l) && Served(t, data, pieces) && Reaches(t, pieces, l0, l)
    requires r.peer in l.m.clients && r in l.m.clients[r.peer].unanswered && r in l.m.requests
    ensures Reaches(t, pieces, l0, l') && Calm(t, l') && l'.clock == l.clock && l'.older == l.older
    ensures l'.m.requests == l.m.requests && l'.m.clients.Keys == l.m.clients.Keys
    ensures forall a :: a in l.m.clients && a != r.peer ==> l'.m.clients[a] == l.m.clients[a]
    ensures l'.m.clients[r.peer].outstanding == l.m.clients[r.peer].outstanding - {(r.index, r.begin)}
    ensures l'.m.clients[r.peer].unanswered == l.m.clients[r.peer].unanswered - multiset{r}
    ensures l'.m.picker == Complete(l.m.picker, r.index, r.begin, r.peer).picker
  {
    ReachedInv(t, l.m);
    AnswerReplies(t, data, pieces, l.m.clients[r.peer].unanswered, r);
    var p := AnswerTo(pieces, r);
    var inbox := Interlude(t, pieces, l0, l, r.peer, p);
    var l1 := l.(m := Read(l.m, r, p), inbox := inbox);
    ReachedInv(t, l1.m);
    PieceStep(t, l1.m, r.peer, p);
    HandlesAnswer(t, pieces, l0, l1, r.peer, p);
    l' := l1.(m := PieceArrived(t, l1.m, r.peer, p), inbox := multiset{});
  }

  /** A replaced connection answers, and the answer is handled at once. */
  lemma OlderAnswers(t: Torrent, data: Bytes, pieces: seq<Bytes>, l0: Loop, l: Loop, r: Request) returns (l': Loop)
    requires WireSized(t) && Calm(t, l) && Served(t, data, pieces) && Reaches(t, pieces, l0, l)
    requires r in l.older && r in l.m.requests
    ensures Reaches(t, pieces, l0, l') && Calm(t, l') && l'.older == l.older - multiset{r}
    ensures l'.m.requests == l.m.requests && l'.m.clients == l.m.clients
    ensures l'.m.picker == Complete(l.m.picker, r.index, r.begin, r.peer).picker
  {
    ReachedInv(t, l.m);
    AnswerReplies(t, data, pieces, l.older, r);
    var p := AnswerTo(pieces, r);
    var l1 := l.(inbox := multiset{Arrived(r.peer, p)}, older := l.older - multiset{r});
    assert l1.inbox == l.inbox + multiset{Arrived(r.peer, p)};
    assert LoopStep(t, pieces, l, Stray(r.peer, p), l1);
    ReachesStep(t, pieces, l0, l, Stray(r.peer, p), l1);
    PieceStep(t, l.m, r.peer, p);
    HandlesAnswer(t, pieces, l0, l1, r.peer, p);
    l' := l1.(m := PieceArrived(t, l.m, r.peer, p), inbox := multiset{});
  }
}
