/**
 * The event loop around the manager: one goroutine handles a message or a tick and then runs the request
 * loop to its own end before it waits again; readers and tickers of the connections run beside it.
 */
module EventLoop {
  import opened Bytes
  import opened Layout
  import opened Wire
  import opened PickerModel
  import opened Seeder
  import opened ManagerModel
  import opened ManagerRuns
  import opened EndToEnd
  import opened BlockHistory

  /**
   * Where the goroutine is: in its select, between the two halves of removing a peer, about to fill the
   * pipelines, between two peers of the fill, or in the request loop of one of them.
   */
  datatype Phase =
    | Waiting
    | Removing(addr: Addr)
    | Ready
    | Filling(left: set<Addr>)
    | Asking(addr: Addr, left: set<Addr>)

  /** A piece message, or a choke or unchoke message, that was read from a connection and not handled yet. */
  datatype Unhandled = Arrived(addr: Addr, payload: Bytes) | Notice(addr: Addr)

  /**
   * `inbox` is the channel of messages between the readers and the loop, without its order. `older` are the
   * requests not answered on connections that were replaced in the table: adding a peer under a live address
   * does not close the connection it replaces, so that one goes on reading and its messages are handled.
   */
  datatype Loop = Loop(
    m: Manager,
    phase: Phase,
    clock: int,
    inbox: multiset<Unhandled>,
    older: multiset<Request>)

  /**
   * A step of the manager; an answer read by a connection that was replaced; what is lost with the connections
   * of an address that is no longer in the table: messages read and not yet in the channel, and requests of
   * replaced connections; or a move of the loop.
   */
  datatype Act =
    | Does(e: Event)
    | Stray(addr: Addr, payload: Bytes)
    | Closes(addr: Addr, dropped: multiset<Unhandled>, lost: multiset<Request>)
    | Begin
    | Pick(addr: Addr)
    | Full
    | Rest

  /**
   * When an event can happen. Readers and tickers act at any time; a peer is added only while the request
   * loop does not hold the lock; messages and ticks are handled only by the waiting goroutine, and a piece
   * message only after it was read. The clock never goes back.
   */
  predicate Allowed(l: Loop, e: Event) {
    match e
    case PieceRead(_, _) => true
    case ChokeRead(_, _) => true
    case StallSweep(_, now) => l.clock <= now
    case PeerAdded(_) => !l.phase.Filling? && !l.phase.Asking?
    case PeerDropped(a) => l.phase.Waiting? && a in l.m.clients
    case PeerUnregistered(a) => l.phase == Removing(a)
    case GrantTurn(a, now, _) => l.phase.Asking? && l.phase.addr == a && l.clock <= now
    case Tick(now) => l.phase.Waiting? && l.clock <= now
    case PieceMessage(a, p) => l.phase.Waiting? && Arrived(a, p) in l.inbox
    case _ => l.phase.Waiting?
  }

  function PhaseAfter(phase: Phase, e: Event): Phase {
    match e
    case PieceRead(_, _) => phase
    case ChokeRead(_, _) => phase
    case StallSweep(_, _) => phase
    case PeerAdded(_) => phase
    case PeerDropped(a) => Removing(a)
    case GrantTurn(_, _, granted) => if granted.None? && phase.Asking? then Filling(phase.left) else phase
    case _ => Ready
  }

  function ClockAfter(clock: int, e: Event): int {
    match e
    case StallSweep(_, now) => now
    case GrantTurn(_, now, _) => now
    case Tick(now) => now
    case _ => clock
  }

  function InboxAfter(inbox: multiset<Unhandled>, e: Event): multiset<Unhandled> {
    match e
    case PieceRead(a, p) => inbox + multiset{Arrived(a, p)}
    case ChokeRead(a, _) => inbox + multiset{Notice(a)}
    case PieceMessage(a, p) => inbox - multiset{Arrived(a, p)}
    case OtherMessage(a) => inbox - multiset{Notice(a)}
    case _ => inbox
  }

  function OlderAfter(l: Loop, e: Event): multiset<Request> {
    if e.PeerAdded? && e.addr in l.m.clients then l.older + l.m.clients[e.addr].unanswered else l.older
  }

  function After(l: Loop, e: Event, m: Manager): Loop {
    Loop(m, PhaseAfter(l.phase, e), ClockAfter(l.clock, e), InboxAfter(l.inbox, e), OlderAfter(l, e))
  }

  /** The payload is a seeder's answer to one of the requests that a connection sent and that were not answered. */
  predicate Replies(pieces: seq<Bytes>, unanswered: multiset<Request>, a: Addr, p: Bytes) {
    |p| >= 8 &&
    var r := ReplyTo(a, p);
    r in unanswered && Serve(pieces, RequestPayload(r.index, r.begin, r.length)) == Send(Message(PIECE, p))
  }

  /**
   * What the peers do: a connection reads only piece messages that answer a request sent over it, each request
   * is answered at most once, and no peer sends data while it chokes.
   */
  predicate HonestFrom(pieces: seq<Bytes>, m: Manager, e: Event) {
    e.PieceRead? && e.addr in m.clients ==>
      !m.clients[e.addr].choked && Replies(pieces, m.clients[e.addr].unanswered, e.addr, e.payload)
  }

  /**
   * The rest of the acts. In the request loop choked peers are skipped, and five tracked requests end a peer's
   * turn.
   */
  ghost predicate Steers(pieces: seq<Bytes>, l: Loop, act: Act, l': Loop) {
    match act
    case Stray(a, p) =>
      && Replies(pieces, l.older, a, p)
      && l' == l.(inbox := l.inbox + multiset{Arrived(a, p)}, older := l.older - multiset{ReplyTo(a, p)})
    case Closes(a, dropped, lost) =>
      && a !in l.m.clients && (forall u :: u in dropped ==> u.addr == a) && (forall r :: r in lost ==> r.peer == a)
      && l' == l.(inbox := l.inbox - dropped, older := l.older - lost)
    case Begin => l.phase.Ready? && l' == l.(phase := Filling(l.m.clients.Keys))
    case Pick(a) =>
      && l.phase.Filling? && a in l.phase.left && a in l.m.clients
      && l' == l.(phase := if l.m.clients[a].choked then Filling(l.phase.left - {a}) else Asking(a, l.phase.left - {a}))
    case Full =>
      && l.phase.Asking? && l.phase.addr in l.m.clients && |l.m.clients[l.phase.addr].outstanding| >= PIPELINE
      && l' == l.(phase := Filling(l.phase.left))
    case Rest => l.phase == Filling({}) && l' == l.(phase := Waiting)
    case Does(_) => false
  }

  ghost predicate ManagerMoves(t: Torrent, pieces: seq<Bytes>, m: Manager, e: Event, m': Manager) {
    && t.Valid() && |m.picker.pieces| == t.Count() && Sized(m.picker)
    && ManagerStep(t, m, e, m') && HonestFrom(pieces, m, e)
  }

  ghost predicate LoopStep(t: Torrent, pieces: seq<Bytes>, l: Loop, act: Act, l': Loop) {
    if act.Does? then Allowed(l, act.e) && ManagerMoves(t, pieces, l.m, act.e, l'.m) && l' == After(l, act.e, l'.m)
    else Steers(pieces, l, act, l')
  }

  ghost predicate LoopAt(t: Torrent, pieces: seq<Bytes>, ls: seq<Loop>, acts: seq<Act>, k: nat)
    requires k < |acts| && k + 1 < |ls|
  {
    LoopStep(t, pieces, ls[k], acts[k], ls[k + 1])
  }

  ghost predicate LoopPath(t: Torrent, pieces: seq<Bytes>, ls: seq<Loop>, acts: seq<Act>) {
    |ls| == |acts| + 1 && forall k :: 0 <= k < |acts| ==> LoopAt(t, pieces, ls, acts, k)
  }

  function Begins(t: Torrent): Loop
    requires t.pieceLength > 0
  {
    Loop(Start(t), Waiting, 0, multiset{}, multiset{})
  }

  /** A run of the event loop among honest peers. */
  ghost predicate LoopRun(t: Torrent, pieces: seq<Bytes>, ls: seq<Loop>, acts: seq<Act>) {
    t.Valid() && LoopPath(t, pieces, ls, acts) && ls[0] == Begins(t)
  }

  // ----- Longer runs

  /** A step of a run is a step of any longer one. */
  lemma StepAtStays(t: Torrent, ms: seq<Manager>, es: seq<Event>, j: nat, e: Event, m: Manager)
    requires t.Valid() && j < |es| && j + 1 < |ms| && ManagerStepAt(t, ms, es, j)
    ensures ManagerStepAt(t, ms + [m], es + [e], j)
  {
    var ms', es' := ms + [m], es + [e];
    assert ms'[j] == ms[j] && ms'[j + 1] == ms[j + 1] && es'[j] == es[j];
  }

  lemma LastStepAt(t: Torrent, ms: seq<Manager>, es: seq<Event>, e: Event, m: Manager)
    requires t.Valid() && |ms| == |es| + 1 && |ms[|es|].picker.pieces| == t.Count() && Sized(ms[|es|].picker)
    requires ManagerStep(t, ms[|es|], e, m)
    ensures ManagerStepAt(t, ms + [m], es + [e], |es|)
  {
    var ms', es' := ms + [m], es + [e];
    assert ms'[|es|] == ms[|es|] && ms'[|es| + 1] == m && es'[|es|] == e;
  }

  // ----- States that a run can reach

  ghost predicate Reached(t: Torrent, m: Manager)
    requires t.Valid()
  {
    exists ms, es :: ManagerRun(t, ms, es) && ms[|es|] == m
  }

  lemma ReachedStart(t: Torrent)
    requires t.Valid()
    ensures Reached(t, Start(t))
  {
    assert ManagerRun(t, [Start(t)], []);
  }

  lemma RunLonger(t: Torrent, ms: seq<Manager>, es: seq<Event>, e: Event, m: Manager)
    requires t.Valid() && ManagerRun(t, ms, es) && ManagerStepAt(t, ms + [m], es + [e], |es|)
    ensures ManagerRun(t, ms + [m], es + [e])
  {
    forall j | 0 <= j < |es|
      ensures ManagerStepAt(t, ms + [m], es + [e], j)
    {
      assert ManagerStepAt(t, ms, es, j);
      StepAtStays(t, ms, es, j, e, m);
    }
  }

  lemma ReachedNext(t: Torrent, m: Manager, e: Event, m': Manager)
    requires t.Valid() && Reached(t, m)
    requires |m.picker.pieces| == t.Count() && Sized(m.picker) && ManagerStep(t, m, e, m')
    ensures Reached(t, m')
  {
    var ms, es :| ManagerRun(t, ms, es) && ms[|es|] == m;
    LastStepAt(t, ms, es, e, m');
    RunLonger(t, ms, es, e, m');
    assert (ms + [m'])[|es + [e]|] == m';
  }

  lemma ReachedInv(t: Torrent, m: Manager)
    requires t.Valid() && Reached(t, m)
    ensures ManagerInv(t, m)
  {
    var ms, es :| ManagerRun(t, ms, es) && ms[|es|] == m;
    RunKeepsManagerInv(t, ms, es, |es|);
  }

  lemma ReachedAsked(t: Torrent, m: Manager)
    requires t.Valid() && Reached(t, m)
    ensures OwnersAsked(m) && TrackedAsked(m)
  {
    var ms, es :| ManagerRun(t, ms, es) && ms[|es|] == m;
    RunKeepsAsked(t, ms, es, |es|);
  }

  lemma ReachedByLoop(t: Torrent, pieces: seq<Bytes>, l: Loop, act: Act, l': Loop)
    requires t.Valid() && Reached(t, l.m) && LoopStep(t, pieces, l, act, l')
    ensures Reached(t, l'.m)
  {
    if act.Does? {
      ReachedNext(t, l.m, act.e, l'.m);
    }
  }

  // ----- Every run of the loop is a run of the manager

  /** The request was sent, and the payload is a seeder's answer to it. */
  ghost predicate Answers(pieces: seq<Bytes>, m: Manager, r: Request, p: Bytes) {
    r in m.requests && Serve(pieces, RequestPayload(r.index, r.begin, r.length)) == Send(Message(PIECE, p))
  }

  /** What waits to be handled answers requests, and replaced connections wait for answers to such only. */
  ghost predicate Sound(pieces: seq<Bytes>, l: Loop) {
    && (forall a, p :: Arrived(a, p) in l.inbox ==> exists r :: Answers(pieces, l.m, r, p))
    && (forall r :: r in l.older ==> r in l.m.requests)
  }

  lemma RepliesAnswers(pieces: seq<Bytes>, m: Manager, unanswered: multiset<Request>, a: Addr, p: Bytes)
    requires Replies(pieces, unanswered, a, p) && forall r :: r in unanswered ==> r in m.requests
    ensures Answers(pieces, m, ReplyTo(a, p), p)
  {
  }

  lemma MovesKnown(t: Torrent, pieces: seq<Bytes>, m: Manager, e: Event, m': Manager)
    requires t.Valid() && Reached(t, m) && ManagerMoves(t, pieces, m, e, m')
    ensures m.requests <= m'.requests && TrackedAsked(m) && (e.PieceRead? ==> e.addr in m.clients)
  {
    ReachedInv(t, m);
    ReachedAsked(t, m);
    StepOp(t, m, e, m');
  }

  /** What a step puts into the inbox, and what it leaves behind with a replaced connection. */
  lemma AfterSound(pieces: seq<Bytes>, l: Loop, e: Event, m: Manager)
    requires Sound(pieces, l) && TrackedAsked(l.m) && HonestFrom(pieces, l.m, e) && l.m.requests <= m.requests
    requires e.PieceRead? ==> e.addr in l.m.clients
    ensures Sound(pieces, After(l, e, m))
  {
    var l' := After(l, e, m);
    forall a, p | Arrived(a, p) in l'.inbox
      ensures exists r :: Answers(pieces, m, r, p)
    {
      var r := AnsweredRequest(pieces, l, e, m, a, p);
    }
    forall r | r in l'.older
      ensures r in m.requests
    {
      assert e.PeerAdded? && e.addr in l.m.clients ==> ClientAsked(l.m.clients[e.addr], e.addr, l.m.requests);
    }
  }

  lemma AnsweredRequest(pieces: seq<Bytes>, l: Loop, e: Event, m: Manager, a: Addr, p: Bytes) returns (r: Request)
    requires Sound(pieces, l) && TrackedAsked(l.m) && HonestFrom(pieces, l.m, e) && l.m.requests <= m.requests
    requires e.PieceRead? ==> e.addr in l.m.clients
    requires Arrived(a, p) in After(l, e, m).inbox
    ensures Answers(pieces, m, r, p)
  {
    if Arrived(a, p) in l.inbox {
      r :| Answers(pieces, l.m, r, p);
    } else {
      assert e == PieceRead(a, p) && ClientAsked(l.m.clients[a], a, l.m.requests);
      r := ReplyTo(a, p);
    }
  }

  lemma SoundStep(t: Torrent, pieces: seq<Bytes>, l: Loop, act: Act, l': Loop)
    requires t.Valid() && Reached(t, l.m) && Sound(pieces, l) && LoopStep(t, pieces, l, act, l')
    ensures Sound(pieces, l')
  {
    if act.Does? {
      MovesKnown(t, pieces, l.m, act.e, l'.m);
      AfterSound(pieces, l, act.e, l'.m);
    } else {
      SteersSound(pieces, l, act, l');
    }
  }

  lemma SteersSound(pieces: seq<Bytes>, l: Loop, act: Act, l': Loop)
    requires Sound(pieces, l) && Steers(pieces, l, act, l')
    ensures Sound(pieces, l')
  {
    if act.Stray? {
      RepliesAnswers(pieces, l.m, l.older, act.addr, act.payload);
    }
  }

  /** A piece message that is handled answers a request. */
  lemma HandledHonest(t: Torrent, pieces: seq<Bytes>, l: Loop, e: Event, l': Loop)
    requires Sound(pieces, l) && LoopStep(t, pieces, l, Does(e), l')
    ensures Honest(pieces, l.m, e)
  {
    if e.PieceMessage? {
      var r :| Answers(pieces, l.m, r, e.payload);
    }
  }

  lemma {:induction false} LoopRunIsRun(t: Torrent, pieces: seq<Bytes>, ls: seq<Loop>, acts: seq<Act>, k: nat)
    returns (ms: seq<Manager>, es: seq<Event>)
    requires LoopRun(t, pieces, ls, acts) && k < |ls|
    ensures ManagerRun(t, ms, es) && ms[|es|] == ls[k].m && Sound(pieces, ls[k])
    ensures forall j :: 0 <= j < |es| ==> HonestAt(pieces, ms, es, j)
  {
    if k == 0 {
      ms, es := [Start(t)], [];
    } else {
      ms, es := LoopRunIsRun(t, pieces, ls, acts, k - 1);
      assert LoopAt(t, pieces, ls, acts, k - 1);
      ms, es := RunNext(t, pieces, ls[k - 1], acts[k - 1], ls[k], ms, es);
    }
  }

  lemma RunNext(t: Torrent, pieces: seq<Bytes>, l: Loop, act: Act, l': Loop, ms0: seq<Manager>, es0: seq<Event>)
    returns (ms: seq<Manager>, es: seq<Event>)
    requires t.Valid() && ManagerRun(t, ms0, es0) && ms0[|es0|] == l.m && Sound(pieces, l)
    requires forall j :: 0 <= j < |es0| ==> HonestAt(pieces, ms0, es0, j)
    requires LoopStep(t, pieces, l, act, l')
    ensures ManagerRun(t, ms, es) && ms[|es|] == l'.m && Sound(pieces, l')
    ensures forall j :: 0 <= j < |es| ==> HonestAt(pieces, ms, es, j)
  {
    SoundStep(t, pieces, l, act, l');
    if act.Does? {
      HandledHonest(t, pieces, l, act.e, l');
      ms, es := RunExtends(t, pieces, ms0, es0, act.e, l'.m);
    } else {
      ms, es := ms0, es0;
    }
  }

  lemma RunExtends(t: Torrent, pieces: seq<Bytes>, ms0: seq<Manager>, es0: seq<Event>, e: Event, m: Manager)
    returns (ms: seq<Manager>, es: seq<Event>)
    requires t.Valid() && ManagerRun(t, ms0, es0) && ManagerMoves(t, pieces, ms0[|es0|], e, m)
    requires Honest(pieces, ms0[|es0|], e) && forall j :: 0 <= j < |es0| ==> HonestAt(pieces, ms0, es0, j)
    ensures ManagerRun(t, ms, es) && ms[|es|] == m
    ensures forall j :: 0 <= j < |es| ==> HonestAt(pieces, ms, es, j)
  {
    ms, es := ms0 + [m], es0 + [e];
    LastStepAt(t, ms0, es0, e, m);
    RunLonger(t, ms0, es0, e, m);
    HonestLonger(pieces, ms0, es0, e, m);
  }

  lemma HonestLonger(pieces: seq<Bytes>, ms: seq<Manager>, es: seq<Event>, e: Event, m: Manager)
    requires |ms| == |es| + 1 && Honest(pieces, ms[|es|], e)
    requires forall j :: 0 <= j < |es| ==> HonestAt(pieces, ms, es, j)
    ensures forall j :: 0 <= j < |es + [e]| ==> HonestAt(pieces, ms + [m], es + [e], j)
  {
    forall j | 0 <= j < |es + [e]|
      ensures HonestAt(pieces, ms + [m], es + [e], j)
    {
      if j < |es| {
        assert HonestAt(pieces, ms, es, j);
      }
    }
  }

  // ----- Continuations

  /** Honest steps of the loop lead from l to l'. */
  ghost predicate Reaches(t: Torrent, pieces: seq<Bytes>, l: Loop, l': Loop) {
    exists ls, acts :: LoopPath(t, pieces, ls, acts) && ls[0] == l && ls[|acts|] == l'
  }

  /** Done can still be reported. */
  ghost predicate CanFinish(t: Torrent, pieces: seq<Bytes>, l: Loop) {
    exists l' :: Reaches(t, pieces, l, l') && l'.m.doneCloses > 0
  }

  lemma ReachesSelf(t: Torrent, pieces: seq<Bytes>, l: Loop)
    ensures Reaches(t, pieces, l, l)
  {
    assert LoopPath(t, pieces, [l], []);
  }

  lemma ReachesStep(t: Torrent, pieces: seq<Bytes>, l0: Loop, l: Loop, act: Act, l': Loop)
    requires Reaches(t, pieces, l0, l) && LoopStep(t, pieces, l, act, l')
    ensures Reaches(t, pieces, l0, l')
  {
    var ls0, acts0 :| LoopPath(t, pieces, ls0, acts0) && ls0[0] == l0 && ls0[|acts0|] == l;
    PathLonger(t, pieces, ls0, acts0, act, l');
    assert (ls0 + [l'])[|acts0 + [act]|] == l' && (ls0 + [l'])[0] == l0;
  }

  lemma PathLonger(t: Torrent, pieces: seq<Bytes>, ls: seq<Loop>, acts: seq<Act>, act: Act, l: Loop)
    requires LoopPath(t, pieces, ls, acts) && LoopStep(t, pieces, ls[|acts|], act, l)
    ensures LoopPath(t, pieces, ls + [l], acts + [act])
  {
    forall k | 0 <= k < |acts + [act]|
      ensures LoopAt(t, pieces, ls + [l], acts + [act], k)
    {
      if k < |acts| {
        assert LoopAt(t, pieces, ls, acts, k);
        LoopAtStays(t, pieces, ls, acts, k, act, l);
      }
    }
  }

  lemma LoopAtStays(t: Torrent, pieces: seq<Bytes>, ls: seq<Loop>, acts: seq<Act>, k: nat, act: Act, l: Loop)
    requires k < |acts| && k + 1 < |ls| && LoopAt(t, pieces, ls, acts, k)
    ensures LoopAt(t, pieces, ls + [l], acts + [act], k)
  {
    var ls', acts' := ls + [l], acts + [act];
    assert ls'[k] == ls[k] && ls'[k + 1] == ls[k + 1] && acts'[k] == acts[k];
  }
}
