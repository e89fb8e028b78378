/** A missing block whose requests are all lost, and what end-game makes of it. */
module Losses {
  import opened Bytes
  import opened Layout
  import opened PickerModel
  import opened PickerAccounting
  import opened PickerRuns
  import opened ManagerModel
  import opened ManagerRuns
  import opened BlockHistory
  import opened EventLoop
  import opened Awaiting

  /**
   * The block is missing, no open connection has a request for it to answer, and no answer waits to be handled.
   * If it is Pending, its owner is just being removed.
   */
  ghost predicate Stranded(l: Loop, i: nat, b: nat) {
    && Exists(l.m.picker, i, b)
    && var x := At(l.m.picker, i, b);
    && x.state != Completed && !Awaited(l, x)
    && (x.state == Pending ==> l.phase == Removing(x.peer))
  }

  // ----- Where requests and answers come from

  lemma RequestBefore(m: Manager, e: Event, m': Manager, a: Addr, r: Request)
    requires ClientsMove(m, e, m') && a in m'.clients && r in m'.clients[a].unanswered && SentBy(e) != {r}
    ensures a in m.clients && r in m.clients[a].unanswered
  {
    if e.GrantTurn? && e.granted.Some? && e.addr == a {
      assert m'.clients[a] == Posted(m.clients[a], Naming(a, e.granted.value), e.now);
    } else if e.PieceRead? && e.addr == a && |e.payload| >= 8 {
      assert m'.clients[a] == Heard(m.clients[a], a, e.payload);
    }
  }

  /** Only a grant makes a new request. */
  lemma AskedBefore(l: Loop, e: Event, l': Loop, a: Addr, block: Block)
    requires ClientsMove(l.m, e, l'.m) && l' == After(l, e, l'.m)
    requires AskedOf(l', a, block) && SentBy(e) != {Naming(a, block)}
    requires TrackedAsked(l.m)
    ensures AskedOf(l, a, block)
  {
    if Naming(a, block) in l'.older {
      assert e.PeerAdded? && e.addr in l.m.clients ==> ClientAsked(l.m.clients[e.addr], e.addr, l.m.requests);
    } else {
      RequestBefore(l.m, e, l'.m, a, Naming(a, block));
    }
  }

  /** A request that a payload named after the block replies to is the request for the block. */
  lemma RepliedIs(t: Torrent, m: Manager, a: Addr, p: Bytes, i: nat, b: nat)
    requires ManagerInv(t, m) && Exists(m.picker, i, b) && NamedAfter(p, At(m.picker, i, b)) &&
             ReplyTo(a, p) in m.requests
    ensures ReplyTo(a, p) == Naming(a, At(m.picker, i, b))
  {
    ShapeOf(t, m, a, i, b);
    SameLength(t, ReplyTo(a, p), Naming(a, At(m.picker, i, b)));
  }

  /** A new message in the inbox is the answer to a request of the connection that read it. */
  lemma ReadBefore(pieces: seq<Bytes>, l: Loop, e: Event, m: Manager, a: Addr, p: Bytes)
    requires Arrived(a, p) in After(l, e, m).inbox && Arrived(a, p) !in l.inbox
    requires HonestFrom(pieces, l.m, e) && (e.PieceRead? ==> e.addr in l.m.clients)
    ensures a in l.m.clients && |p| >= 8 && ReplyTo(a, p) in l.m.clients[a].unanswered
  {
  }

  lemma AnsweredBefore(t: Torrent, pieces: seq<Bytes>, l: Loop, e: Event, l': Loop, a: Addr, i: nat, b: nat)
    requires ManagerInv(t, l.m) && TrackedAsked(l.m) && HonestFrom(pieces, l.m, e) && l' == After(l, e, l'.m)
    requires e.PieceRead? ==> e.addr in l.m.clients
    requires Exists(l.m.picker, i, b) && AnsweredBy(l', a, At(l.m.picker, i, b))
    ensures AwaitedFrom(l, a, At(l.m.picker, i, b))
  {
    var p := AnswerOf(l', a, At(l.m.picker, i, b));
    if Arrived(a, p) !in l.inbox {
      ReadBefore(pieces, l, e, l'.m, a, p);
      assert ClientAsked(l.m.clients[a], a, l.m.requests);
      RepliedIs(t, l.m, a, p, i, b);
    }
  }

  lemma AnswerOf(l: Loop, a: Addr, block: Block) returns (p: Bytes)
    requires AnsweredBy(l, a, block)
    ensures Arrived(a, p) in l.inbox && NamedAfter(p, block)
  {
    p :| Arrived(a, p) in l.inbox && NamedAfter(p, block);
  }

  // ----- A stranded block stays so

  lemma NotAwaited(t: Torrent, pieces: seq<Bytes>, l: Loop, e: Event, l': Loop, i: nat, b: nat, y: Block)
    requires t.Valid() && Reached(t, l.m) && LoopStep(t, pieces, l, Does(e), l')
    requires Exists(l.m.picker, i, b) && !Awaited(l, At(l.m.picker, i, b)) && SamePlace(At(l.m.picker, i, b), y)
    requires e.GrantTurn? && e.granted.Some? ==> !SamePlace(e.granted.value, At(l.m.picker, i, b))
    ensures !Awaited(l', y)
  {
    var x := At(l.m.picker, i, b);
    ReachedInv(t, l.m);
    StepClients(t, l.m, e, l'.m);
    MovesKnown(t, pieces, l.m, e, l'.m);
    forall a
      ensures !AwaitedFrom(l', a, y)
    {
      if AwaitedFrom(l', a, y) {
        SameName(l', a, y, x);
        AwaitedBefore(t, pieces, l, e, l', a, i, b);
      }
    }
  }

  lemma AwaitedBefore(t: Torrent, pieces: seq<Bytes>, l: Loop, e: Event, l': Loop, a: Addr, i: nat, b: nat)
    requires ManagerInv(t, l.m) && TrackedAsked(l.m) && HonestFrom(pieces, l.m, e) && l' == After(l, e, l'.m)
    requires ClientsMove(l.m, e, l'.m) && (e.PieceRead? ==> e.addr in l.m.clients)
    requires Exists(l.m.picker, i, b) && AwaitedFrom(l', a, At(l.m.picker, i, b))
    requires e.GrantTurn? && e.granted.Some? ==> !SamePlace(e.granted.value, At(l.m.picker, i, b))
    ensures AwaitedFrom(l, a, At(l.m.picker, i, b))
  {
    var x := At(l.m.picker, i, b);
    if AskedOf(l', a, x) {
      assert SentBy(e) == {} || SentBy(e) == {Naming(e.addr, e.granted.value)};
      AskedBefore(l, e, l', a, x);
    } else {
      AnsweredBefore(t, pieces, l, e, l', a, i, b);
    }
  }

  lemma SteersStranded(t: Torrent, pieces: seq<Bytes>, l: Loop, act: Act, l': Loop, i: nat, b: nat)
    requires ManagerInv(t, l.m) && Sound(pieces, l) && Stranded(l, i, b) && Steers(pieces, l, act, l')
    ensures Stranded(l', i, b)
  {
    var x := At(l.m.picker, i, b);
    forall a
      ensures !AwaitedFrom(l', a, x)
    {
      if AwaitedFrom(l', a, x) {
        SteersBefore(t, pieces, l, act, l', a, i, b);
      }
    }
  }

  lemma SteersBefore(t: Torrent, pieces: seq<Bytes>, l: Loop, act: Act, l': Loop, a: Addr, i: nat, b: nat)
    requires ManagerInv(t, l.m) && Sound(pieces, l) && Steers(pieces, l, act, l')
    requires Exists(l.m.picker, i, b) && AwaitedFrom(l', a, At(l.m.picker, i, b))
    ensures AwaitedFrom(l, a, At(l.m.picker, i, b))
  {
    var x := At(l.m.picker, i, b);
    if AskedOf(l', a, x) {
      SteersAsked(pieces, l, act, l', a, x);
    } else {
      var p := AnswerOf(l', a, x);
      StrayBefore(pieces, l, act, l', a, p);
      if Arrived(a, p) !in l.inbox {
        RepliedIs(t, l.m, a, p, i, b);
      }
    }
  }

  lemma SteersAsked(pieces: seq<Bytes>, l: Loop, act: Act, l': Loop, a: Addr, block: Block)
    requires Steers(pieces, l, act, l') && AskedOf(l', a, block)
    ensures AskedOf(l, a, block) && l'.m == l.m
  {
  }

  lemma StrayBefore(pieces: seq<Bytes>, l: Loop, act: Act, l': Loop, a: Addr, p: Bytes)
    requires Steers(pieces, l, act, l') && Arrived(a, p) in l'.inbox
    ensures Arrived(a, p) in l.inbox || (|p| >= 8 && ReplyTo(a, p) in l.older)
  {
  }

  /** It is not completed: that takes an answer. */
  lemma NotDelivered(m: Manager, e: Event, m': Manager, l: Loop, i: nat, b: nat)
    requires l.m == m && Allowed(l, e) && Exists(m.picker, i, b) && Exists(m'.picker, i, b) && Moves(m, e, m', i, b)
    requires At(m.picker, i, b).index == i && At(m.picker, i, b).state != Completed && !Awaited(l, At(m.picker, i, b))
    ensures At(m'.picker, i, b).state != Completed
  {
    if e.PieceMessage? && NamedAfter(e.payload, At(m.picker, i, b)) {
      HandledAwaited(l, e, At(m.picker, i, b));
    }
  }

  lemma HandledAwaited(l: Loop, e: Event, block: Block)
    requires Allowed(l, e) && e.PieceMessage? && NamedAfter(e.payload, block)
    ensures Awaited(l, block)
  {
    assert AnsweredBy(l, e.addr, block);
    assert AwaitedFrom(l, e.addr, block);
  }

  /** It does not become Pending in end-game, and it does not stay Pending when its owner is gone. */
  lemma NotPending(t: Torrent, l: Loop, e: Event, l': Loop, i: nat, b: nat)
    requires ManagerInv(t, l.m) && ManagerInv(t, l'.m) && ManagerStep(t, l.m, e, l'.m) && Allowed(l, e)
    requires Exists(l'.m.picker, i, b) && Exists(l.m.picker, i, b) && Moves(l.m, e, l'.m, i, b)
    requires var x := At(l.m.picker, i, b); x.state != Completed && (x.state == Pending ==> l.phase == Removing(x.peer))
    requires SentBy(e) != {} ==> l'.m.picker.endGame
    requires l'.phase == PhaseAfter(l.phase, e)
    ensures var y := At(l'.m.picker, i, b); y.state == Pending ==> l'.phase == Removing(y.peer)
  {
    var x, y := At(l.m.picker, i, b), At(l'.m.picker, i, b);
    if y.state == Pending {
      OwnerRegistered(t, l'.m, i, b);
      if e == PeerUnregistered(x.peer) {
        Unregistered(t, l.m, x.peer, l'.m);
      }
    }
  }

  lemma StrandedDoes(t: Torrent, pieces: seq<Bytes>, l: Loop, e: Event, l': Loop, i: nat, b: nat)
    requires t.Valid() && Reached(t, l.m) && Stranded(l, i, b) && LoopStep(t, pieces, l, Does(e), l')
    requires SentBy(e) != {} ==> l'.m.picker.endGame
    ensures Stranded(l', i, b)
  {
    ReachedInv(t, l.m);
    ReachedByLoop(t, pieces, l, Does(e), l');
    ReachedInv(t, l'.m);
    BlockMoves(t, l.m, e, l'.m, i, b);
    ShapeOf(t, l.m, "", i, b);
    NotDelivered(l.m, e, l'.m, l, i, b);
    NotPending(t, l, e, l', i, b);
    NotAwaited(t, pieces, l, e, l', i, b, At(l'.m.picker, i, b));
  }

  /** Unless it is granted outside end-game, a stranded block stays stranded. */
  lemma StrandedStep(t: Torrent, pieces: seq<Bytes>, l: Loop, act: Act, l': Loop, i: nat, b: nat)
    requires t.Valid() && Reached(t, l.m) && Sound(pieces, l) && Stranded(l, i, b) && LoopStep(t, pieces, l, act, l')
    requires act.Does? && SentBy(act.e) != {} ==> l'.m.picker.endGame
    ensures Stranded(l', i, b)
  {
    if act.Does? {
      StrandedDoes(t, pieces, l, act.e, l', i, b);
    } else {
      ReachedInv(t, l.m);
      SteersStranded(t, pieces, l, act, l', i, b);
    }
  }

  // ----- In end-game

  /** End-game is on and the block is stranded. */
  ghost predicate LeftBehind(l: Loop, i: nat, b: nat) {
    l.m.picker.endGame && Stranded(l, i, b)
  }

  lemma LeftBehindStep(t: Torrent, pieces: seq<Bytes>, l: Loop, act: Act, l': Loop, i: nat, b: nat)
    requires t.Valid() && Reached(t, l.m) && Sound(pieces, l) && LeftBehind(l, i, b) && LoopStep(t, pieces, l, act, l')
    ensures Reached(t, l'.m) && Sound(pieces, l') && LeftBehind(l', i, b)
  {
    ReachedByLoop(t, pieces, l, act, l');
    SoundStep(t, pieces, l, act, l');
    if act.Does? {
      ReachedInv(t, l.m);
      EndGameStays(t, l.m, act.e, l'.m);
    }
    StrandedStep(t, pieces, l, act, l', i, b);
  }

  lemma {:induction false} LeftBehindPath(
    t: Torrent, pieces: seq<Bytes>, ls: seq<Loop>, acts: seq<Act>, k: nat, i: nat, b: nat)
    requires t.Valid() && LoopPath(t, pieces, ls, acts) && k < |ls|
    requires Reached(t, ls[0].m) && Sound(pieces, ls[0]) && LeftBehind(ls[0], i, b)
    ensures Reached(t, ls[k].m) && Sound(pieces, ls[k]) && LeftBehind(ls[k], i, b)
  {
    if k > 0 {
      LeftBehindPath(t, pieces, ls, acts, k - 1, i, b);
      assert LoopAt(t, pieces, ls, acts, k - 1);
      LeftBehindStep(t, pieces, ls[k - 1], acts[k - 1], ls[k], i, b);
    }
  }

  /**
   * Once end-game is on and a missing block is stranded, done is never reported, whoever joins and whatever the
   * peers hold.
   */
  lemma LeftBehindCannotFinish(t: Torrent, pieces: seq<Bytes>, l: Loop, i: nat, b: nat)
    requires t.Valid() && Reached(t, l.m) && Sound(pieces, l) && LeftBehind(l, i, b)
    ensures !CanFinish(t, pieces, l)
  {
    forall l' | Reaches(t, pieces, l, l')
      ensures l'.m.doneCloses == 0
    {
      var ls, acts :| LoopPath(t, pieces, ls, acts) && ls[0] == l && ls[|acts|] == l';
      LeftBehindPath(t, pieces, ls, acts, |acts|, i, b);
      ReachedInv(t, l'.m);
      NotDoneYet(t, l'.m, i, b);
    }
  }
}
