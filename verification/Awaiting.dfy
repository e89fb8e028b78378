/** Whose answer a missing block waits for; the owner of a Pending block is one of them. */
module Awaiting {
  import opened Bytes
  import opened Layout
  import opened PickerModel
  import opened PickerAccounting
  import opened PickerRuns
  import opened ManagerModel
  import opened ManagerRuns
  import opened BlockHistory
  import opened EventLoop

  // ----- Awaited blocks

  /** The payload is named after the block. */
  predicate NamedAfter(p: Bytes, block: Block) {
    |p| >= 8 && Uint32(p, 0) == block.index && Uint32(p, 4) == block.begin
  }

  /** An open connection at the address, in the table or replaced, has a request for the block to answer. */
  ghost predicate AskedOf(l: Loop, a: Addr, block: Block) {
    Naming(a, block) in l.older || (a in l.m.clients && Naming(a, block) in l.m.clients[a].unanswered)
  }

  /** An answer named after the block was read from the address and is not handled yet. */
  ghost predicate AnsweredBy(l: Loop, a: Addr, block: Block) {
    exists p :: Arrived(a, p) in l.inbox && NamedAfter(p, block)
  }

  ghost predicate AwaitedFrom(l: Loop, a: Addr, block: Block) {
    AskedOf(l, a, block) || AnsweredBy(l, a, block)
  }

  /** Somebody can still answer for the block, or did. */
  ghost predicate Awaited(l: Loop, block: Block) {
    exists a :: AwaitedFrom(l, a, block)
  }

  // ----- The owner of a Pending block is one of them

  /** A registered peer is in the table, or is just being removed. */
  ghost predicate Registered(l: Loop) {
    forall a :: a in l.m.picker.peerPieces ==> a in l.m.clients || l.phase == Removing(a)
  }

  /** The block is awaited from its owner, or its owner is just being removed. */
  ghost predicate Owed(l: Loop, block: Block) {
    AwaitedFrom(l, block.peer, block) || l.phase == Removing(block.peer)
  }

  ghost predicate OwnersOwed(l: Loop) {
    forall i: nat, b: nat :: Exists(l.m.picker, i, b) && At(l.m.picker, i, b).state == Pending ==>
      Owed(l, At(l.m.picker, i, b))
  }

  /** What every state of a run of the loop satisfies. */
  ghost predicate Books(t: Torrent, l: Loop) {
    t.Valid() && Reached(t, l.m) && Registered(l) && OwnersOwed(l)
  }

  /** Only adding a peer registers it. */
  lemma PeersShrink(s: Picker, op: Op, s': Picker, a: Addr)
    requires Sized(s) && Step(s, op, s') && a in s'.peerPieces
    ensures a in s.peerPieces || op == RegisterPeer(a)
  {
  }

  lemma PeersBefore(t: Torrent, m: Manager, e: Event, m': Manager, a: Addr)
    requires ManagerInv(t, m) && ManagerStep(t, m, e, m') && a in m'.picker.peerPieces
    ensures a in m.picker.peerPieces || e == PeerAdded(a)
  {
    StepOp(t, m, e, m');
    if OpOf(e).Some? {
      PeersShrink(m.picker, OpOf(e).value, m'.picker, a);
    }
  }

  lemma Unregistered(t: Torrent, m: Manager, a: Addr, m': Manager)
    requires ManagerInv(t, m) && ManagerStep(t, m, PeerUnregistered(a), m')
    ensures a !in m'.picker.peerPieces && m'.clients == m.clients
  {
  }

  /** What any event does to the connections. */
  ghost predicate ClientsMove(m: Manager, e: Event, m': Manager) {
    if e.PieceMessage? then m'.clients == m.clients else ClientsStep(m, e, m')
  }

  lemma StepClients(t: Torrent, m: Manager, e: Event, m': Manager)
    requires ManagerInv(t, m) && ManagerStep(t, m, e, m')
    ensures ClientsMove(m, e, m')
  {
    if e.PieceMessage? {
      PieceStep(t, m, e.addr, e.payload);
    }
  }

  /** Every step but a disconnect keeps the connections in the table. */
  lemma TableKept(m: Manager, e: Event, m': Manager, a: Addr)
    requires ClientsMove(m, e, m') && a in m.clients && e != PeerDropped(a)
    ensures a in m'.clients
  {
  }

  lemma RegisteredDoes(t: Torrent, pieces: seq<Bytes>, l: Loop, e: Event, l': Loop)
    requires ManagerInv(t, l.m) && Registered(l) && LoopStep(t, pieces, l, Does(e), l')
    ensures Registered(l')
  {
    StepClients(t, l.m, e, l'.m);
    forall a | a in l'.m.picker.peerPieces
      ensures a in l'.m.clients || l'.phase == Removing(a)
    {
      PeersBefore(t, l.m, e, l'.m, a);
      if e == PeerUnregistered(a) {
        Unregistered(t, l.m, a, l'.m);
      }
      StillRegistered(l, e, l', a);
    }
  }

  lemma StillRegistered(l: Loop, e: Event, l': Loop, a: Addr)
    requires ClientsMove(l.m, e, l'.m) && Allowed(l, e) && l'.phase == PhaseAfter(l.phase, e) &&
             e != PeerUnregistered(a)
    requires e == PeerAdded(a) || a in l.m.clients || l.phase == Removing(a)
    ensures a in l'.m.clients || l'.phase == Removing(a)
  {
    if a in l.m.clients && e != PeerDropped(a) {
      TableKept(l.m, e, l'.m, a);
    }
  }

  // ----- Awaited blocks stay awaited

  /** A request stays unanswered over a step, or its answer is read, unless its address is dropped. */
  lemma AskedStays(l: Loop, e: Event, l': Loop, a: Addr, block: Block)
    requires ClientsMove(l.m, e, l'.m) && l' == After(l, e, l'.m) && AskedOf(l, a, block) && e != PeerDropped(a)
    ensures AwaitedFrom(l', a, block)
  {
    if e.PieceRead? && |e.payload| >= 8 && ReplyTo(e.addr, e.payload) == Naming(a, block) {
      assert Arrived(a, e.payload) in l'.inbox && NamedAfter(e.payload, block);
    } else if Naming(a, block) !in l.older && e != PeerAdded(a) {
      RequestStays(l.m, e, l'.m, a, Naming(a, block));
    }
  }

  lemma RequestStays(m: Manager, e: Event, m': Manager, a: Addr, r: Request)
    requires ClientsMove(m, e, m') && a in m.clients && r in m.clients[a].unanswered
    requires e != PeerDropped(a) && e != PeerAdded(a)
    requires e.PieceRead? && e.addr == a && |e.payload| >= 8 ==> ReplyTo(a, e.payload) != r
    ensures a in m'.clients && r in m'.clients[a].unanswered
  {
  }

  /** An answer that was read stays in the inbox until it is handled. */
  lemma AnsweredStays(l: Loop, e: Event, m: Manager, a: Addr, block: Block)
    requires AnsweredBy(l, a, block) && !(e.PieceMessage? && NamedAfter(e.payload, block))
    ensures AnsweredBy(After(l, e, m), a, block)
  {
    var p :| Arrived(a, p) in l.inbox && NamedAfter(p, block);
    assert Arrived(a, p) in After(l, e, m).inbox;
  }

  lemma AwaitedStays(l: Loop, e: Event, l': Loop, a: Addr, block: Block)
    requires ClientsMove(l.m, e, l'.m) && l' == After(l, e, l'.m) && AwaitedFrom(l, a, block)
    requires e != PeerDropped(a) && !(e.PieceMessage? && NamedAfter(e.payload, block))
    ensures AwaitedFrom(l', a, block)
  {
    if AskedOf(l, a, block) {
      AskedStays(l, e, l', a, block);
    } else {
      AnsweredStays(l, e, l'.m, a, block);
    }
  }

  /** The rest of the acts: an answer is read by a replaced connection, or connections of an absent address close. */
  lemma SteersAwaited(pieces: seq<Bytes>, l: Loop, act: Act, l': Loop, a: Addr, block: Block)
    requires Steers(pieces, l, act, l') && AwaitedFrom(l, a, block) && (act.Closes? ==> act.addr != a)
    ensures AwaitedFrom(l', a, block)
  {
    if AnsweredBy(l, a, block) {
      var p :| Arrived(a, p) in l.inbox && NamedAfter(p, block);
      assert Arrived(a, p) in l'.inbox;
    } else if act.Stray? && ReplyTo(act.addr, act.payload) == Naming(a, block) {
      assert Arrived(a, act.payload) in l'.inbox && NamedAfter(act.payload, block);
    } else if act.Closes? {
      assert Naming(a, block) !in act.lost;
    }
  }

  // ----- Every state of a run of the loop keeps the books

  lemma SameName(l: Loop, a: Addr, x: Block, y: Block)
    requires SamePlace(x, y) && AwaitedFrom(l, a, x)
    ensures AwaitedFrom(l, a, y)
  {
    assert Naming(a, x) == Naming(a, y);
    if AnsweredBy(l, a, x) {
      var p :| Arrived(a, p) in l.inbox && NamedAfter(p, x);
      assert NamedAfter(p, y);
    }
  }

  /** A piece message named after a Pending block completes it. */
  lemma HandledCompletes(t: Torrent, m: Manager, e: Event, m': Manager, i: nat, b: nat)
    requires ManagerInv(t, m) && ManagerStep(t, m, e, m') && Exists(m.picker, i, b) && Exists(m'.picker, i, b)
    requires e.PieceMessage? && NamedAfter(e.payload, At(m.picker, i, b)) && At(m.picker, i, b).state == Pending
    ensures At(m'.picker, i, b).state == Completed
  {
    PieceStep(t, m, e.addr, e.payload);
    ShapeOf(t, m, e.addr, i, b);
    CompleteTransition(m.picker, Uint32(e.payload, 0), Uint32(e.payload, 4), e.addr, t.length, t.pieceLength, i, b);
  }

  lemma OwnerRegistered(t: Torrent, m: Manager, i: nat, b: nat)
    requires ManagerInv(t, m) && Exists(m.picker, i, b) && At(m.picker, i, b).state == Pending
    ensures At(m.picker, i, b).peer in m.picker.peerPieces
  {
    assert PieceOk(m.picker.pieces[i], i, PieceLength(t.length, t.pieceLength, i), m.picker.peerPieces.Keys);
  }

  /** A block that was Pending before and is Pending after a step. */
  lemma PendingOwed(t: Torrent, l: Loop, e: Event, l': Loop, x: Block, y: Block)
    requires ClientsMove(l.m, e, l'.m) && Allowed(l, e) && l' == After(l, e, l'.m) && Owed(l, x)
    requires SamePlace(x, y) && y.peer == x.peer
    requires e != PeerUnregistered(x.peer) && !(e.PieceMessage? && NamedAfter(e.payload, x))
    ensures Owed(l', y)
  {
    if AwaitedFrom(l, x.peer, x) && e != PeerDropped(x.peer) {
      AwaitedStays(l, e, l', x.peer, x);
      SameName(l', x.peer, x, y);
    }
  }

  /** A block that a step makes Pending was asked for by it. */
  lemma GrantOwed(l: Loop, e: Event, l': Loop, y: Block)
    requires ClientsMove(l.m, e, l'.m) && e.GrantTurn? && e.granted.Some?
    requires Naming(e.addr, e.granted.value) == Naming(y.peer, y)
    ensures Owed(l', y)
  {
    assert AskedOf(l', y.peer, y);
  }

  lemma BlockOwed(t: Torrent, pieces: seq<Bytes>, l: Loop, e: Event, l': Loop, i: nat, b: nat)
    requires ManagerInv(t, l.m) && ManagerInv(t, l'.m) && OwnersOwed(l) && LoopStep(t, pieces, l, Does(e), l')
    requires Exists(l'.m.picker, i, b) && At(l'.m.picker, i, b).state == Pending
    ensures Owed(l', At(l'.m.picker, i, b))
  {
    SameShape(t, l.m, l'.m, i, b);
    BlockMoves(t, l.m, e, l'.m, i, b);
    StepClients(t, l.m, e, l'.m);
    var x, y := At(l.m.picker, i, b), At(l'.m.picker, i, b);
    if x.state == Pending {
      OwnerRegistered(t, l'.m, i, b);
      if e == PeerUnregistered(x.peer) {
        Unregistered(t, l.m, x.peer, l'.m);
      }
      if e.PieceMessage? && NamedAfter(e.payload, x) {
        HandledCompletes(t, l.m, e, l'.m, i, b);
      }
      PendingOwed(t, l, e, l', x, y);
    } else {
      GrantOwed(l, e, l', y);
    }
  }

  lemma SteersBooks(t: Torrent, pieces: seq<Bytes>, l: Loop, act: Act, l': Loop)
    requires Books(t, l) && ManagerInv(t, l.m) && Steers(pieces, l, act, l')
    ensures Registered(l') && OwnersOwed(l')
  {
    forall i: nat, b: nat | Exists(l'.m.picker, i, b) && At(l'.m.picker, i, b).state == Pending
      ensures Owed(l', At(l'.m.picker, i, b))
    {
      var x := At(l.m.picker, i, b);
      OwnerRegistered(t, l.m, i, b);
      if AwaitedFrom(l, x.peer, x) && !(act.Closes? && act.addr == x.peer) {
        SteersAwaited(pieces, l, act, l', x.peer, x);
      }
    }
  }

  lemma BooksStep(t: Torrent, pieces: seq<Bytes>, l: Loop, act: Act, l': Loop)
    requires Books(t, l) && LoopStep(t, pieces, l, act, l')
    ensures Books(t, l')
  {
    ReachedByLoop(t, pieces, l, act, l');
    ReachedInv(t, l.m);
    ReachedInv(t, l'.m);
    if act.Does? {
      RegisteredDoes(t, pieces, l, act.e, l');
      forall i: nat, b: nat | Exists(l'.m.picker, i, b) && At(l'.m.picker, i, b).state == Pending
        ensures Owed(l', At(l'.m.picker, i, b))
      {
        BlockOwed(t, pieces, l, act.e, l', i, b);
      }
    } else {
      SteersBooks(t, pieces, l, act, l');
    }
  }

  lemma StartBooks(t: Torrent)
    requires t.Valid()
    ensures Books(t, Begins(t))
  {
    ReachedStart(t);
    var s := Start(t).picker;
    forall i: nat, b: nat | Exists(s, i, b)
      ensures At(s, i, b).state == Unrequested
    {
      assert s.pieces[i] == FreshPiece(t.length, t.pieceLength, i);
    }
  }

  /**
   * In every run of the loop, whenever a block is Pending its owner can still answer, has answered, or is being
   * removed.
   */
  lemma {:induction false} LoopKeepsBooks(t: Torrent, pieces: seq<Bytes>, ls: seq<Loop>, acts: seq<Act>, k: nat)
    requires LoopRun(t, pieces, ls, acts) && k < |ls|
    ensures Books(t, ls[k])
  {
    if k == 0 {
      StartBooks(t);
    } else {
      LoopKeepsBooks(t, pieces, ls, acts, k - 1);
      assert LoopAt(t, pieces, ls, acts, k - 1);
      BooksStep(t, pieces, ls[k - 1], acts[k - 1], ls[k]);
    }
  }
}
