/** States from which the pipelines cannot be filled any more: the first grant is the last thing the loop does. */
module Starving {
  import opened Arith
  import opened Bytes
  import opened Layout
  import opened PickerModel
  import opened PickerAccounting
  import opened PickerRuns
  import opened PickerChoice
  import opened ManagerModel
  import opened ManagerRuns
  import opened BlockHistory
  import opened EventLoop
  import opened Awaiting
  import opened Losses

  // ----- The places of the blocks still missing

  ghost function MissingOf(i: nat, bs: seq<Block>): set<Key> {
    set b: nat | b < |bs| && bs[b].state != Completed :: (i, b * BLOCK_SIZE)
  }

  ghost function MissingIn(ps: seq<Piece>): set<Key> {
    set i: nat, b: nat | i < |ps| && b < |ps[i].blocks| && ps[i].blocks[b].state != Completed :: (i, b * BLOCK_SIZE)
  }

  /** The keys of all blocks that are not Completed. */
  ghost function MissingKeys(s: Picker): set<Key> {
    MissingIn(s.pieces)
  }

  lemma KeyInjective(b: nat, c: nat)
    requires b * BLOCK_SIZE == c * BLOCK_SIZE
    ensures b == c
  {
  }

  lemma MissingKey(s: Picker, i: nat, b: nat)
    requires Exists(s, i, b)
    ensures (i, b * BLOCK_SIZE) in MissingKeys(s) <==> At(s, i, b).state != Completed
  {
    if (i, b * BLOCK_SIZE) in MissingKeys(s) {
      var c := KeyBlock(s, (i, b * BLOCK_SIZE));
      KeyInjective(b, c);
    }
  }

  lemma KeyBlock(s: Picker, k: Key) returns (b: nat)
    requires k in MissingKeys(s)
    ensures Exists(s, k.0, b) && k.1 == b * BLOCK_SIZE && At(s, k.0, b).state != Completed
  {
    var i: nat, c: nat :| i < |s.pieces| && c < |s.pieces[i].blocks| && s.pieces[i].blocks[c].state != Completed &&
      (i, c * BLOCK_SIZE) == k;
    b := c;
  }

  lemma {:induction false} MissingOfCount(i: nat, bs: seq<Block>)
    ensures |MissingOf(i, bs)| == TallyBlocks(bs, {Unrequested, Pending})
  {
    if bs != [] {
      var n := |bs| - 1;
      MissingOfCount(i, bs[..n]);
      MissingLast(i, bs[..n], bs[n]);
      assert bs == bs[..n] + [bs[n]];
    }
  }

  lemma MissingLast(i: nat, bs: seq<Block>, block: Block)
    ensures var last: set<Key> := if block.state != Completed then {(i, |bs| * BLOCK_SIZE)} else {};
            MissingOf(i, bs + [block]) == MissingOf(i, bs) + last && MissingOf(i, bs) !! last
  {
    var all := bs + [block];
    forall b: nat | b < |bs|
      ensures all[b] == bs[b] && b * BLOCK_SIZE != |bs| * BLOCK_SIZE
    {
    }
  }

  /** There are as many of them as the tally says. */
  lemma {:induction false} MissingCount(ps: seq<Piece>)
    ensures |MissingIn(ps)| == Tally(ps, {Unrequested, Pending})
  {
    if ps != [] {
      var n := |ps| - 1;
      MissingCount(ps[..n]);
      MissingOfCount(n, ps[n].blocks);
      MissingSplit(ps);
    }
  }

  lemma MissingSplit(ps: seq<Piece>)
    requires ps != []
    ensures var n := |ps| - 1;
            && MissingIn(ps) == MissingIn(ps[..n]) + MissingOf(n, ps[n].blocks)
            && MissingIn(ps[..n]) !! MissingOf(n, ps[n].blocks)
  {
    var n := |ps| - 1;
    forall k | k in MissingIn(ps)
      ensures k in MissingIn(ps[..n]) + MissingOf(n, ps[n].blocks)
    {
      var i: nat, b: nat :| i < |ps| && b < |ps[i].blocks| && ps[i].blocks[b].state != Completed &&
        (i, b * BLOCK_SIZE) == k;
      assert i < n ==> ps[..n][i] == ps[i];
    }
    forall k | k in MissingIn(ps[..n])
      ensures k in MissingIn(ps) && k.0 < n
    {
      var i: nat, b: nat :| i < n && b < |ps[..n][i].blocks| && ps[..n][i].blocks[b].state != Completed &&
        (i, b * BLOCK_SIZE) == k;
      assert ps[..n][i] == ps[i];
    }
  }

  // ----- No pipeline can be filled

  /** What the connection tracks together with everything that could still be requested from it. */
  ghost function Reach(m: Manager, a: Addr): set<Key>
    requires a in m.clients
  {
    m.clients[a].outstanding.Keys + MissingKeys(m.picker)
  }

  /** Fewer than five blocks are missing, and no registered connection tracks enough besides. */
  ghost predicate Starved(m: Manager) {
    && |MissingKeys(m.picker)| < PIPELINE
    && forall a :: a in m.clients && a in m.picker.peerPieces ==> |Reach(m, a)| < PIPELINE
  }

  lemma MissingShrinks(t: Torrent, m: Manager, e: Event, m': Manager)
    requires ManagerInv(t, m) && ManagerStep(t, m, e, m')
    ensures MissingKeys(m'.picker) <= MissingKeys(m.picker)
  {
    ManagerStepKeepsInv(t, m, e, m');
    forall k | k in MissingKeys(m'.picker)
      ensures k in MissingKeys(m.picker)
    {
      var b := KeyBlock(m'.picker, k);
      SameShape(t, m, m', k.0, b);
      BlockMoves(t, m, e, m', k.0, b);
      MissingKey(m.picker, k.0, b);
    }
  }

  /** A granted block is missing. */
  lemma GrantedMissing(t: Torrent, m: Manager, a: Addr, now: int, s': Picker, block: Block)
    requires ManagerInv(t, m) && NextBlock(m.picker, a, now, s', Some(block))
    ensures (block.index, block.begin) in MissingKeys(m.picker) && a in m.picker.peerPieces
    ensures Offers(s', a, Pending, block.index)
  {
    var s, i := m.picker, block.index;
    var want := if s'.endGame then Pending else Unrequested;
    var b := FirstIn(s.pieces[i].blocks, want);
    ShapeOf(t, m, a, i, b);
    MissingKey(s, i, b);
    FirstInFinds(s'.pieces[i].blocks, Pending, b);
  }

  /** A connection is new, or tracks what it tracked before and perhaps the block just granted. */
  lemma TrackedShrinks(m: Manager, e: Event, m': Manager, a: Addr, missing: set<Key>)
    requires !e.PieceMessage? && ClientsStep(m, e, m') && a in m'.clients
    requires e.GrantTurn? && e.granted.Some? ==> (e.granted.value.index, e.granted.value.begin) in missing
    ensures (e == PeerAdded(a) && m'.clients[a].outstanding == map[]) ||
            (a in m.clients && m'.clients[a].outstanding.Keys <= m.clients[a].outstanding.Keys + missing)
  {
  }

  lemma TrackedBefore(t: Torrent, m: Manager, e: Event, m': Manager, a: Addr)
    requires ManagerInv(t, m) && ManagerStep(t, m, e, m') && a in m'.clients
    ensures (e == PeerAdded(a) && m'.clients[a].outstanding == map[]) ||
            (a in m.clients && m'.clients[a].outstanding.Keys <= m.clients[a].outstanding.Keys + MissingKeys(m.picker))
  {
    if e.PieceMessage? {
      PieceStep(t, m, e.addr, e.payload);
    } else {
      if e.GrantTurn? && e.granted.Some? {
        GrantedMissing(t, m, e.addr, e.now, m'.picker, e.granted.value);
      }
      TrackedShrinks(m, e, m', a, MissingKeys(m.picker));
    }
  }

  /** No connection gets more within reach. */
  lemma ReachShrinks(t: Torrent, m: Manager, e: Event, m': Manager, a: Addr)
    requires ManagerInv(t, m) && ManagerStep(t, m, e, m') && a in m'.clients && a in m'.picker.peerPieces && Starved(m)
    ensures |Reach(m', a)| < PIPELINE
  {
    MissingShrinks(t, m, e, m');
    TrackedBefore(t, m, e, m', a);
    PeersBefore(t, m, e, m', a);
    if m'.clients[a].outstanding == map[] {
      SubsetCount(Reach(m', a), MissingKeys(m.picker));
    } else {
      SubsetCount(Reach(m', a), Reach(m, a));
    }
  }

  lemma StepKeepsStarved(t: Torrent, m: Manager, e: Event, m': Manager)
    requires ManagerInv(t, m) && ManagerStep(t, m, e, m') && Starved(m)
    ensures Starved(m')
  {
    MissingShrinks(t, m, e, m');
    SubsetCount(MissingKeys(m'.picker), MissingKeys(m.picker));
    forall a | a in m'.clients && a in m'.picker.peerPieces
      ensures |Reach(m', a)| < PIPELINE
    {
      ReachShrinks(t, m, e, m', a);
    }
  }

  // ----- The request loop that does not end

  ghost predicate PendingOffered(s: Picker, a: Addr) {
    Sized(s) && exists i: nat :: Offers(s, a, Pending, i)
  }

  /** The loop is asking a peer that has a Pending block to offer and can never be full. */
  ghost predicate Spins(l: Loop) {
    l.phase.Asking? && Starved(l.m) && PendingOffered(l.m.picker, l.phase.addr)
  }

  /** The call is answered, and a Pending block is on offer again. */
  lemma SpinGrants(t: Torrent, m: Manager, a: Addr, now: int, s': Picker, r: Option<Block>)
    requires ManagerInv(t, m) && NextBlock(m.picker, a, now, s', r) && PendingOffered(m.picker, a) && Sized(s')
    ensures r.Some? && PendingOffered(s', a)
  {
    var i: nat :| Offers(m.picker, a, Pending, i);
    assert IsCandidate(m.picker, a, i);
    NextBlockAnswers(m.picker, a, now, s', r, t.length, t.pieceLength);
    GrantedMissing(t, m, a, now, s', r.value);
  }

  /** It is never full. */
  lemma NeverFull(m: Manager, a: Addr)
    requires Starved(m) && PendingOffered(m.picker, a) && a in m.clients
    ensures |m.clients[a].outstanding| < PIPELINE
  {
    var i: nat :| Offers(m.picker, a, Pending, i);
    SubsetCount(m.clients[a].outstanding.Keys, Reach(m, a));
  }

  lemma SpinTurn(t: Torrent, m: Manager, e: Event, m': Manager, a: Addr)
    requires e.GrantTurn? && e.addr == a && PendingOffered(m.picker, a)
    requires ManagerInv(t, m) && Step(m.picker, Next(a, e.now, e.granted), m'.picker)
    ensures PendingOffered(m'.picker, a) && e.granted.Some?
  {
    NextKeepsInv(m.picker, a, e.now, e.granted, m'.picker, t.length, t.pieceLength);
    SpinGrants(t, m, a, e.now, m'.picker, e.granted);
  }

  lemma SpinDoes(t: Torrent, m: Manager, e: Event, m': Manager, a: Addr)
    requires ManagerInv(t, m) && ManagerStep(t, m, e, m') && PendingOffered(m.picker, a)
    requires e.PieceRead? || e.ChokeRead? || e.StallSweep? || (e.GrantTurn? && e.addr == a)
    ensures PendingOffered(m'.picker, a) && (e.GrantTurn? ==> e.granted.Some?)
  {
    if e.GrantTurn? {
      SpinTurn(t, m, e, m', a);
    } else {
      assert m'.picker == m.picker;
    }
  }

  lemma SpinsOn(t: Torrent, pieces: seq<Bytes>, l: Loop, act: Act, l': Loop)
    requires t.Valid() && ManagerInv(t, l.m) && Spins(l) && LoopStep(t, pieces, l, act, l')
    ensures Spins(l')
  {
    if act.Does? {
      SpinDoes(t, l.m, act.e, l'.m, l.phase.addr);
      StepKeepsStarved(t, l.m, act.e, l'.m);
    } else if act.Full? {
      NeverFull(l.m, l.phase.addr);
    }
  }

  // ----- Nothing comes of it

  /** A starved state with a stranded block, or with the loop already spinning. */
  ghost predicate Hopeless(l: Loop, i: nat, b: nat) {
    Starved(l.m) && (Stranded(l, i, b) || Spins(l))
  }

  lemma GrantSpins(t: Torrent, m: Manager, e: Event, m': Manager)
    requires ManagerInv(t, m) && ManagerStep(t, m, e, m') && SentBy(e) != {}
    ensures PendingOffered(m'.picker, e.addr)
  {
    StepOp(t, m, e, m');
    NextKeepsInv(m.picker, e.addr, e.now, e.granted, m'.picker, t.length, t.pieceLength);
    GrantedMissing(t, m, e.addr, e.now, m'.picker, e.granted.value);
  }

  lemma StarvedStays(t: Torrent, pieces: seq<Bytes>, l: Loop, act: Act, l': Loop)
    requires t.Valid() && ManagerInv(t, l.m) && Starved(l.m) && LoopStep(t, pieces, l, act, l')
    ensures Starved(l'.m)
    ensures act.Does? && SentBy(act.e) != {} ==> l'.phase.Asking? && PendingOffered(l'.m.picker, l'.phase.addr)
  {
    if act.Does? {
      StepKeepsStarved(t, l.m, act.e, l'.m);
      if SentBy(act.e) != {} {
        GrantSpins(t, l.m, act.e, l'.m);
      }
    }
  }

  lemma HopelessStep(t: Torrent, pieces: seq<Bytes>, l: Loop, act: Act, l': Loop, i: nat, b: nat)
    requires t.Valid() && Reached(t, l.m) && Sound(pieces, l) && Hopeless(l, i, b) && LoopStep(t, pieces, l, act, l')
    ensures Reached(t, l'.m) && Sound(pieces, l') && Hopeless(l', i, b)
  {
    ReachedByLoop(t, pieces, l, act, l');
    SoundStep(t, pieces, l, act, l');
    ReachedInv(t, l.m);
    if Spins(l) {
      SpinsOn(t, pieces, l, act, l');
    } else {
      StarvedStays(t, pieces, l, act, l');
      if !(act.Does? && SentBy(act.e) != {}) {
        StrandedStep(t, pieces, l, act, l', i, b);
      }
    }
  }

  lemma {:induction false} HopelessPath(
    t: Torrent, pieces: seq<Bytes>, ls: seq<Loop>, acts: seq<Act>, k: nat, i: nat, b: nat)
    requires t.Valid() && LoopPath(t, pieces, ls, acts) && k < |ls|
    requires Reached(t, ls[0].m) && Sound(pieces, ls[0]) && Hopeless(ls[0], i, b)
    ensures Reached(t, ls[k].m) && Sound(pieces, ls[k]) && Hopeless(ls[k], i, b)
  {
    if k > 0 {
      HopelessPath(t, pieces, ls, acts, k - 1, i, b);
      assert LoopAt(t, pieces, ls, acts, k - 1);
      HopelessStep(t, pieces, ls[k - 1], acts[k - 1], ls[k], i, b);
    }
  }

  lemma OfferedNotDone(t: Torrent, m: Manager, a: Addr)
    requires ManagerInv(t, m) && PendingOffered(m.picker, a)
    ensures m.doneCloses == 0
  {
    var j: nat :| Offers(m.picker, a, Pending, j);
    NotDoneYet(t, m, j, FirstIn(m.picker.pieces[j].blocks, Pending));
  }

  lemma HopelessNotDone(t: Torrent, l: Loop, i: nat, b: nat)
    requires t.Valid() && Reached(t, l.m) && Hopeless(l, i, b)
    ensures l.m.doneCloses == 0
  {
    ReachedInv(t, l.m);
    if Stranded(l, i, b) {
      NotDoneYet(t, l.m, i, b);
    } else {
      OfferedNotDone(t, l.m, l.phase.addr);
    }
  }

  /** A starved state in which somebody still has to be asked never leads to done. */
  lemma StarvedCannotFinish(t: Torrent, pieces: seq<Bytes>, l: Loop, i: nat, b: nat)
    requires t.Valid() && Reached(t, l.m) && Sound(pieces, l) && Starved(l.m) && Stranded(l, i, b)
    ensures !CanFinish(t, pieces, l)
  {
    forall l' | Reaches(t, pieces, l, l')
      ensures l'.m.doneCloses == 0
    {
      var ls, acts :| LoopPath(t, pieces, ls, acts) && ls[0] == l && ls[|acts|] == l';
      HopelessPath(t, pieces, ls, acts, |acts|, i, b);
      HopelessNotDone(t, l', i, b);
    }
  }
}
