/** What holds along whole runs of the picker: block life cycles, one-shot completion, end-game. */
module PickerRuns {
  import opened Bytes
  import opened Layout
  import opened PickerModel
  import opened PickerAccounting

  // ----- The life of one block

  /** op makes a Pending block (i, b) of s requestable again. */
  predicate Releases(s: Picker, op: Op, i: nat, b: nat)
    requires i < |s.pieces| && b < |s.pieces[i].blocks|
  {
    var block := s.pieces[i].blocks[b];
    match op
    case MarkFailed(index, begin) => index == i && begin == block.begin
    case UnregisterPeer(a) => a == block.peer
    case ReclaimStalled(now, timeout) => now - block.sent > timeout
    case _ => false
  }

  /** op is a NextBlock call that returned block (i, b) of s. */
  predicate Grants(s: Picker, op: Op, i: nat, b: nat)
    requires i < |s.pieces| && b < |s.pieces[i].blocks|
  {
    op.Next? && op.granted.Some? && op.granted.value.index == i && op.granted.value.begin == s.pieces[i].blocks[b].begin
  }

  /** op is an arriving piece message for block (i, b) of s. */
  predicate Delivers(s: Picker, op: Op, i: nat, b: nat)
    requires i < |s.pieces| && b < |s.pieces[i].blocks|
  {
    op.MarkCompleted? && op.index == i && op.begin == s.pieces[i].blocks[b].begin
  }

  /** The complete transition table of block (i, b), with what causes each change. */
  ghost predicate Follows(s: Picker, op: Op, s': Picker, i: nat, b: nat)
    requires i < |s.pieces| && b < |s.pieces[i].blocks|
    requires i < |s'.pieces| && b < |s'.pieces[i].blocks|
  {
    var now := s'.pieces[i].blocks[b].state;
    match s.pieces[i].blocks[b].state
    case Unrequested =>
      && (now == Pending <==> Grants(s, op, i, b))
      && (now == Completed <==> Delivers(s, op, i, b))
      && (now == Pending ==> !s'.endGame)
    case Pending =>
      && (now == Unrequested <==> Releases(s, op, i, b))
      && (now == Completed <==> Delivers(s, op, i, b))
      && (Grants(s, op, i, b) ==> s'.endGame)
    case Completed =>
      now == Completed && !Grants(s, op, i, b)
  }

  lemma NamedIs(s: Picker, total: nat, pieceLen: nat, i: nat, b: nat)
    requires pieceLen > 0 && Inv(s, total, pieceLen)
    requires i < |s.pieces| && b < |s.pieces[i].blocks|
    ensures Names(s, i, s.pieces[i].blocks[b].begin) && Named(s, i, s.pieces[i].blocks[b].begin) == b
  {
    var len := PieceLength(total, pieceLen, i);
    assert PieceOk(s.pieces[i], i, len, s.peerPieces.Keys);
    assert BlockShaped(s.pieces[i].blocks[b], i, len, b);
    var k := FindBlock(s.pieces[i].blocks, s.pieces[i].blocks[b].begin);
    assert k <= b;
    assert BlockShaped(s.pieces[i].blocks[k], i, len, k);
  }

  /** Block (i, b) keeps its place and moves by the table. */
  ghost predicate Evolves(s: Picker, op: Op, s': Picker, i: nat, b: nat)
    requires i < |s.pieces| && b < |s.pieces[i].blocks|
  {
    && i < |s'.pieces| && |s'.pieces[i].blocks| == |s.pieces[i].blocks|
    && SamePlace(s.pieces[i].blocks[b], s'.pieces[i].blocks[b])
    && Follows(s, op, s', i, b)
  }

  lemma BlockTransition(s: Picker, op: Op, s': Picker, total: nat, pieceLen: nat, i: nat, b: nat)
    requires pieceLen > 0 && Inv(s, total, pieceLen) && Step(s, op, s')
    requires i < |s.pieces| && b < |s.pieces[i].blocks|
    ensures Evolves(s, op, s', i, b)
  {
    match op
    case RegisterPeer(a) =>
    case UnregisterPeer(a) => ReclaimTransition(s, op, PeerLeft(a), s', total, pieceLen, i, b);
    case PeerBitfield(a, bits) =>
    case PeerHave(a, index) =>
    case Next(a, now, r) => NextTransition(s, a, now, r, s', total, pieceLen, i, b);
    case MarkCompleted(index, begin, a) => CompleteTransition(s, index, begin, a, total, pieceLen, i, b);
    case MarkFailed(index, begin) => FailTransition(s, index, begin, total, pieceLen, i, b);
    case ReclaimStalled(now, timeout) => ReclaimTransition(s, op, Stale(now, timeout), s', total, pieceLen, i, b);
  }

  lemma ReclaimTransition(s: Picker, op: Op, why: Reason, s': Picker, total: nat, pieceLen: nat, i: nat, b: nat)
    requires pieceLen > 0 && Inv(s, total, pieceLen)
    requires i < |s.pieces| && b < |s.pieces[i].blocks|
    requires op == match why
                   case PeerLeft(a) => UnregisterPeer(a)
                   case Stale(now, timeout) => ReclaimStalled(now, timeout)
    requires s'.pieces == ReclaimPieces(s.pieces, why, |s.pieces|)
    ensures Evolves(s, op, s', i, b)
  {
    assert PieceOk(s.pieces[i], i, PieceLength(total, pieceLen, i), s.peerPieces.Keys);
    assert s'.pieces[i] == ReclaimPiece(s.pieces[i], why);
  }

  lemma CompleteTransition(s: Picker, index: int, begin: int, a: Addr, total: nat, pieceLen: nat, i: nat, b: nat)
    requires pieceLen > 0 && Inv(s, total, pieceLen)
    requires i < |s.pieces| && b < |s.pieces[i].blocks|
    ensures Evolves(s, MarkCompleted(index, begin, a), Complete(s, index, begin, a).picker, i, b)
  {
    NamedIs(s, total, pieceLen, i, b);
    assert PieceOk(s.pieces[i], i, PieceLength(total, pieceLen, i), s.peerPieces.Keys);
    if index == i && begin == s.pieces[i].blocks[b].begin {
      assert Named(s, index, begin) == b;
    }
  }

  lemma FailTransition(s: Picker, index: int, begin: int, total: nat, pieceLen: nat, i: nat, b: nat)
    requires pieceLen > 0 && Inv(s, total, pieceLen)
    requires i < |s.pieces| && b < |s.pieces[i].blocks|
    ensures Evolves(s, MarkFailed(index, begin), Fail(s, index, begin), i, b)
  {
    NamedIs(s, total, pieceLen, i, b);
    if index == i && begin == s.pieces[i].blocks[b].begin {
      assert Named(s, index, begin) == b;
    }
  }

  lemma NextTransition(s: Picker, a: Addr, now: int, r: Option<Block>, s': Picker,
                       total: nat, pieceLen: nat, i: nat, b: nat)
    requires pieceLen > 0 && Inv(s, total, pieceLen) && NextBlock(s, a, now, s', r)
    requires i < |s.pieces| && b < |s.pieces[i].blocks|
    ensures Evolves(s, Next(a, now, r), s', i, b)
  {
    if r.Some? {
      var c := GrantPlace(s, a, now, r.value, s', total, pieceLen);
      GrantsOne(s, a, now, r, total, pieceLen, r.value.index, c, i, b);
      GrantEffect(s.(endGame := s'.endGame), a, now, r.value.index, i, b);
    }
  }

  /** The place of the block that is granted. */
  lemma GrantPlace(s: Picker, a: Addr, now: int, block: Block, s': Picker, total: nat, pieceLen: nat) returns (c: nat)
    requires pieceLen > 0 && Inv(s, total, pieceLen) && NextBlock(s, a, now, s', Some(block))
    ensures block.index < |s.pieces| && c < |s.pieces[block.index].blocks| &&
            block.begin == s.pieces[block.index].blocks[c].begin
    ensures c == FirstIn(s.pieces[block.index].blocks, if s'.endGame then Pending else Unrequested)
  {
    c := FirstIn(s.pieces[block.index].blocks, if s'.endGame then Pending else Unrequested);
  }

  lemma GrantsOne(s: Picker, a: Addr, now: int, r: Option<Block>, total: nat, pieceLen: nat, j: nat, c: nat, i: nat,
                  b: nat)
    requires pieceLen > 0 && Inv(s, total, pieceLen) && r.Some? && r.value.index == j
    requires j < |s.pieces| && c < |s.pieces[j].blocks| && r.value.begin == s.pieces[j].blocks[c].begin
    requires i < |s.pieces| && b < |s.pieces[i].blocks|
    ensures Grants(s, Next(a, now, r), i, b) <==> i == j && b == c
  {
    NamedIs(s, total, pieceLen, j, c);
    NamedIs(s, total, pieceLen, i, b);
  }

  lemma GrantEffect(s: Picker, a: Addr, now: int, j: nat, i: nat, b: nat)
    requires j < |s.pieces| && HasBlock(s.pieces[j], if s.endGame then Pending else Unrequested)
    requires i < |s.pieces| && b < |s.pieces[i].blocks|
    ensures var s' := Granted(s, a, now, j);
            var c := FirstIn(s.pieces[j].blocks, if s.endGame then Pending else Unrequested);
            && i < |s'.pieces| && |s'.pieces[i].blocks| == |s.pieces[i].blocks| && s'.endGame == s.endGame
            && SamePlace(s.pieces[i].blocks[b], s'.pieces[i].blocks[b])
            && s'.pieces[i].blocks[b].state == if i == j && b == c then Pending else s.pieces[i].blocks[b].state
  {
  }

  // ----- Along a path

  predicate BlockLater(x: Block, y: Block, endGame: bool) {
    && SamePlace(x, y)
    && (x.state == Completed ==> y.state == Completed)
    && (endGame && y.state == Pending ==> x.state == Pending)
  }

  predicate PieceLater(p: Piece, q: Piece, endGame: bool) {
    && |q.blocks| == |p.blocks|
    && (p.done ==> q.done)
    && forall b :: 0 <= b < |p.blocks| ==> BlockLater(p.blocks[b], q.blocks[b], endGame)
  }

  /** Nothing that was reached is ever lost, and in end-game no block becomes Pending. */
  ghost predicate Later(s: Picker, s': Picker) {
    && |s'.pieces| == |s.pieces|
    && s'.totalBlocks == s.totalBlocks
    && (s.endGame ==> s'.endGame)
    && forall i :: 0 <= i < |s.pieces| ==> PieceLater(s.pieces[i], s'.pieces[i], s.endGame)
  }

  lemma LaterReflexive(s: Picker)
    ensures Later(s, s)
  {
  }

  lemma LaterTransitive(s0: Picker, s1: Picker, s2: Picker)
    requires Later(s0, s1) && Later(s1, s2)
    ensures Later(s0, s2)
  {
    forall i | 0 <= i < |s0.pieces|
      ensures PieceLater(s0.pieces[i], s2.pieces[i], s0.endGame)
    {
      assert PieceLater(s0.pieces[i], s1.pieces[i], s0.endGame);
      assert PieceLater(s1.pieces[i], s2.pieces[i], s1.endGame);
      forall b | 0 <= b < |s0.pieces[i].blocks|
        ensures BlockLater(s0.pieces[i].blocks[b], s2.pieces[i].blocks[b], s0.endGame)
      {
        assert BlockLater(s0.pieces[i].blocks[b], s1.pieces[i].blocks[b], s0.endGame);
        assert BlockLater(s1.pieces[i].blocks[b], s2.pieces[i].blocks[b], s1.endGame);
      }
    }
  }

  lemma BlockStepLater(s: Picker, op: Op, s': Picker, total: nat, pieceLen: nat, i: nat, b: nat)
    requires pieceLen > 0 && Inv(s, total, pieceLen) && Step(s, op, s')
    requires i < |s.pieces| && b < |s.pieces[i].blocks|
    ensures i < |s'.pieces| && |s'.pieces[i].blocks| == |s.pieces[i].blocks|
    ensures BlockLater(s.pieces[i].blocks[b], s'.pieces[i].blocks[b], s.endGame)
  {
    BlockTransition(s, op, s', total, pieceLen, i, b);
  }

  lemma PieceStepLater(s: Picker, op: Op, s': Picker, total: nat, pieceLen: nat, i: nat)
    requires pieceLen > 0 && Inv(s, total, pieceLen) && Inv(s', total, pieceLen) && Step(s, op, s')
    requires i < |s.pieces|
    ensures PieceLater(s.pieces[i], s'.pieces[i], s.endGame)
  {
    assert PieceOk(s.pieces[i], i, PieceLength(total, pieceLen, i), s.peerPieces.Keys);
    assert PieceOk(s'.pieces[i], i, PieceLength(total, pieceLen, i), s'.peerPieces.Keys);
    forall b | 0 <= b < |s.pieces[i].blocks|
      ensures BlockLater(s.pieces[i].blocks[b], s'.pieces[i].blocks[b], s.endGame)
    {
      BlockStepLater(s, op, s', total, pieceLen, i, b);
    }
  }

  lemma StepLater(s: Picker, op: Op, s': Picker, total: nat, pieceLen: nat)
    requires pieceLen > 0 && Inv(s, total, pieceLen) && Step(s, op, s')
    ensures Later(s, s')
  {
    StepKeepsInv(s, op, s', total, pieceLen);
    forall i | 0 <= i < |s.pieces|
      ensures PieceLater(s.pieces[i], s'.pieces[i], s.endGame)
    {
      PieceStepLater(s, op, s', total, pieceLen, i);
    }
  }

  /**
   * Completed blocks and piece flags are permanent, end-game is a latch, and once it is set the Pending
   * blocks only become fewer: nothing is moved from Unrequested to Pending any more.
   */
  lemma {:induction false} RunLater(total: nat, pieceLen: nat, ss: seq<Picker>, ops: seq<Op>, j: nat, k: nat)
    requires pieceLen > 0 && Run(total, pieceLen, ss, ops) && j <= k < |ss|
    ensures Later(ss[j], ss[k])
    decreases k
  {
    if j == k {
      LaterReflexive(ss[k]);
    } else {
      RunLater(total, pieceLen, ss, ops, j, k - 1);
      RunStep(total, pieceLen, ss, ops, k - 1);
      LaterTransitive(ss[j], ss[k - 1], ss[k]);
    }
  }

  lemma RunStep(total: nat, pieceLen: nat, ss: seq<Picker>, ops: seq<Op>, k: nat)
    requires pieceLen > 0 && Run(total, pieceLen, ss, ops) && k < |ops|
    ensures Inv(ss[k], total, pieceLen) && Inv(ss[k + 1], total, pieceLen) && Later(ss[k], ss[k + 1])
  {
    RunKeepsInv(total, pieceLen, ss, ops, k);
    RunKeepsInv(total, pieceLen, ss, ops, k + 1);
    assert StepAt(ss, ops, k);
    StepLater(ss[k], ops[k], ss[k + 1], total, pieceLen);
  }

  /** Block b of piece i exists in s. */
  predicate Exists(s: Picker, i: nat, b: nat) {
    i < |s.pieces| && b < |s.pieces[i].blocks|
  }

  /** One block along one step of a run. */
  lemma RunBlock(total: nat, pieceLen: nat, ss: seq<Picker>, ops: seq<Op>, k: nat, i: nat, b: nat)
    requires pieceLen > 0 && Run(total, pieceLen, ss, ops) && k < |ops| && Exists(ss[k], i, b)
    ensures Exists(ss[k + 1], i, b) && Evolves(ss[k], ops[k], ss[k + 1], i, b)
    ensures ss[k].endGame ==> ss[k + 1].endGame
  {
    RunStep(total, pieceLen, ss, ops, k);
    assert StepAt(ss, ops, k);
    BlockTransition(ss[k], ops[k], ss[k + 1], total, pieceLen, i, b);
  }

  /** In end-game an Unrequested block that is found Completed later was delivered by a piece message in between. */
  lemma {:induction false} EndGameOnlyDelivers(
    total: nat, pieceLen: nat, ss: seq<Picker>, ops: seq<Op>, j: nat, k: nat, i: nat, b: nat)
    requires pieceLen > 0 && Run(total, pieceLen, ss, ops) && j <= k < |ss|
    requires Exists(ss[j], i, b) && ss[j].endGame && ss[j].pieces[i].blocks[b].state == Unrequested
    ensures Exists(ss[k], i, b) && SamePlace(ss[j].pieces[i].blocks[b], ss[k].pieces[i].blocks[b]) && ss[k].endGame
    ensures ss[k].pieces[i].blocks[b].state == Unrequested ||
            (ss[k].pieces[i].blocks[b].state == Completed &&
             exists m :: j <= m < k && ops[m].MarkCompleted? && ops[m].index == i &&
                         ops[m].begin == ss[j].pieces[i].blocks[b].begin)
    decreases k
  {
    if j < k {
      EndGameOnlyDelivers(total, pieceLen, ss, ops, j, k - 1, i, b);
      RunBlock(total, pieceLen, ss, ops, k - 1, i, b);
      assert ops[k - 1] == ops[k - 1];
    }
  }

  // ----- Grant discipline

  /** Until something releases it, a granted block does not become Unrequested. */
  lemma {:induction false} StaysTaken(
    total: nat, pieceLen: nat, ss: seq<Picker>, ops: seq<Op>, j: nat, k: nat, i: nat, b: nat)
    requires pieceLen > 0 && Run(total, pieceLen, ss, ops) && j < k < |ss|
    requires Exists(ss[j], i, b) && Grants(ss[j], ops[j], i, b)
    requires forall m | j < m < k :: Exists(ss[m], i, b) && !Releases(ss[m], ops[m], i, b)
    ensures Exists(ss[k], i, b) && ss[k].pieces[i].blocks[b].state != Unrequested
    decreases k
  {
    if j + 1 < k {
      StaysTaken(total, pieceLen, ss, ops, j, k - 1, i, b);
    }
    RunBlock(total, pieceLen, ss, ops, k - 1, i, b);
  }

  lemma {:induction false} StillExists(
    total: nat, pieceLen: nat, ss: seq<Picker>, ops: seq<Op>, j: nat, k: nat, i: nat, b: nat)
    requires pieceLen > 0 && Run(total, pieceLen, ss, ops) && j <= k < |ss| && Exists(ss[j], i, b)
    ensures Exists(ss[k], i, b)
    decreases k
  {
    if j < k {
      StillExists(total, pieceLen, ss, ops, j, k - 1, i, b);
      RunBlock(total, pieceLen, ss, ops, k - 1, i, b);
    }
  }

  /**
   * Before end-game no block is granted twice unless, in between, its request failed, timed out, or its
   * owner was unregistered while it was outstanding.
   */
  lemma NoSecondGrant(total: nat, pieceLen: nat, ss: seq<Picker>, ops: seq<Op>, j: nat, k: nat, i: nat, b: nat)
    requires pieceLen > 0 && Run(total, pieceLen, ss, ops) && j < k < |ops|
    requires Exists(ss[j], i, b) && Exists(ss[k], i, b)
    requires Grants(ss[j], ops[j], i, b) && Grants(ss[k], ops[k], i, b) && !ss[k + 1].endGame
    ensures exists m :: j < m < k && Exists(ss[m], i, b) && Releases(ss[m], ops[m], i, b)
  {
    forall m | j < m < k
      ensures Exists(ss[m], i, b)
    {
      StillExists(total, pieceLen, ss, ops, j, m, i, b);
    }
    RunBlock(total, pieceLen, ss, ops, k, i, b);
    if forall m | j < m < k :: Exists(ss[m], i, b) && !Releases(ss[m], ops[m], i, b) {
      StaysTaken(total, pieceLen, ss, ops, j, k, i, b);
    }
  }

  /** In every reachable state the owner of a Pending block is a registered peer. */
  lemma OwnersRegistered(total: nat, pieceLen: nat, ss: seq<Picker>, ops: seq<Op>, k: nat, i: nat, b: nat)
    requires pieceLen > 0 && Run(total, pieceLen, ss, ops) && k < |ss|
    requires i < |ss[k].pieces| && b < |ss[k].pieces[i].blocks| && ss[k].pieces[i].blocks[b].state == Pending
    ensures ss[k].pieces[i].blocks[b].peer in ss[k].peerPieces
  {
    RunKeepsInv(total, pieceLen, ss, ops, k);
    assert PieceOk(ss[k].pieces[i], i, PieceLength(total, pieceLen, i), ss[k].peerPieces.Keys);
  }

  /** Reclaiming skips complete pieces, and loses nothing by it. */
  lemma SkippingLosesNothing(s: Picker, total: nat, pieceLen: nat, why: Reason, i: nat)
    requires pieceLen > 0 && Inv(s, total, pieceLen) && i < |s.pieces|
    ensures Reclaim(s, why).pieces[i].blocks == ReclaimBlocks(s.pieces[i].blocks, why, |s.pieces[i].blocks|)
  {
    assert PieceOk(s.pieces[i], i, PieceLength(total, pieceLen, i), s.peerPieces.Keys);
  }

  // ----- One-shot completion

  /** The call at step k told the manager that piece i is complete. */
  predicate PieceReported(ss: seq<Picker>, ops: seq<Op>, k: nat, i: nat)
    requires k < |ops| && k < |ss|
  {
    ops[k].MarkCompleted? && ops[k].index == i && Complete(ss[k], i, ops[k].begin, ops[k].addr).pieceDone
  }

  /** The call at step k told the manager that the torrent is complete. */
  predicate TorrentReported(ss: seq<Picker>, ops: seq<Op>, k: nat)
    requires k < |ops| && k < |ss|
  {
    ops[k].MarkCompleted? && Complete(ss[k], ops[k].index, ops[k].begin, ops[k].addr).torrentDone
  }

  predicate AllDone(s: Picker) {
    forall i :: 0 <= i < |s.pieces| ==> s.pieces[i].done
  }

  /** All counted blocks are Completed exactly when every piece is flagged. */
  lemma CompletedIsAllDone(s: Picker, total: nat, pieceLen: nat)
    requires pieceLen > 0 && Inv(s, total, pieceLen)
    ensures s.completed == s.totalBlocks <==> AllDone(s)
  {
    TallyFull(s.pieces, {Completed});
    assert forall i :: 0 <= i < |s.pieces| ==>
        PieceOk(s.pieces[i], i, PieceLength(total, pieceLen, i), s.peerPieces.Keys);
  }

  /** A report comes with the last missing block of a piece, and torrent-done with the last missing piece. */
  lemma ReportMeaning(s: Picker, i: int, begin: int, a: Addr, total: nat, pieceLen: nat)
    requires pieceLen > 0 && Inv(s, total, pieceLen)
    ensures var c := Complete(s, i, begin, a);
            && c.index == (if Accepts(s, i, begin) then i else -1)
            && (c.pieceDone <==> Accepts(s, i, begin) && c.picker.pieces[i].done)
            && (c.torrentDone <==> c.pieceDone && AllDone(c.picker))
  {
    if Accepts(s, i, begin) {
      CompleteKeepsInv(s, i, begin, a, total, pieceLen);
      CompletedIsAllDone(Complete(s, i, begin, a).picker, total, pieceLen);
    }
  }

  /** What the call at step k reported is the state it left behind. */
  lemma RunReport(total: nat, pieceLen: nat, ss: seq<Picker>, ops: seq<Op>, k: nat, i: nat)
    requires pieceLen > 0 && Run(total, pieceLen, ss, ops) && k < |ops| && i < PieceCount(total, pieceLen)
    ensures |ss[k].pieces| == |ss[k + 1].pieces| == PieceCount(total, pieceLen)
    ensures ss[k + 1].pieces[i].done <==> ss[k].pieces[i].done || PieceReported(ss, ops, k, i)
    ensures PieceReported(ss, ops, k, i) ==> !ss[k].pieces[i].done
    ensures TorrentReported(ss, ops, k) ==> AllDone(ss[k + 1]) && PieceReported(ss, ops, k, ops[k].index)
  {
    RunStep(total, pieceLen, ss, ops, k);
    assert StepAt(ss, ops, k);
    FlagSetByReport(ss[k], ops[k], ss[k + 1], total, pieceLen, i);
    if ops[k].MarkCompleted? {
      ReportMeaning(ss[k], ops[k].index, ops[k].begin, ops[k].addr, total, pieceLen);
    }
    assert PieceLater(ss[k].pieces[i], ss[k + 1].pieces[i], ss[k].endGame);
  }

  /** A piece is flagged exactly when some earlier step reported it. */
  lemma {:induction false} DoneWasReported(total: nat, pieceLen: nat, ss: seq<Picker>, ops: seq<Op>, k: nat, i: nat)
    requires pieceLen > 0 && Run(total, pieceLen, ss, ops) && k < |ss| && i < PieceCount(total, pieceLen)
    ensures |ss[k].pieces| == PieceCount(total, pieceLen)
    ensures ss[k].pieces[i].done <==> exists j :: 0 <= j < k && PieceReported(ss, ops, j, i)
    decreases k
  {
    if k == 0 {
      assert !FreshPiece(total, pieceLen, i).done;
    } else {
      DoneWasReported(total, pieceLen, ss, ops, k - 1, i);
      RunReport(total, pieceLen, ss, ops, k - 1, i);
    }
  }

  /** Each piece is reported at most once. */
  lemma PieceReportedOnce(total: nat, pieceLen: nat, ss: seq<Picker>, ops: seq<Op>, j: nat, k: nat, i: nat)
    requires pieceLen > 0 && Run(total, pieceLen, ss, ops) && j < k < |ops| && i < PieceCount(total, pieceLen)
    ensures !(PieceReported(ss, ops, j, i) && PieceReported(ss, ops, k, i))
  {
    DoneWasReported(total, pieceLen, ss, ops, k, i);
    RunReport(total, pieceLen, ss, ops, k, i);
  }

  /** Torrent-done is reported at most once, together with the last piece, and after it no piece is reported. */
  lemma NothingAfterTorrentDone(total: nat, pieceLen: nat, ss: seq<Picker>, ops: seq<Op>, j: nat, k: nat, i: nat)
    requires pieceLen > 0 && Run(total, pieceLen, ss, ops) && j < k < |ops| && i < PieceCount(total, pieceLen)
    requires TorrentReported(ss, ops, j)
    ensures PieceReported(ss, ops, j, ops[j].index) && AllDone(ss[j + 1])
    ensures !TorrentReported(ss, ops, k) && !PieceReported(ss, ops, k, i)
  {
    RunReport(total, pieceLen, ss, ops, j, i);
    RunReport(total, pieceLen, ss, ops, k, i);
    RunLater(total, pieceLen, ss, ops, j + 1, k);
    forall n | 0 <= n < |ss[k].pieces|
      ensures ss[k].pieces[n].done
    {
      assert PieceLater(ss[j + 1].pieces[n], ss[k].pieces[n], ss[j + 1].endGame);
    }
  }

  lemma FlagSetByReport(s: Picker, op: Op, s': Picker, total: nat, pieceLen: nat, i: nat)
    requires pieceLen > 0 && Inv(s, total, pieceLen) && Step(s, op, s')
    requires i < |s.pieces|
    ensures |s'.pieces| == |s.pieces|
    ensures s'.pieces[i].done && !s.pieces[i].done ==>
              op.MarkCompleted? && op.index == i && Complete(s, i, op.begin, op.addr).pieceDone
  {
    match op
    case Next(a, now, r) =>
      if r.Some? {
        FlagsKept(s.(endGame := s'.endGame), a, now, r.value.index, i);
      }
    case UnregisterPeer(a) => assert s'.pieces[i] == ReclaimPiece(s.pieces[i], PeerLeft(a));
    case ReclaimStalled(now, timeout) => assert s'.pieces[i] == ReclaimPiece(s.pieces[i], Stale(now, timeout));
    case _ =>
  }

  lemma FlagsKept(s: Picker, a: Addr, now: int, j: nat, i: nat)
    requires j < |s.pieces| && HasBlock(s.pieces[j], if s.endGame then Pending else Unrequested) && i < |s.pieces|
    ensures var s' := Granted(s, a, now, j); |s'.pieces| == |s.pieces| && s'.pieces[i].done == s.pieces[i].done
  {
  }
}
