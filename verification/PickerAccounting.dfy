/** The redundant state of the picker agrees with itself in every run. */
module PickerAccounting {
  import opened Bytes
  import opened Layout
  import opened PickerModel

  // ----- Counting lemmas

  lemma {:induction false} TallyBlocksUpdate(bs: seq<Block>, b: nat, block: Block, st: set<BlockState>)
    requires b < |bs|
    ensures TallyBlocks(bs[b := block], st) ==
            TallyBlocks(bs, st) - (if bs[b].state in st then 1 else 0) + (if block.state in st then 1 else 0)
  {
    var n := |bs| - 1;
    if b == n {
      assert bs[b := block][..n] == bs[..n];
    } else {
      TallyBlocksUpdate(bs[..n], b, block, st);
      assert bs[b := block][..n] == bs[..n][b := block];
    }
  }

  lemma {:induction false} TallyUpdate(ps: seq<Piece>, i: nat, p: Piece, st: set<BlockState>)
    requires i < |ps|
    ensures Tally(ps[i := p], st) == Tally(ps, st) - TallyBlocks(ps[i].blocks, st) + TallyBlocks(p.blocks, st)
  {
    var n := |ps| - 1;
    if i == n {
      assert ps[i := p][..n] == ps[..n];
    } else {
      TallyUpdate(ps[..n], i, p, st);
      assert ps[i := p][..n] == ps[..n][i := p];
    }
  }

  /** Replacing one block moves each tally by that block alone; a flag on the piece does not count. */
  lemma TallySet(ps: seq<Piece>, i: nat, b: nat, block: Block, done: bool, st: set<BlockState>)
    requires i < |ps| && b < |ps[i].blocks|
    ensures var ps' := SetBlock(ps, i, b, block);
            Tally(ps'[i := ps'[i].(done := done)], st) == Tally(ps', st) ==
            Tally(ps, st) - (if ps[i].blocks[b].state in st then 1 else 0) + (if block.state in st then 1 else 0)
  {
    var ps' := SetBlock(ps, i, b, block);
    TallyBlocksUpdate(ps[i].blocks, b, block, st);
    TallyUpdate(ps, i, ps'[i], st);
    TallyUpdate(ps', i, ps'[i].(done := done), st);
  }

  lemma {:induction false} TallyBlocksSame(bs: seq<Block>, cs: seq<Block>, st: set<BlockState>)
    requires |bs| == |cs|
    requires forall b :: 0 <= b < |bs| ==> (bs[b].state in st <==> cs[b].state in st)
    ensures TallyBlocks(bs, st) == TallyBlocks(cs, st)
  {
    if bs != [] {
      TallyBlocksSame(bs[..|bs| - 1], cs[..|cs| - 1], st);
    }
  }

  lemma {:induction false} TallySame(ps: seq<Piece>, qs: seq<Piece>, st: set<BlockState>)
    requires |ps| == |qs|
    requires forall i :: 0 <= i < |ps| ==> TallyBlocks(ps[i].blocks, st) == TallyBlocks(qs[i].blocks, st)
    ensures Tally(ps, st) == Tally(qs, st)
  {
    if ps != [] {
      TallySame(ps[..|ps| - 1], qs[..|qs| - 1], st);
    }
  }

  lemma {:induction false} TallyBlocksFull(bs: seq<Block>, st: set<BlockState>)
    ensures TallyBlocks(bs, ANY) == |bs|
    ensures TallyBlocks(bs, st) <= |bs|
    ensures TallyBlocks(bs, st) == |bs| <==> forall b :: 0 <= b < |bs| ==> bs[b].state in st
  {
    if bs != [] {
      var n := |bs| - 1;
      TallyBlocksFull(bs[..n], st);
      assert forall b :: 0 <= b < n ==> bs[..n][b] == bs[b];
      match bs[n].state case Unrequested => case Pending => case Completed =>
    }
  }

  /** A tally is full exactly when every block is in one of the counted states. */
  lemma {:induction false} TallyFull(ps: seq<Piece>, st: set<BlockState>)
    ensures Tally(ps, st) <= Tally(ps, ANY)
    ensures Tally(ps, st) == Tally(ps, ANY) <==>
            forall i, b :: 0 <= i < |ps| && 0 <= b < |ps[i].blocks| ==> ps[i].blocks[b].state in st
  {
    if ps != [] {
      var n := |ps| - 1;
      TallyFull(ps[..n], st);
      TallyBlocksFull(ps[n].blocks, st);
      assert forall i :: 0 <= i < n ==> ps[..n][i] == ps[i];
    }
  }

  lemma {:induction false} TallyBlocksNone(bs: seq<Block>, st: set<BlockState>)
    requires forall b :: 0 <= b < |bs| ==> bs[b].state !in st
    ensures TallyBlocks(bs, st) == 0
  {
    if bs != [] {
      TallyBlocksNone(bs[..|bs| - 1], st);
    }
  }

  lemma {:induction false} TallyNone(ps: seq<Piece>, st: set<BlockState>)
    requires forall i, b :: 0 <= i < |ps| && 0 <= b < |ps[i].blocks| ==> ps[i].blocks[b].state !in st
    ensures Tally(ps, st) == 0
  {
    if ps != [] {
      var n := |ps| - 1;
      TallyBlocksNone(ps[n].blocks, st);
      assert forall i :: 0 <= i < n ==> ps[..n][i] == ps[i];
      TallyNone(ps[..n], st);
    }
  }

  // ----- The invariant

  predicate BlockShaped(block: Block, i: nat, len: nat, b: nat)
    requires b < BlockCount(len)
  {
    block.index == i && block.begin == b * BLOCK_SIZE && block.length == BlockLength(len, b)
  }

  /** Piece i is cut as the torrent says, is flagged exactly when complete, and its requests have registered owners. */
  ghost predicate PieceOk(p: Piece, i: nat, len: nat, peers: set<Addr>) {
    && p.index == i && p.length == len && |p.blocks| == BlockCount(len)
    && (forall b :: 0 <= b < |p.blocks| ==> BlockShaped(p.blocks[b], i, len, b))
    && (p.done <==> AllCompleted(p.blocks))
    && (forall b :: 0 <= b < |p.blocks| && p.blocks[b].state == Pending ==> p.blocks[b].peer in peers)
  }

  ghost predicate Counted(s: Picker) {
    && s.pendingCount == Tally(s.pieces, {Pending})
    && s.completed == Tally(s.pieces, {Completed})
    && s.totalBlocks == Tally(s.pieces, ANY)
  }

  ghost predicate Inv(s: Picker, total: nat, pieceLen: nat)
    requires pieceLen > 0
  {
    && Sized(s)
    && |s.pieces| == PieceCount(total, pieceLen)
    && (forall i :: 0 <= i < |s.pieces| ==>
          PieceOk(s.pieces[i], i, PieceLength(total, pieceLen, i), s.peerPieces.Keys))
    && Counted(s)
  }

  lemma FreshOk(total: nat, pieceLen: nat)
    requires pieceLen > 0
    ensures Inv(Fresh(total, pieceLen), total, pieceLen)
  {
    var s := Fresh(total, pieceLen);
    forall i | 0 <= i < |s.pieces|
      ensures PieceOk(s.pieces[i], i, PieceLength(total, pieceLen, i), {})
    {
      FreshPieceOk(total, pieceLen, i);
    }
    TallyNone(s.pieces, {Pending});
    TallyNone(s.pieces, {Completed});
  }

  lemma FreshPieceOk(total: nat, pieceLen: nat, i: nat)
    requires pieceLen > 0 && i < PieceCount(total, pieceLen)
    ensures var p := FreshPiece(total, pieceLen, i);
            PieceOk(p, i, PieceLength(total, pieceLen, i), {}) && forall b :: 0 <= b < |p.blocks| ==>
              p.blocks[b].state == Unrequested
  {
    assert FreshPiece(total, pieceLen, i).blocks[0].state == Unrequested;
  }

  predicate SamePlace(x: Block, y: Block) {
    x.index == y.index && x.begin == y.begin && x.length == y.length
  }

  /** The counters of s' are those of s moved by one block going from state `was` to state `now`. */
  predicate CountersMove(s: Picker, s': Picker, was: BlockState, now: BlockState) {
    && s'.totalBlocks == s.totalBlocks
    && s'.pendingCount == s.pendingCount - (if was == Pending then 1 else 0) + (if now == Pending then 1 else 0)
    && s'.completed == s.completed - (if was == Completed then 1 else 0) + (if now == Completed then 1 else 0)
  }

  lemma SetBlockCounted(s: Picker, i: nat, b: nat, block: Block, done: bool, s': Picker)
    requires Counted(s) && i < |s.pieces| && b < |s.pieces[i].blocks|
    requires var ps := SetBlock(s.pieces, i, b, block); s'.pieces == ps[i := ps[i].(done := done)]
    requires CountersMove(s, s', s.pieces[i].blocks[b].state, block.state)
    ensures Counted(s')
  {
    TallySet(s.pieces, i, b, block, done, {Pending});
    TallySet(s.pieces, i, b, block, done, {Completed});
    TallySet(s.pieces, i, b, block, done, ANY);
    var was := s.pieces[i].blocks[b].state;
    assert was in ANY by { match was case Unrequested => case Pending => case Completed => }
    assert block.state in ANY by { match block.state case Unrequested => case Pending => case Completed => }
  }

  lemma SetBlockPieceOk(p: Piece, i: nat, len: nat, peers: set<Addr>, b: nat, block: Block)
    requires PieceOk(p, i, len, peers) && b < |p.blocks| && SamePlace(block, p.blocks[b])
    requires block.state == Pending ==> block.peer in peers
    ensures var bs := p.blocks[b := block]; PieceOk(p.(blocks := bs, done := AllCompleted(bs)), i, len, peers)
  {
    assert BlockShaped(p.blocks[b], i, len, b);
  }

  /** Replacing one block keeps the invariant when the flag and the counters move with it. */
  lemma SetBlockOk(s: Picker, total: nat, pieceLen: nat, i: nat, b: nat, block: Block, s': Picker)
    requires pieceLen > 0 && Inv(s, total, pieceLen)
    requires i < |s.pieces| && b < |s.pieces[i].blocks| && SamePlace(block, s.pieces[i].blocks[b])
    requires block.state == Pending ==> block.peer in s.peerPieces
    requires var ps := SetBlock(s.pieces, i, b, block);
             s'.pieces == ps[i := ps[i].(done := AllCompleted(ps[i].blocks))]
    requires s'.peerPieces == s.peerPieces && s'.availability == s.availability
    requires CountersMove(s, s', s.pieces[i].blocks[b].state, block.state)
    ensures Inv(s', total, pieceLen)
  {
    var len, peers := PieceLength(total, pieceLen, i), s.peerPieces.Keys;
    var done := AllCompleted(s.pieces[i].blocks[b := block]);
    SetBlockCounted(s, i, b, block, done, s');
    SetBlockPieceOk(s.pieces[i], i, len, peers, b, block);
    assert s'.pieces[i] == s.pieces[i].(blocks := s.pieces[i].blocks[b := block], done := done);
    assert forall j :: 0 <= j < |s.pieces| && j != i ==> s'.pieces[j] == s.pieces[j];
  }

  /** Taking blocks back keeps the invariant of the remaining peers. */
  lemma ReclaimOk(s: Picker, total: nat, pieceLen: nat, why: Reason, left: set<Addr>)
    requires pieceLen > 0 && Inv(s, total, pieceLen)
    requires left <= s.peerPieces.Keys
    requires forall a :: a in s.peerPieces && a !in left ==> why == PeerLeft(a)
    ensures var ps := ReclaimPieces(s.pieces, why, |s.pieces|);
            && Tally(ps, {Completed}) == Tally(s.pieces, {Completed})
            && Tally(ps, ANY) == Tally(s.pieces, ANY)
            && forall i :: 0 <= i < |ps| ==> PieceOk(ps[i], i, PieceLength(total, pieceLen, i), left)
  {
    var ps := ReclaimPieces(s.pieces, why, |s.pieces|);
    forall i | 0 <= i < |ps|
      ensures PieceOk(ps[i], i, PieceLength(total, pieceLen, i), left)
      ensures TallyBlocks(s.pieces[i].blocks, {Completed}) == TallyBlocks(ps[i].blocks, {Completed})
      ensures TallyBlocks(s.pieces[i].blocks, ANY) == TallyBlocks(ps[i].blocks, ANY)
    {
      ReclaimPieceOk(s.pieces[i], i, PieceLength(total, pieceLen, i), s.peerPieces.Keys, why, left);
    }
    TallySame(s.pieces, ps, {Completed});
    TallySame(s.pieces, ps, ANY);
  }

  lemma ReclaimPieceOk(p: Piece, i: nat, len: nat, peers: set<Addr>, why: Reason, left: set<Addr>)
    requires PieceOk(p, i, len, peers) && forall a :: a in peers && a !in left ==> why == PeerLeft(a)
    ensures var q := ReclaimPiece(p, why);
            && PieceOk(q, i, len, left)
            && TallyBlocks(p.blocks, {Completed}) == TallyBlocks(q.blocks, {Completed})
            && TallyBlocks(p.blocks, ANY) == TallyBlocks(q.blocks, ANY)
  {
    var q := ReclaimPiece(p, why);
    assert forall b :: 0 <= b < |p.blocks| ==>
        SamePlace(p.blocks[b], q.blocks[b]) && (q.blocks[b].state == Completed <==> p.blocks[b].state == Completed);
    TallyBlocksSame(p.blocks, q.blocks, {Completed});
    TallyBlocksFull(p.blocks, ANY);
    TallyBlocksFull(q.blocks, ANY);
    forall b | 0 <= b < |q.blocks|
      ensures BlockShaped(q.blocks[b], i, len, b)
    {
      assert BlockShaped(p.blocks[b], i, len, b);
    }
  }

  /** No step, whatever its arguments, breaks the agreement. */
  lemma StepKeepsInv(s: Picker, op: Op, s': Picker, total: nat, pieceLen: nat)
    requires pieceLen > 0 && Inv(s, total, pieceLen) && Step(s, op, s')
    ensures Inv(s', total, pieceLen)
  {
    match op
    case RegisterPeer(a) =>
      PeersKeepInv(s, s', total, pieceLen);
    case UnregisterPeer(a) =>
      UnregisterKeepsInv(s, a, total, pieceLen);
    case PeerBitfield(a, bits) =>
      PeersKeepInv(s, s', total, pieceLen);
    case PeerHave(a, i) =>
      PeersKeepInv(s, s', total, pieceLen);
    case Next(a, now, r) =>
      NextKeepsInv(s, a, now, r, s', total, pieceLen);
    case MarkCompleted(i, begin, a) =>
      CompleteKeepsInv(s, i, begin, a, total, pieceLen);
    case MarkFailed(i, begin) =>
      FailKeepsInv(s, i, begin, total, pieceLen);
    case ReclaimStalled(now, timeout) =>
      ReclaimOk(s, total, pieceLen, Stale(now, timeout), s.peerPieces.Keys);
  }

  /** More peers, or the same peers with other bitmaps, do not matter to the blocks. */
  lemma PeersKeepInv(s: Picker, s': Picker, total: nat, pieceLen: nat)
    requires pieceLen > 0 && Inv(s, total, pieceLen)
    requires Sized(s') && s' == s.(peerPieces := s'.peerPieces, availability := s'.availability)
    requires s.peerPieces.Keys <= s'.peerPieces.Keys
    ensures Inv(s', total, pieceLen)
  {
    forall i | 0 <= i < |s.pieces|
      ensures PieceOk(s'.pieces[i], i, PieceLength(total, pieceLen, i), s'.peerPieces.Keys)
    {
      assert PieceOk(s.pieces[i], i, PieceLength(total, pieceLen, i), s.peerPieces.Keys);
    }
  }

  lemma UnregisterKeepsInv(s: Picker, a: Addr, total: nat, pieceLen: nat)
    requires pieceLen > 0 && Inv(s, total, pieceLen)
    ensures Inv(Unregister(s, a), total, pieceLen)
  {
    ReclaimOk(s, total, pieceLen, PeerLeft(a), s.peerPieces.Keys - {a});
    assert Unregister(s, a).peerPieces.Keys == s.peerPieces.Keys - {a};
  }

  lemma CompleteKeepsInv(s: Picker, i: int, begin: int, a: Addr, total: nat, pieceLen: nat)
    requires pieceLen > 0 && Inv(s, total, pieceLen)
    ensures Inv(Complete(s, i, begin, a).picker, total, pieceLen)
  {
    if Accepts(s, i, begin) {
      var b := Named(s, i, begin);
      var block := s.pieces[i].blocks[b].(state := Completed, peer := a);
      SetBlockOk(s, total, pieceLen, i, b, block, Complete(s, i, begin, a).picker);
    }
  }

  lemma NextKeepsInv(s: Picker, a: Addr, now: int, r: Option<Block>, s': Picker, total: nat, pieceLen: nat)
    requires pieceLen > 0 && Inv(s, total, pieceLen) && NextBlock(s, a, now, s', r)
    ensures Inv(s', total, pieceLen)
  {
    if r.Some? {
      var i := r.value.index;
      var p := s.pieces[i];
      var st := if s'.endGame then Pending else Unrequested;
      var b := FirstIn(p.blocks, st);
      var block := s'.pieces[i].blocks[b];
      assert PieceOk(p, i, PieceLength(total, pieceLen, i), s.peerPieces.Keys);
      var ps := SetBlock(s.pieces, i, b, block);
      assert ps[i].blocks[b].state != Completed;
      assert ps[i := ps[i].(done := AllCompleted(ps[i].blocks))] == ps;
      SetBlockOk(s.(endGame := s'.endGame), total, pieceLen, i, b, block, s');
    }
  }

  lemma FailKeepsInv(s: Picker, i: int, begin: int, total: nat, pieceLen: nat)
    requires pieceLen > 0 && Inv(s, total, pieceLen)
    ensures Inv(Fail(s, i, begin), total, pieceLen)
  {
    if Names(s, i, begin) && s.pieces[i].blocks[Named(s, i, begin)].state == Pending {
      var b := Named(s, i, begin);
      var block := TakeBack(s.pieces[i].blocks[b]);
      var ps := SetBlock(s.pieces, i, b, block);
      assert PieceOk(s.pieces[i], i, PieceLength(total, pieceLen, i), s.peerPieces.Keys);
      assert ps[i].blocks[b].state != Completed;
      assert ps[i := ps[i].(done := AllCompleted(ps[i].blocks))] == ps;
      SetBlockOk(s, total, pieceLen, i, b, block, Fail(s, i, begin));
    }
  }

  /** Every state of every run satisfies the invariant. */
  lemma {:induction false} RunKeepsInv(total: nat, pieceLen: nat, ss: seq<Picker>, ops: seq<Op>, k: nat)
    requires pieceLen > 0 && Run(total, pieceLen, ss, ops) && k < |ss|
    ensures Inv(ss[k], total, pieceLen)
  {
    if k == 0 {
      FreshOk(total, pieceLen);
    } else {
      RunKeepsInv(total, pieceLen, ss, ops, k - 1);
      assert StepAt(ss, ops, k - 1);
      StepKeepsInv(ss[k - 1], ops[k - 1], ss[k], total, pieceLen);
    }
  }
}
