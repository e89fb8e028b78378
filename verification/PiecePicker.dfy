/** The picker object: fields updated in place by its methods, each proved against the model. */
module PiecePickerClass {
  import opened Bytes
  import opened Sorting
  import opened Layout
  import opened PickerModel
  import opened PickerAccounting
  import opened PickerRuns
  import opened StalledList

  datatype Candidate = Candidate(index: nat, avail: int)

  /** The order of the candidates. */
  function Avail(): Candidate -> int {
    (c: Candidate) => c.avail
  }

  method PlaceOf(cs: seq<Candidate>, c: Candidate) returns (k: nat)
    requires SortedBy(Avail(), cs)
    ensures k <= |cs|
    ensures forall j :: 0 <= j < k ==> Avail()(cs[j]) <= c.avail
    ensures forall j :: k <= j < |cs| ==> c.avail <= Avail()(cs[j])
  {
    k := 0;
    while k < |cs| && cs[k].avail <= c.avail
      invariant k <= |cs| && forall j :: 0 <= j < k ==> Avail()(cs[j]) <= c.avail
    {
      k := k + 1;
    }
  }

  /** sort.Slice by availability: some ordered arrangement, ties in any order. */
  method SortByAvail(cs: seq<Candidate>) returns (r: seq<Candidate>)
    ensures SortedBy(Avail(), r) && multiset(r) == multiset(cs)
  {
    r := [];
    for n := 0 to |cs|
      invariant SortedBy(Avail(), r) && multiset(r) == multiset(cs[..n])
    {
      assert cs[..n + 1] == cs[..n] + [cs[n]];
      var k := PlaceOf(r, cs[n]);
      assert r == r[..k] + r[k..];
      InsertedSorted(Avail(), r[..k], cs[n], r[k..]);
      r := r[..k] + [cs[n]] + r[k..];
    }
    assert cs[..|cs|] == cs;
  }

  lemma TallyAppend(ps: seq<Piece>, p: Piece, st: set<BlockState>)
    ensures Tally(ps + [p], st) == Tally(ps, st) + TallyBlocks(p.blocks, st)
  {
    assert (ps + [p])[..|ps|] == ps;
  }

  lemma ReclaimNext(bs: seq<Block>, why: Reason, b: nat)
    requires b < |bs|
    ensures TakenBlocks(bs[..b + 1], why) == TakenBlocks(bs[..b], why) + if Reclaimable(bs[b], why) then [bs[b]] else []
    ensures ReclaimBlocks(bs, why, b)[b] == bs[b]
    ensures ReclaimBlocks(bs, why, b + 1) ==
            if Reclaimable(bs[b], why) then ReclaimBlocks(bs, why, b)[b := TakeBack(bs[b])]
              else ReclaimBlocks(bs, why, b)
  {
    assert bs[..b + 1][..b] == bs[..b];
  }

  lemma TakenNext(ps: seq<Piece>, why: Reason, i: nat)
    requires i < |ps|
    ensures Taken(ps[..i + 1], why) == Taken(ps[..i], why) + if ps[i].done then [] else TakenBlocks(ps[i].blocks, why)
    ensures ReclaimPieces(ps, why, i + 1) == ReclaimPieces(ps, why, i)[i := ReclaimPiece(ps[i], why)]
    ensures ps[i].done ==> ReclaimPieces(ps, why, i + 1) == ReclaimPieces(ps, why, i)
    ensures ReclaimPieces(ps, why, i)[i] == ps[i]
  {
    assert ps[..i + 1][..i] == ps[..i];
  }

  /** cs lists the peer's candidates with their availability. */
  ghost predicate Lists(s: Picker, addr: Addr, cs: seq<Candidate>)
    requires Sized(s)
  {
    && (forall c :: c in cs ==> IsCandidate(s, addr, c.index) && c.avail == s.availability[c.index])
    && (forall i: nat :: IsCandidate(s, addr, i) ==> Candidate(i, s.availability[i]) in cs)
  }

  lemma NothingToAsk(s: Picker, addr: Addr, now: int)
    requires Sized(s)
    requires addr !in s.peerPieces || Lists(s, addr, [])
    ensures NextBlock(s, addr, now, s, None)
  {
    assert forall i: nat, st :: !Offers(s, addr, st, i);
  }

  /** The first entry of the sorted list whose piece has a wanted block names a rarest such piece. */
  lemma FirstIsRarest(s: Picker, addr: Addr, cs: seq<Candidate>, want: BlockState, k: nat)
    requires Sized(s) && Lists(s, addr, cs) && SortedBy(Avail(), cs)
    requires k <= |cs|
    requires forall m :: 0 <= m < k ==> cs[m].index < |s.pieces| && !HasBlock(s.pieces[cs[m].index], want)
    ensures k == |cs| ==> forall j :: !Offers(s, addr, want, j)
    ensures k < |cs| && cs[k].index < |s.pieces| && HasBlock(s.pieces[cs[k].index], want) ==>
              Rarest(s, addr, want, cs[k].index)
  {
    forall j: nat | Offers(s, addr, want, j)
      ensures k < |cs| && cs[k].avail <= s.availability[j]
    {
      var m :| 0 <= m < |cs| && cs[m] == Candidate(j, s.availability[j]);
    }
    if k < |cs| {
      assert cs[k] in cs;
    }
  }

  class PiecePicker {
    ghost const total: nat
    ghost const pieceLen: nat

    var pieces: seq<Piece>
    var peerPieces: map<Addr, seq<bool>>
    var availability: seq<int>
    var totalBlocks: nat
    var pendingCount: int
    var completed: int
    var endGame: bool

    ghost function Model(): Picker
      reads this
    {
      Picker(pieces, peerPieces, availability, totalBlocks, pendingCount, completed, endGame)
    }

    ghost predicate Valid()
      reads this
    {
      pieceLen > 0 && Inv(Model(), total, pieceLen)
    }

    constructor (totalLength: nat, normalPieceLength: nat)
      requires normalPieceLength > 0
      ensures Valid() && total == totalLength && pieceLen == normalPieceLength
      ensures Model() == Fresh(totalLength, normalPieceLength)
    {
      var totalPieces := PieceCount(totalLength, normalPieceLength);
      var ps: seq<Piece>, count := [], 0;
      for i := 0 to totalPieces
        invariant ps == FreshPieces(totalLength, normalPieceLength, i)
        invariant count == Tally(ps, ANY)
      {
        var piece := BuildPiece(totalLength, normalPieceLength, i);
        count := count + |piece.blocks|;
        TallyBlocksFull(piece.blocks, ANY);
        TallyAppend(ps, piece, ANY);
        ps := ps + [piece];
      }
      total, pieceLen := totalLength, normalPieceLength;
      pieces, peerPieces := ps, map[];
      availability := seq(totalPieces, _ => 0);
      totalBlocks, pendingCount, completed, endGame := count, 0, 0, false;
      FreshOk(totalLength, normalPieceLength);
    }

    /** The inner loop of the constructor: piece i cut into blocks. */
    static method BuildPiece(totalLength: nat, normalPieceLength: nat, i: nat) returns (piece: Piece)
      requires normalPieceLength > 0 && i < PieceCount(totalLength, normalPieceLength)
      ensures piece == FreshPiece(totalLength, normalPieceLength, i)
    {
      PieceCountBounds(totalLength, normalPieceLength, i);
      var len := normalPieceLength;
      if i == PieceCount(totalLength, normalPieceLength) - 1 {
        len := totalLength - i * normalPieceLength;
      }
      var numBlocks := (len + BLOCK_SIZE - 1) / BLOCK_SIZE;
      var blocks: seq<Block> := [];
      for b := 0 to numBlocks
        invariant |blocks| == b
        invariant forall c :: 0 <= c < b ==> blocks[c] == FreshBlock(i, len, c)
      {
        var begin, length := b * BLOCK_SIZE, BLOCK_SIZE;
        if begin + length > len {
          length := len - begin;
        }
        blocks := blocks + [Block(i, begin, length, Unrequested, "", 0)];
      }
      piece := Piece(i, len, blocks, false);
    }

    method RegisterPeer(addr: Addr)
      requires Valid()
      modifies this
      ensures Valid() && Model() == Register(old(Model()), addr)
    {
      PeersKeepInv(Model(), Register(Model(), addr), total, pieceLen);
      peerPieces := peerPieces[addr := seq(|pieces|, _ => false)];
    }

    method UpdatePeerBitfield(addr: Addr, bits: Bytes)
      requires Valid()
      modifies this
      ensures Valid() && Model() == Bitfield(old(Model()), addr, bits)
    {
      PeersKeepInv(Model(), Bitfield(Model(), addr, bits), total, pieceLen);
      if addr !in peerPieces {
        return;
      }
      var bitmap := peerPieces[addr];
      bitmap, availability := MergeBits(bitmap, availability, bits);
      peerPieces := peerPieces[addr := bitmap];
    }

    /** The loop over the bits. */
    static method MergeBits(bitmap: seq<bool>, availability: seq<int>, bits: Bytes)
      returns (merged: seq<bool>, shifted: seq<int>)
      requires |bitmap| == |availability|
      ensures merged == Merged(bitmap, bits) && shifted == Shifted(availability, bitmap, merged)
    {
      merged, shifted := bitmap, availability;
      for i := 0 to |bitmap|
        invariant |merged| == |shifted| == |bitmap|
        invariant forall j :: 0 <= j < |bitmap| ==>
                    merged[j] == if j < i then bitmap[j] || BitSet(bits, j) else bitmap[j]
        invariant forall j :: 0 <= j < |bitmap| ==>
                    shifted[j] == availability[j] + (if merged[j] then 1 else 0) - (if bitmap[j] then 1 else 0)
      {
        if BitSet(bits, i) && !merged[i] {
          merged := merged[i := true];
          shifted := shifted[i := shifted[i] + 1];
        }
      }
      assert merged == Merged(bitmap, bits) && shifted == Shifted(availability, bitmap, merged);
    }

    method UpdatePeerHave(addr: Addr, index: int)
      requires Valid()
      modifies this
      ensures Valid() && Model() == Have(old(Model()), addr, index)
    {
      PeersKeepInv(Model(), Have(Model(), addr, index), total, pieceLen);
      if addr in peerPieces && 0 <= index < |peerPieces[addr]| && !peerPieces[addr][index] {
        peerPieces := peerPieces[addr := peerPieces[addr][index := true]];
        availability := availability[index := availability[index] + 1];
      }
    }

    /** The loops shared by UnregisterPeer and GetStalledRequests. */
    method TakeBackRequests(why: Reason) returns (taken: seq<Block>)
      modifies this`pieces, this`pendingCount
      ensures Model() == Reclaim(old(Model()), why)
      ensures taken == Taken(old(pieces), why)
    {
      taken := TakeBackFrom(why);
    }

    /** The loop over the pieces. */
    method TakeBackFrom(why: Reason) returns (taken: seq<Block>)
      modifies this`pieces, this`pendingCount
      ensures pieces == ReclaimPieces(old(pieces), why, |old(pieces)|) && taken == Taken(old(pieces), why)
      ensures pendingCount - Tally(pieces, {Pending}) == old(pendingCount - Tally(pieces, {Pending}))
    {
      ghost var was := pieces;
      taken := [];
      for i := 0 to |pieces|
        invariant |pieces| == |was| && pieces == ReclaimPieces(was, why, i)
        invariant pendingCount - Tally(pieces, {Pending}) == old(pendingCount - Tally(pieces, {Pending}))
        invariant taken == Taken(was[..i], why)
      {
        var more := TakeBackPiece(i, why, was);
        TakenNext(was, why, i);
        taken := taken + more;
      }
      assert was[..|was|] == was;
    }

    /** One turn of the loop: piece i, unless it is complete. */
    method TakeBackPiece(i: nat, why: Reason, ghost was: seq<Piece>) returns (taken: seq<Block>)
      requires i < |was| && pieces == ReclaimPieces(was, why, i)
      modifies this`pieces, this`pendingCount
      ensures pieces == ReclaimPieces(was, why, i + 1) && taken == More(was[i], why)
      ensures pendingCount - Tally(pieces, {Pending}) == old(pendingCount - Tally(pieces, {Pending}))
    {
      TakenNext(was, why, i);
      taken := [];
      if !pieces[i].done {
        var bs, more, count := TakeBackBlocks(pieces[i].blocks, why);
        TallyUpdate(pieces, i, pieces[i].(blocks := bs), {Pending});
        pieces := pieces[i := pieces[i].(blocks := bs)];
        pendingCount := pendingCount - count;
        taken := more;
      }
    }

    /** The inner loop: the blocks of one piece, what was taken from it, and how many. */
    static method TakeBackBlocks(bs: seq<Block>, why: Reason) returns (rs: seq<Block>, taken: seq<Block>, count: nat)
      ensures rs == ReclaimBlocks(bs, why, |bs|)
      ensures taken == TakenBlocks(bs, why)
      ensures count == TallyBlocks(bs, {Pending}) - TallyBlocks(rs, {Pending})
    {
      rs, taken, count := bs, [], 0;
      assert ReclaimBlocks(bs, why, 0) == bs;
      for b := 0 to |bs|
        invariant rs == ReclaimBlocks(bs, why, b)
        invariant taken == TakenBlocks(bs[..b], why)
        invariant count == TallyBlocks(bs, {Pending}) - TallyBlocks(rs, {Pending})
      {
        ReclaimNext(bs, why, b);
        if Reclaimable(rs[b], why) {
          TallyBlocksUpdate(rs, b, TakeBack(rs[b]), {Pending});
          taken := taken + [rs[b]];
          rs := rs[b := TakeBack(rs[b])];
          count := count + 1;
        }
      }
      assert bs[..|bs|] == bs;
    }

    /** Forgets the peer's bitmap and lowers the availability of what it had. */
    method DropPeer(addr: Addr)
      requires Sized(Model()) && addr in peerPieces
      modifies this`peerPieces, this`availability
      ensures peerPieces == old(peerPieces) - {addr}
      ensures availability == Shifted(old(availability), old(peerPieces)[addr], seq(|pieces|, _ => false))
    {
      var bitmap := peerPieces[addr];
      ghost var was, shifted := availability, Shifted(availability, bitmap, seq(|pieces|, _ => false));
      for i := 0 to |bitmap|
        invariant |availability| == |bitmap| && peerPieces == old(peerPieces)
        invariant forall j :: 0 <= j < |bitmap| ==> availability[j] == if j < i then shifted[j] else was[j]
      {
        if bitmap[i] {
          availability := availability[i := availability[i] - 1];
        }
      }
      peerPieces := peerPieces - {addr};
    }

    method UnregisterPeer(addr: Addr)
      requires Valid()
      modifies this
      ensures Valid() && Model() == Unregister(old(Model()), addr)
    {
      ghost var was := Model();
      if addr in peerPieces {
        DropPeer(addr);
      }
      var _ := TakeBackRequests(PeerLeft(addr));
      UnregisterKeepsInv(was, addr, total, pieceLen);
    }

    method GetStalledRequests(now: int, timeout: int) returns (stalled: seq<Block>)
      requires Valid()
      modifies this
      ensures Valid() && Model() == Reclaim(old(Model()), Stale(now, timeout))
      ensures ListsStale(old(pieces), now, timeout, stalled)
    {
      assert forall i :: 0 <= i < |pieces| ==>
          PieceOk(pieces[i], i, PieceLength(total, pieceLen, i), peerPieces.Keys);
      TakenListed(pieces, now, timeout, total, pieceLen);
      StepKeepsInv(Model(), ReclaimStalled(now, timeout), Reclaim(Model(), Stale(now, timeout)), total, pieceLen);
      stalled := TakeBackRequests(Stale(now, timeout));
    }

    method MarkFailed(index: int, begin: int)
      requires Valid()
      modifies this
      ensures Valid() && Model() == Fail(old(Model()), index, begin)
    {
      FailKeepsInv(Model(), index, begin, total, pieceLen);
      PutBack(index, begin);
    }

    method PutBack(index: int, begin: int)
      modifies this`pieces, this`pendingCount
      ensures Model() == Fail(old(Model()), index, begin)
    {
      if index < 0 || index >= |pieces| {
        return;
      }
      var b := FindFirst(pieces[index].blocks, begin);
      if b < |pieces[index].blocks| {
        var block := pieces[index].blocks[b];
        if block.state == Pending {
          pieces := SetBlock(pieces, index, b, TakeBack(block));
          pendingCount := pendingCount - 1;
        }
      }
    }

    /** The scan for the block at an offset. */
    static method FindFirst(bs: seq<Block>, begin: int) returns (k: nat)
      ensures k == FindBlock(bs, begin)
    {
      k := 0;
      while k < |bs| && bs[k].begin != begin
        invariant k <= |bs|
        invariant FindBlock(bs, begin) == k + FindBlock(bs[k..], begin)
      {
        assert bs[k..][1..] == bs[k + 1..];
        k := k + 1;
      }
    }

    /** The scan that decides whether a piece is complete. */
    static method AllCompletedScan(bs: seq<Block>) returns (done: bool)
      ensures done <==> AllCompleted(bs)
    {
      for b := 0 to |bs|
        invariant forall c :: 0 <= c < b ==> bs[c].state == Completed
      {
        if bs[b].state != Completed {
          return false;
        }
      }
      return true;
    }

    method MarkCompleted(index: int, begin: int, addr: Addr) returns (piece: int, pieceDone: bool, torrentDone: bool)
      requires Valid()
      modifies this
      ensures Valid()
      ensures Completion(Model(), piece, pieceDone, torrentDone) == Complete(old(Model()), index, begin, addr)
    {
      CompleteKeepsInv(Model(), index, begin, addr, total, pieceLen);
      piece, pieceDone, torrentDone := Record(index, begin, addr);
    }

    method Record(index: int, begin: int, addr: Addr) returns (piece: int, pieceDone: bool, torrentDone: bool)
      modifies this
      ensures Completion(Model(), piece, pieceDone, torrentDone) == Complete(old(Model()), index, begin, addr)
    {
      if index < 0 || index >= |pieces| || pieces[index].done {
        return -1, false, false;
      }
      var b := FindFirst(pieces[index].blocks, begin);
      if b == |pieces[index].blocks| || pieces[index].blocks[b].state == Completed {
        return -1, false, false;
      }
      pieceDone := Finish(index, b, addr);
      return index, pieceDone, completed == totalBlocks;
    }

    /** Marks block b of piece i, and the piece if that was its last block. */
    method Finish(i: nat, b: nat, addr: Addr) returns (pieceDone: bool)
      requires i < |pieces| && b < |pieces[i].blocks| && !pieces[i].done
      modifies this`pieces, this`pendingCount, this`completed
      ensures var block := old(pieces)[i].blocks[b];
              var ps := SetBlock(old(pieces), i, b, block.(state := Completed, peer := addr));
              && pieceDone == AllCompleted(ps[i].blocks)
              && pieces == ps[i := ps[i].(done := pieceDone)]
              && pendingCount == old(pendingCount) - (if block.state == Pending then 1 else 0)
              && completed == old(completed) + 1
    {
      var block := pieces[i].blocks[b];
      if block.state == Pending {
        pendingCount := pendingCount - 1;
      }
      pieces := SetBlock(pieces, i, b, block.(state := Completed, peer := addr));
      completed := completed + 1;
      pieceDone := AllCompletedScan(pieces[i].blocks);
      if pieceDone {
        pieces := pieces[i := pieces[i].(done := true)];
      } else {
        assert pieces[i := pieces[i].(done := false)] == pieces;
      }
    }

    /** The peer's incomplete pieces, and whether one of them has an unrequested block. */
    method Gather(addr: Addr) returns (cs: seq<Candidate>, hasUnrequested: bool)
      requires Sized(Model()) && addr in peerPieces
      ensures Lists(Model(), addr, cs)
      ensures hasUnrequested <==> exists i :: Offers(Model(), addr, Unrequested, i)
    {
      cs, hasUnrequested := [], false;
      for i := 0 to |pieces|
        invariant forall c :: c in cs ==> IsCandidate(Model(), addr, c.index) && c.avail == availability[c.index]
        invariant forall j: nat :: j < i && IsCandidate(Model(), addr, j) ==> Candidate(j, availability[j]) in cs
        invariant hasUnrequested <==> exists j: nat :: j < i && Offers(Model(), addr, Unrequested, j)
      {
        if !pieces[i].done && peerPieces[addr][i] {
          cs := cs + [Candidate(i, availability[i])];
          var b := FirstScan(pieces[i].blocks, Unrequested);
          if b < |pieces[i].blocks| {
            assert Offers(Model(), addr, Unrequested, i);
            hasUnrequested := true;
          }
        }
      }
    }

    /** Position of the first listed piece that has a block in state want, or the length of the list. */
    method FirstWith(cs: seq<Candidate>, want: BlockState) returns (k: nat)
      requires forall c :: c in cs ==> c.index < |pieces|
      ensures k <= |cs|
      ensures forall m :: 0 <= m < k ==> cs[m].index < |pieces| && !HasBlock(pieces[cs[m].index], want)
      ensures k < |cs| ==> cs[k].index < |pieces| && HasBlock(pieces[cs[k].index], want)
    {
      k := 0;
      while k < |cs|
        invariant k <= |cs|
        invariant forall m :: 0 <= m < k ==> cs[m].index < |pieces| && !HasBlock(pieces[cs[m].index], want)
      {
        assert cs[k] in cs;
        var b := FirstScan(pieces[cs[k].index].blocks, want);
        if b < |pieces[cs[k].index].blocks| {
          return;
        }
        k := k + 1;
      }
    }

    /** The scan for the first block in a state. */
    static method FirstScan(bs: seq<Block>, st: BlockState) returns (k: nat)
      ensures k == FirstIn(bs, st)
    {
      k := 0;
      while k < |bs| && bs[k].state != st
        invariant k <= |bs|
        invariant FirstIn(bs, st) == k + FirstIn(bs[k..], st)
      {
        assert bs[k..][1..] == bs[k + 1..];
        k := k + 1;
      }
    }

    method NextBlock(addr: Addr, now: int) returns (r: Option<Block>)
      requires Valid()
      modifies this
      ensures Valid() && PickerModel.NextBlock(old(Model()), addr, now, Model(), r)
    {
      ghost var was := Model();
      assert forall i :: 0 <= i < |pieces| ==> PieceOk(pieces[i], i, PieceLength(total, pieceLen, i), peerPieces.Keys);
      r := Choose(addr, now);
      NextKeepsInv(was, addr, now, r, Model(), total, pieceLen);
    }

    method Choose(addr: Addr, now: int) returns (r: Option<Block>)
      requires Sized(Model())
      requires forall i, b :: 0 <= i < |pieces| && 0 <= b < |pieces[i].blocks| ==> pieces[i].blocks[b].index == i
      modifies this
      ensures PickerModel.NextBlock(old(Model()), addr, now, Model(), r)
    {
      ghost var was := Model();
      if addr !in peerPieces {
        NothingToAsk(was, addr, now);
        return None;
      }
      var cs, hasUnrequested := Gather(addr);
      if |cs| == 0 {
        NothingToAsk(was, addr, now);
        return None;
      }
      assert cs[0] in cs && IsCandidate(was, addr, cs[0].index);
      var sorted := SortByAvail(cs);
      SameElements(cs, sorted);
      cs := sorted;
      if !hasUnrequested && completed < totalBlocks {
        endGame := true;
      }
      assert endGame == EndGameAfter(was, addr);
      var want := if endGame then Pending else Unrequested;
      var k := FirstWith(cs, want);
      FirstIsRarest(was, addr, cs, want, k);
      r := None;
      if k < |cs| {
        var block := GrantFrom(cs[k].index, addr, now);
        r := Some(block);
      }
    }

    /** Hands out the first suitable block of piece i. */
    method GrantFrom(i: nat, addr: Addr, now: int) returns (block: Block)
      requires i < |pieces| && HasBlock(pieces[i], if endGame then Pending else Unrequested)
      modifies this`pieces, this`pendingCount
      ensures Model() == Granted(old(Model()), addr, now, i)
      ensures block == pieces[i].blocks[FirstIn(old(pieces)[i].blocks, if endGame then Pending else Unrequested)]
    {
      var b := FirstScan(pieces[i].blocks, if endGame then Pending else Unrequested);
      block := pieces[i].blocks[b];
      if endGame {
        block := block.(sent := now);
      } else {
        block := block.(state := Pending, peer := addr, sent := now);
        pendingCount := pendingCount + 1;
      }
      pieces := SetBlock(pieces, i, b, block);
    }

    method IsCompleted() returns (r: bool)
      requires Valid()
      ensures r <==> forall i :: 0 <= i < |pieces| ==> pieces[i].done
    {
      CompletedIsAllDone(Model(), total, pieceLen);
      r := completed == totalBlocks;
    }
  }
}
