/** The requests that reclaiming takes back, as a list. */
module StalledList {
  import opened Layout
  import opened PickerModel
  import opened PickerAccounting

  /** The blocks that reclaiming takes back, as they were, in order. */
  function TakenBlocks(bs: seq<Block>, why: Reason): seq<Block> {
    if bs == [] then [] else
      var last := bs[|bs| - 1];
      TakenBlocks(bs[..|bs| - 1], why) + if Reclaimable(last, why) then [last] else []
  }

  function Taken(ps: seq<Piece>, why: Reason): seq<Block> {
    if ps == [] then [] else
      var last := ps[|ps| - 1];
      Taken(ps[..|ps| - 1], why) + More(last, why)
  }

  // ----- Which blocks those are, and their order

  /** Block b of piece i is Pending and its request is older than the timeout. */
  predicate IsStale(ps: seq<Piece>, now: int, timeout: int, i: nat, b: nat) {
    i < |ps| && b < |ps[i].blocks| && ps[i].blocks[b].state == Pending && now - ps[i].blocks[b].sent > timeout
  }

  /** The list holds the expired requests as they were and nothing else, by piece and then by offset. */
  ghost predicate ListsStale(ps: seq<Piece>, now: int, timeout: int, list: seq<Block>) {
    && (forall k :: 0 <= k < |list| ==> WasStale(ps, now, timeout, list[k]))
    && (forall i: nat, b: nat :: IsStale(ps, now, timeout, i, b) ==> ps[i].blocks[b] in list)
    && InOrder(list)
  }

  ghost predicate WasStale(ps: seq<Piece>, now: int, timeout: int, block: Block) {
    exists i: nat, b: nat :: IsStale(ps, now, timeout, i, b) && ps[i].blocks[b] == block
  }

  predicate InOrder(list: seq<Block>) {
    forall j, k :: 0 <= j < k < |list| ==> Earlier(list[j], list[k])
  }

  predicate Earlier(x: Block, y: Block) {
    x.index < y.index || (x.index == y.index && x.begin < y.begin)
  }

  /** Within one piece. */
  ghost predicate ListsBlocks(bs: seq<Block>, why: Reason, i: nat, list: seq<Block>) {
    && (forall k :: 0 <= k < |list| ==>
          list[k].index == i && list[k].begin < |bs| * BLOCK_SIZE && list[k] in bs && Reclaimable(list[k], why))
    && (forall b :: 0 <= b < |bs| && Reclaimable(bs[b], why) ==> bs[b] in list)
    && InOrder(list)
  }

  lemma {:induction false} TakenBlocksListed(bs: seq<Block>, why: Reason, i: nat, len: nat)
    requires |bs| <= BlockCount(len) && forall b :: 0 <= b < |bs| ==> BlockShaped(bs[b], i, len, b)
    ensures ListsBlocks(bs, why, i, TakenBlocks(bs, why))
  {
    if bs != [] {
      var n := |bs| - 1;
      TakenBlocksListed(bs[..n], why, i, len);
      assert BlockShaped(bs[n], i, len, n);
      BlockListed(bs[..n], bs[n], why, i, TakenBlocks(bs[..n], why));
      assert bs[..n] + [bs[n]] == bs;
    }
  }

  lemma BlockListed(bs: seq<Block>, block: Block, why: Reason, i: nat, list: seq<Block>)
    requires ListsBlocks(bs, why, i, list) && block.index == i && block.begin == |bs| * BLOCK_SIZE
    ensures ListsBlocks(bs + [block], why, i, list + if Reclaimable(block, why) then [block] else [])
  {
    var all := list + if Reclaimable(block, why) then [block] else [];
    forall b | 0 <= b < |bs + [block]| && Reclaimable((bs + [block])[b], why)
      ensures (bs + [block])[b] in all
    {
      assert b < |bs| ==> bs[b] in list;
    }
  }

  /** The pieces have their shapes, whoever is registered. */
  ghost predicate Shaped(ps: seq<Piece>, total: nat, pieceLen: nat)
    requires pieceLen > 0
  {
    && |ps| <= PieceCount(total, pieceLen)
    && forall i :: 0 <= i < |ps| ==>
         && |ps[i].blocks| == BlockCount(PieceLength(total, pieceLen, i))
         && (forall b :: 0 <= b < |ps[i].blocks| ==>
               BlockShaped(ps[i].blocks[b], i, PieceLength(total, pieceLen, i), b))
         && (ps[i].done ==> AllCompleted(ps[i].blocks))
  }

  lemma ShapedInit(ps: seq<Piece>, total: nat, pieceLen: nat)
    requires pieceLen > 0 && Shaped(ps, total, pieceLen) && ps != []
    ensures Shaped(ps[..|ps| - 1], total, pieceLen)
  {
    assert forall i :: 0 <= i < |ps| - 1 ==> ps[..|ps| - 1][i] == ps[i];
  }

  /** What is taken back from a piece. */
  function More(p: Piece, why: Reason): seq<Block> {
    if p.done then [] else TakenBlocks(p.blocks, why)
  }

  ghost predicate ListsPiece(p: Piece, now: int, timeout: int, i: nat, more: seq<Block>) {
    if p.done then AllCompleted(p.blocks) && more == [] else ListsBlocks(p.blocks, Stale(now, timeout), i, more)
  }

  lemma MoreListed(ps: seq<Piece>, now: int, timeout: int, total: nat, pieceLen: nat)
    requires pieceLen > 0 && Shaped(ps, total, pieceLen) && ps != []
    ensures ListsPiece(ps[|ps| - 1], now, timeout, |ps| - 1, More(ps[|ps| - 1], Stale(now, timeout)))
  {
    var n := |ps| - 1;
    TakenBlocksListed(ps[n].blocks, Stale(now, timeout), n, PieceLength(total, pieceLen, n));
  }

  ghost predicate ListsUpTo(ps: seq<Piece>, now: int, timeout: int, list: seq<Block>) {
    ListsStale(ps, now, timeout, list) && forall k :: 0 <= k < |list| ==> list[k].index < |ps|
  }

  lemma {:induction false} TakenListed(ps: seq<Piece>, now: int, timeout: int, total: nat, pieceLen: nat)
    requires pieceLen > 0 && Shaped(ps, total, pieceLen)
    ensures ListsUpTo(ps, now, timeout, Taken(ps, Stale(now, timeout)))
  {
    if ps != [] {
      var init, p := ps[..|ps| - 1], ps[|ps| - 1];
      ShapedInit(ps, total, pieceLen);
      TakenListed(init, now, timeout, total, pieceLen);
      MoreListed(ps, now, timeout, total, pieceLen);
      PieceListed(init, p, now, timeout, Taken(init, Stale(now, timeout)), More(p, Stale(now, timeout)));
      assert init + [p] == ps;
    }
  }

  lemma PieceListed(ps: seq<Piece>, p: Piece, now: int, timeout: int, list: seq<Block>, more: seq<Block>)
    requires ListsUpTo(ps, now, timeout, list) && ListsPiece(p, now, timeout, |ps|, more)
    ensures ListsUpTo(ps + [p], now, timeout, list + more)
  {
    var all := list + more;
    forall k | 0 <= k < |all|
      ensures WasStale(ps + [p], now, timeout, all[k])
    {
      if k < |list| {
        assert WasStale(ps, now, timeout, list[k]);
        StillStale(ps, p, now, timeout, list[k]);
      } else {
        NewStale(ps, p, now, timeout, more, k - |list|);
      }
    }
    forall i: nat, b: nat | IsStale(ps + [p], now, timeout, i, b)
      ensures (ps + [p])[i].blocks[b] in all
    {
      NoneLeftOut(ps, p, now, timeout, list, more, i, b);
    }
    JoinedInOrder(list, more, |ps|);
  }

  lemma NewStale(ps: seq<Piece>, p: Piece, now: int, timeout: int, more: seq<Block>, k: nat)
    requires ListsPiece(p, now, timeout, |ps|, more) && k < |more|
    ensures WasStale(ps + [p], now, timeout, more[k]) && more[k].index == |ps|
  {
    assert more[k] in p.blocks && Reclaimable(more[k], Stale(now, timeout));
    var b: nat :| b < |p.blocks| && p.blocks[b] == more[k];
    assert IsStale(ps + [p], now, timeout, |ps|, b);
  }

  lemma JoinedInOrder(list: seq<Block>, more: seq<Block>, n: nat)
    requires InOrder(list) && InOrder(more)
    requires (forall k :: 0 <= k < |list| ==> list[k].index < n) && forall k :: 0 <= k < |more| ==> more[k].index == n
    ensures InOrder(list + more) && forall k :: 0 <= k < |list + more| ==> (list + more)[k].index <= n
  {
  }

  lemma StillStale(ps: seq<Piece>, p: Piece, now: int, timeout: int, block: Block)
    requires WasStale(ps, now, timeout, block)
    ensures WasStale(ps + [p], now, timeout, block)
  {
    var i: nat, b: nat :| IsStale(ps, now, timeout, i, b) && ps[i].blocks[b] == block;
    assert IsStale(ps + [p], now, timeout, i, b) && (ps + [p])[i].blocks[b] == block;
  }

  lemma NoneLeftOut(ps: seq<Piece>, p: Piece, now: int, timeout: int, list: seq<Block>, more: seq<Block>, i: nat,
                    b: nat)
    requires ListsStale(ps, now, timeout, list) && IsStale(ps + [p], now, timeout, i, b)
    requires ListsPiece(p, now, timeout, |ps|, more)
    ensures (ps + [p])[i].blocks[b] in list + more
  {
    if i < |ps| {
      assert IsStale(ps, now, timeout, i, b);
      assert ps[i].blocks[b] in list;
    } else {
      assert p.blocks[b] in more;
    }
  }
}
