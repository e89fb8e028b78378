/** Getting every missing block requested from one connection, five at a time, without entering end-game. */
module Requesting {
  import opened Bytes
  import opened Layout
  import opened PickerModel
  import opened PickerAccounting
  import opened PickerRuns
  import opened ManagerModel
  import opened BlockHistory
  import opened EventLoop
  import opened Starving
  import opened Quiet

  /** The peer is registered and has every piece. */
  ghost predicate HasAll(s: Picker, c: Addr) {
    Sized(s) && c in s.peerPieces && forall i :: 0 <= i < |s.pieces| ==> s.peerPieces[c][i]
  }

  /** What c does not track can be requested from it. */
  ghost predicate Askable(m: Manager, c: Addr)
    requires c in m.clients
  {
    forall i: nat, b: nat :: Exists(m.picker, i, b) && At(m.picker, i, b).state == Pending ==>
      (i, b * BLOCK_SIZE) in m.clients[c].outstanding
  }

  /** c has everything and enough within reach to fill its pipeline. */
  ghost predicate Willing(m: Manager, c: Addr) {
    && c in m.clients && HasAll(m.picker, c) && !m.picker.endGame && Askable(m, c)
    && |Reach(m, c)| >= PIPELINE
  }

  // ----- Old requests expire

  /** A time that is late enough for every request in ps to be stale. */
  lemma {:induction false} LateFor(bs: seq<Block>, clock: int) returns (now: int)
    ensures clock <= now && forall b :: 0 <= b < |bs| ==> now - bs[b].sent > TIMEOUT
  {
    if bs == [] {
      now := clock;
    } else {
      var n := |bs| - 1;
      now := LateFor(bs[..n], clock);
      assert forall b :: 0 <= b < n ==> bs[..n][b] == bs[b];
      if now <= bs[n].sent + TIMEOUT {
        now := bs[n].sent + TIMEOUT + 1;
      }
    }
  }

  lemma {:induction false} LateEnough(ps: seq<Piece>, clock: int) returns (now: int)
    ensures clock <= now
    ensures forall i, b :: 0 <= i < |ps| && 0 <= b < |ps[i].blocks| ==> now - ps[i].blocks[b].sent > TIMEOUT
  {
    if ps == [] {
      now := clock;
    } else {
      var n := |ps| - 1;
      var before := LateEnough(ps[..n], clock);
      now := LateFor(ps[n].blocks, before);
      forall i, b | 0 <= i < |ps| && 0 <= b < |ps[i].blocks|
        ensures now - ps[i].blocks[b].sent > TIMEOUT
      {
        assert i < n ==> ps[..n][i] == ps[i];
      }
    }
  }

  /** Then nothing is Pending, and the same blocks are missing. */
  lemma ReclaimsAll(s: Picker, total: nat, pieceLen: nat, now: int, i: nat, b: nat)
    requires pieceLen > 0 && Inv(s, total, pieceLen) && Exists(s, i, b) && now - At(s, i, b).sent > TIMEOUT
    ensures var s' := Reclaim(s, Stale(now, TIMEOUT));
            && Exists(s', i, b) && SamePlace(At(s, i, b), At(s', i, b)) && At(s', i, b).state != Pending
            && (At(s', i, b).state == Completed <==> At(s, i, b).state == Completed)
  {
    BlockTransition(s, ReclaimStalled(now, TIMEOUT), Reclaim(s, Stale(now, TIMEOUT)), total, pieceLen, i, b);
  }

  lemma SameMissing(s: Picker, s': Picker)
    requires |s'.pieces| == |s.pieces|
    requires forall i :: 0 <= i < |s.pieces| ==> |s'.pieces[i].blocks| == |s.pieces[i].blocks|
    requires forall i: nat, b: nat :: Exists(s, i, b) ==>
             (At(s', i, b).state == Completed <==> At(s, i, b).state == Completed)
    ensures MissingKeys(s') == MissingKeys(s)
  {
    forall k | k in MissingKeys(s)
      ensures k in MissingKeys(s')
    {
      var b := KeyBlock(s, k);
      MissingKey(s', k.0, b);
    }
    forall k | k in MissingKeys(s')
      ensures k in MissingKeys(s)
    {
      var b := KeyBlock(s', k);
      assert Exists(s, k.0, b);
      MissingKey(s, k.0, b);
    }
  }

  lemma ReclaimMissing(s: Picker, total: nat, pieceLen: nat, now: int)
    requires pieceLen > 0 && Inv(s, total, pieceLen)
    requires forall i: nat, b: nat :: Exists(s, i, b) ==> now - At(s, i, b).sent > TIMEOUT
    ensures var s' := Reclaim(s, Stale(now, TIMEOUT));
            && MissingKeys(s') == MissingKeys(s)
            && forall i: nat, b: nat :: Exists(s', i, b) ==> At(s', i, b).state != Pending
  {
    var s' := Reclaim(s, Stale(now, TIMEOUT));
    forall i: nat, b: nat | Exists(s, i, b)
      ensures At(s, i, b).state == Completed <==> At(s', i, b).state == Completed
      ensures At(s', i, b).state != Pending
    {
      ReclaimsAll(s, total, pieceLen, now, i, b);
    }
    SameMissing(s, s');
  }

  ghost function Ticked(m: Manager, now: int): Manager {
    m.(picker := Reclaim(m.picker, Stale(now, TIMEOUT)))
  }

  /** Time passes, and every request is taken back. */
  lemma Expires(t: Torrent, pieces: seq<Bytes>, l0: Loop, l: Loop) returns (l': Loop)
    requires Reaches(t, pieces, l0, l) && Calm(t, l)
    ensures Reaches(t, pieces, l0, l') && Calm(t, l')
    ensures l'.m == l.m.(picker := l'.m.picker) && l'.m.picker.endGame == l.m.picker.endGame
    ensures l'.m.picker.peerPieces == l.m.picker.peerPieces && MissingKeys(l'.m.picker) == MissingKeys(l.m.picker)
    ensures forall i: nat, b: nat :: Exists(l'.m.picker, i, b) ==> At(l'.m.picker, i, b).state != Pending
  {
    ReachedInv(t, l.m);
    var now := LateEnough(l.m.picker.pieces, l.clock);
    var e, m' := Tick(now), Ticked(l.m, now);
    ReclaimMissing(l.m.picker, t.length, t.pieceLength, now);
    TickStep(t, pieces, l0, l, now);
    l' := After(l, e, m').(phase := Waiting);
  }

  lemma TickStep(t: Torrent, pieces: seq<Bytes>, l0: Loop, l: Loop, now: int)
    requires Reaches(t, pieces, l0, l) && Calm(t, l) && l.clock <= now
    ensures var l' := After(l, Tick(now), Ticked(l.m, now)).(phase := Waiting);
            Reaches(t, pieces, l0, l') && Calm(t, l')
  {
    Sizes(t, l.m);
    var e, m' := Tick(now), Ticked(l.m, now);
    assert ManagerStep(t, l.m, e, m');
    ReachedNext(t, l.m, e, m');
    Handles(t, pieces, l0, l, e, m');
  }

  // ----- The peer announces every piece

  /** Every bit set. */
  function Ones(n: nat): Bytes {
    seq(n, _ => 255)
  }

  lemma OnesSet(n: nat, i: nat)
    requires i < n
    ensures BitSet(Ones(n), i)
  {
    assert Ones(n)[i / 8] == 255;
  }

  ghost function Told(m: Manager, c: Addr, bits: Bytes): Manager
    requires Sized(m.picker)
  {
    m.(picker := Bitfield(m.picker, c, bits))
  }

  lemma ToldStep(t: Torrent, pieces: seq<Bytes>, l0: Loop, l: Loop, c: Addr, bits: Bytes)
    requires Reaches(t, pieces, l0, l) && Calm(t, l) && Sized(l.m.picker)
    ensures var l' := l.(m := Told(l.m, c, bits)); Reaches(t, pieces, l0, l') && Calm(t, l')
  {
    Sizes(t, l.m);
    var e, m' := BitfieldMessage(c, bits), Told(l.m, c, bits);
    assert ManagerStep(t, l.m, e, m');
    ReachedNext(t, l.m, e, m');
    Handles(t, pieces, l0, l, e, m');
    assert After(l, e, m').(phase := Waiting) == l.(m := m');
  }

  lemma ToldAll(s: Picker, c: Addr)
    requires Sized(s) && c in s.peerPieces
    ensures HasAll(Bitfield(s, c, Ones(|s.pieces|)), c)
  {
    forall i | 0 <= i < |s.pieces|
      ensures BitSet(Ones(|s.pieces|), i)
    {
      OnesSet(|s.pieces|, i);
    }
  }

  // ----- One grant

  lemma RarestExists(s: Picker, a: Addr, st: BlockState, i: nat) returns (j: nat)
    requires Sized(s) && Offers(s, a, st, i)
    ensures Rarest(s, a, st, j)
  {
    j := i;
    for k := 0 to |s.pieces|
      invariant Offers(s, a, st, j)
      invariant forall l: nat :: l < k && Offers(s, a, st, l) ==> s.availability[j] <= s.availability[l]
    {
      if Offers(s, a, st, k) && s.availability[k] < s.availability[j] {
        j := k;
      }
    }
  }

  /** Outside end-game a peer that has a piece with an Unrequested block is granted one. */
  lemma GrantPossible(s: Picker, a: Addr, now: int, i: nat, total: nat, pieceLen: nat)
    returns (s': Picker, block: Block)
    requires pieceLen > 0 && Inv(s, total, pieceLen) && !s.endGame && Offers(s, a, Unrequested, i)
    ensures NextBlock(s, a, now, s', Some(block)) && !s'.endGame
    ensures s'.peerPieces == s.peerPieces && |s'.pieces| == |s.pieces|
    ensures Tally(s'.pieces, {Unrequested}) == Tally(s.pieces, {Unrequested}) - 1
  {
    var j := RarestExists(s, a, Unrequested, i);
    assert !EndGameAfter(s, a);
    assert s.(endGame := false) == s;
    var b := FirstIn(s.pieces[j].blocks, Unrequested);
    s' := Granted(s, a, now, j);
    block := s'.pieces[j].blocks[b];
    assert PieceOk(s.pieces[j], j, PieceLength(total, pieceLen, j), s.peerPieces.Keys);
    assert BlockShaped(s.pieces[j].blocks[b], j, PieceLength(total, pieceLen, j), b);
    TallySet(s.pieces, j, b, s'.pieces[j].blocks[b], s.pieces[j].done, {Unrequested});
  }

  /** The manager after a grant. */
  ghost function Given(m: Manager, c: Addr, now: int, s': Picker, block: Block): Manager
    requires c in m.clients
  {
    Queued(m, c, block, now).(picker := s')
  }

  lemma GrantIsStep(t: Torrent, m: Manager, c: Addr, now: int, s': Picker, block: Block)
    requires t.Valid() && |m.picker.pieces| == t.Count() && Sized(m.picker)
    requires c in m.clients && |m.clients[c].outstanding| < PIPELINE && NextBlock(m.picker, c, now, s', Some(block))
    ensures ManagerStep(t, m, GrantTurn(c, now, Some(block)), Given(m, c, now, s', block))
  {
  }

  /** The request loop is with c, which is the last of the fill; everybody else chokes. */
  ghost predicate Asks(t: Torrent, l: Loop, c: Addr) {
    && t.Valid() && Reached(t, l.m) && l.phase == Asking(c, {}) && l.inbox == multiset{}
    && forall a :: a in l.m.clients && a != c ==> l.m.clients[a].choked
  }

  lemma GrantStep(t: Torrent, pieces: seq<Bytes>, l0: Loop, l: Loop, c: Addr, s': Picker, block: Block)
    requires Reaches(t, pieces, l0, l) && Asks(t, l, c) && c in l.m.clients && |l.m.clients[c].outstanding| < PIPELINE
    requires Sized(l.m.picker) && NextBlock(l.m.picker, c, l.clock, s', Some(block))
    ensures var l' := l.(m := Given(l.m, c, l.clock, s', block)); Reaches(t, pieces, l0, l') && Asks(t, l', c)
  {
    Sizes(t, l.m);
    var e, m' := GrantTurn(c, l.clock, Some(block)), Given(l.m, c, l.clock, s', block);
    GrantIsStep(t, l.m, c, l.clock, s', block);
    ReachedNext(t, l.m, e, m');
    Happens(t, pieces, l0, l, e, m');
    assert After(l, e, m') == l.(m := m');
  }
}
