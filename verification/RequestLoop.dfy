/** The loop that fills one peer's pipeline: when it ends, and when it can go on for ever. */
module RequestLoop {
  import opened Arith
  import opened Bytes
  import opened Layout
  import opened PickerModel
  import opened PickerAccounting
  import opened PickerChoice
  import opened ManagerModel

  function KeyOf(block: Block): Key {
    (block.index, block.begin)
  }

  /** One turn: fewer than five tracked, NextBlock returns a block, its key is tracked. */
  ghost predicate Turn(s: Picker, tracked: set<Key>, addr: Addr, now: int, s': Picker, tracked': set<Key>)
    requires Sized(s)
  {
    |tracked| < PIPELINE &&
    exists block :: NextBlock(s, addr, now, s', Some(block)) && tracked' == tracked + {KeyOf(block)}
  }

  ghost predicate TurnAt(ss: seq<Picker>, ts: seq<set<Key>>, addr: Addr, nows: seq<int>, k: nat)
    requires k < |nows| && k + 1 < |ss| && k + 1 < |ts|
  {
    Sized(ss[k]) && Turn(ss[k], ts[k], addr, nows[k], ss[k + 1], ts[k + 1])
  }

  /** |nows| turns in a row, at times nows, with nothing else in between. */
  ghost predicate Turns(s: Picker, tracked: set<Key>, addr: Addr, ss: seq<Picker>, ts: seq<set<Key>>, nows: seq<int>) {
    && |ss| == |ts| == |nows| + 1
    && ss[0] == s && ts[0] == tracked
    && forall k :: 0 <= k < |nows| ==> TurnAt(ss, ts, addr, nows, k)
  }

  // ----- Before end-game

  /** Each turn that stays out of end-game uses up one Unrequested block. */
  lemma TurnUses(s: Picker, tracked: set<Key>, addr: Addr, now: int, s': Picker, tracked': set<Key>)
    requires Sized(s) && Turn(s, tracked, addr, now, s', tracked') && !s'.endGame
    ensures Tally(s'.pieces, {Unrequested}) == Tally(s.pieces, {Unrequested}) - 1
  {
    var block :| NextBlock(s, addr, now, s', Some(block)) && tracked' == tracked + {KeyOf(block)};
    var i := block.index;
    var b := FirstIn(s.pieces[i].blocks, Unrequested);
    TallySet(s.pieces, i, b, s'.pieces[i].blocks[b], s.pieces[i].done, {Unrequested});
  }

  /** Outside end-game the loop ends: there are never more turns than there were Unrequested blocks. */
  lemma {:induction false} NormalLoopEnds(
    s: Picker, tracked: set<Key>, addr: Addr, ss: seq<Picker>, ts: seq<set<Key>>, nows: seq<int>, k: nat)
    requires Turns(s, tracked, addr, ss, ts, nows) && k <= |nows|
    requires forall j :: 0 <= j <= k ==> !ss[j].endGame
    ensures k + Tally(ss[k].pieces, {Unrequested}) == Tally(s.pieces, {Unrequested})
  {
    if k > 0 {
      NormalLoopEnds(s, tracked, addr, ss, ts, nows, k - 1);
      assert TurnAt(ss, ts, addr, nows, k - 1);
      TurnUses(ss[k - 1], ts[k - 1], addr, nows[k - 1], ss[k], ts[k]);
    }
  }

  // ----- In end-game

  /** The key of the block that the end-game loop is given from a rarest piece: the first Pending one. */
  function EligibleKey(s: Picker, i: nat): Key
    requires i < |s.pieces| && HasBlock(s.pieces[i], Pending)
  {
    (i, s.pieces[i].blocks[FirstIn(s.pieces[i].blocks, Pending)].begin)
  }

  /** Some eligible block leaves room in the pipeline after it is tracked. */
  ghost predicate RoomLeft(s: Picker, tracked: set<Key>, addr: Addr)
    requires Sized(s)
  {
    exists i :: Rarest(s, addr, Pending, i) && |tracked + {EligibleKey(s, i)}| < PIPELINE
  }

  /** The state after one end-game grant from piece i. */
  lemma RepeatGrant(s: Picker, addr: Addr, now: int, i: nat, total: nat, pieceLen: nat)
    requires pieceLen > 0 && Inv(s, total, pieceLen) && s.endGame && Rarest(s, addr, Pending, i)
    ensures var s1 := Granted(s, addr, now, i);
            && Inv(s1, total, pieceLen) && s1.endGame && Rarest(s1, addr, Pending, i) &&
              EligibleKey(s1, i) == EligibleKey(s, i)
            && Granted(s1, addr, now, i) == s1
            && exists block :: NextBlock(s, addr, now, s1, Some(block)) && KeyOf(block) == EligibleKey(s, i)
  {
    var b := FirstIn(s.pieces[i].blocks, Pending);
    var s1 := Granted(s, addr, now, i);
    var block := s1.pieces[i].blocks[b];
    assert PieceOk(s.pieces[i], i, PieceLength(total, pieceLen, i), s.peerPieces.Keys);
    assert BlockShaped(s.pieces[i].blocks[b], i, PieceLength(total, pieceLen, i), b);
    assert NextBlock(s, addr, now, s1, Some(block));
    NextKeepsInv(s, addr, now, Some(block), s1, total, pieceLen);
    StillEligible(s, addr, now, i);
  }

  lemma StillEligible(s: Picker, addr: Addr, now: int, i: nat)
    requires Sized(s) && s.endGame && Rarest(s, addr, Pending, i)
    ensures var s1 := Granted(s, addr, now, i);
            && Sized(s1) && Rarest(s1, addr, Pending, i) && EligibleKey(s1, i) == EligibleKey(s, i)
            && Granted(s1, addr, now, i) == s1
  {
    var s1 := Granted(s, addr, now, i);
    var b := FirstIn(s.pieces[i].blocks, Pending);
    FirstInUpdate(s.pieces[i].blocks, b, s1.pieces[i].blocks[b], Pending);
    forall j: nat
      ensures Offers(s1, addr, Pending, j) <==> Offers(s, addr, Pending, j)
    {
    }
    assert s1.pieces[i].blocks[b := s1.pieces[i].blocks[b].(sent := now)] == s1.pieces[i].blocks;
    assert s1.pieces[i := s1.pieces[i]] == s1.pieces;
  }

  ghost predicate CanTurn(s: Picker, tracked: set<Key>, addr: Addr, n: nat) {
    exists ss, ts, nows :: Turns(s, tracked, addr, ss, ts, nows) && |nows| == n
  }

  /** With room left there is a turn that tracks nothing more when it is repeated. */
  lemma RepeatableTurn(s: Picker, tracked: set<Key>, addr: Addr, total: nat, pieceLen: nat)
    returns (s1: Picker, t1: set<Key>)
    requires pieceLen > 0 && Inv(s, total, pieceLen) && s.endGame
    requires |tracked| < PIPELINE && RoomLeft(s, tracked, addr)
    ensures Turn(s, tracked, addr, 0, s1, t1) && Sized(s1) && Turn(s1, t1, addr, 0, s1, t1)
  {
    var i :| Rarest(s, addr, Pending, i) && |tracked + {EligibleKey(s, i)}| < PIPELINE;
    s1, t1 := Granted(s, addr, 0, i), tracked + {EligibleKey(s, i)};
    RepeatGrant(s, addr, 0, i, total, pieceLen);
    RepeatGrant(s1, addr, 0, i, total, pieceLen);
    assert t1 + {EligibleKey(s, i)} == t1;
  }

  /** With room left, the same block can be granted and tracked under the same key any number of times. */
  lemma LoopGoesOn(s: Picker, tracked: set<Key>, addr: Addr, n: nat, total: nat, pieceLen: nat)
    requires pieceLen > 0 && Inv(s, total, pieceLen) && s.endGame
    requires |tracked| < PIPELINE && RoomLeft(s, tracked, addr)
    ensures CanTurn(s, tracked, addr, n)
  {
    var s1, t1 := RepeatableTurn(s, tracked, addr, total, pieceLen);
    Repeat(s, tracked, addr, s1, t1, n);
  }

  lemma Repeat(s: Picker, tracked: set<Key>, addr: Addr, s1: Picker, t1: set<Key>, n: nat)
    requires Sized(s) && Turn(s, tracked, addr, 0, s1, t1) && Sized(s1) && Turn(s1, t1, addr, 0, s1, t1)
    ensures CanTurn(s, tracked, addr, n)
  {
    var ss := [s] + seq(n, _ => s1);
    var ts := [tracked] + seq(n, _ => t1);
    var nows := seq(n, _ => 0);
    forall k | 0 <= k < n
      ensures TurnAt(ss, ts, addr, nows, k)
    {
      assert ss[k + 1] == s1 && ts[k + 1] == t1;
    }
    assert Turns(s, tracked, addr, ss, ts, nows);
  }

  lemma TurnFills(s: Picker, tracked: set<Key>, addr: Addr, now: int, s': Picker, tracked': set<Key>)
    requires Sized(s) && s.endGame && !RoomLeft(s, tracked, addr) && Turn(s, tracked, addr, now, s', tracked')
    ensures |tracked'| >= PIPELINE
  {
    var block :| NextBlock(s, addr, now, s', Some(block)) && tracked' == tracked + {KeyOf(block)};
    assert Rarest(s, addr, Pending, block.index) && KeyOf(block) == EligibleKey(s, block.index);
  }

  /** Without room left there is at most one turn. */
  lemma LoopStops(s: Picker, tracked: set<Key>, addr: Addr, ss: seq<Picker>, ts: seq<set<Key>>, nows: seq<int>)
    requires Sized(s) && s.endGame && !RoomLeft(s, tracked, addr)
    requires Turns(s, tracked, addr, ss, ts, nows)
    ensures |nows| <= 1
  {
    if |nows| > 1 {
      assert TurnAt(ss, ts, addr, nows, 0) && TurnAt(ss, ts, addr, nows, 1);
      TurnFills(s, tracked, addr, nows[0], ss[1], ts[1]);
    }
  }

  /**
   * In end-game, with nothing else happening, the loop can run for ever if and only if the pipeline has
   * room beyond some block it may be given; otherwise it ends after at most one turn.
   */
  lemma EndGameLoopDivergesIff(s: Picker, tracked: set<Key>, addr: Addr, total: nat, pieceLen: nat)
    requires pieceLen > 0 && Inv(s, total, pieceLen) && s.endGame
    ensures (forall n: nat :: CanTurn(s, tracked, addr, n)) <==> |tracked| < PIPELINE && RoomLeft(s, tracked, addr)
    ensures !(|tracked| < PIPELINE && RoomLeft(s, tracked, addr)) ==> !CanTurn(s, tracked, addr, 2)
  {
    if |tracked| < PIPELINE && RoomLeft(s, tracked, addr) {
      forall n: nat
        ensures CanTurn(s, tracked, addr, n)
      {
        LoopGoesOn(s, tracked, addr, n, total, pieceLen);
      }
    } else {
      forall ss, ts, nows | Turns(s, tracked, addr, ss, ts, nows)
        ensures |nows| <= 1
      {
        if |nows| > 0 {
          assert TurnAt(ss, ts, addr, nows, 0);
          LoopStops(s, tracked, addr, ss, ts, nows);
        }
      }
      assert !CanTurn(s, tracked, addr, 2);
    }
  }

  // ----- However ties are broken

  /** Whatever turns have been taken, there is room and another block to be given. */
  ghost predicate NeverEnds(s: Picker, tracked: set<Key>, addr: Addr) {
    forall ss, ts, nows :: Turns(s, tracked, addr, ss, ts, nows) ==> GoesOn(ss[|nows|], ts[|nows|], addr)
  }

  ghost predicate GoesOn(s: Picker, tracked: set<Key>, addr: Addr) {
    |tracked| < PIPELINE && Sized(s) && exists i: nat :: Rarest(s, addr, Pending, i)
  }

  /** Every block the loop may be given. */
  ghost function GivenKeys(s: Picker, addr: Addr): set<Key>
    requires Sized(s)
  {
    set i: nat | i < |s.pieces| && Rarest(s, addr, Pending, i) :: EligibleKey(s, i)
  }

  /** A grant in end-game changes nothing about what may be given. */
  lemma GrantKeepsOffer(s: Picker, addr: Addr, now: int, j: nat, i: nat)
    requires Sized(s) && s.endGame && Rarest(s, addr, Pending, j)
    ensures var s1 := Granted(s, addr, now, j);
            && Sized(s1) && (Offers(s1, addr, Pending, i) <==> Offers(s, addr, Pending, i))
            && s1.availability == s.availability && s1.endGame && |s1.pieces| == |s.pieces|
            && (Offers(s, addr, Pending, i) ==> EligibleKey(s1, i) == EligibleKey(s, i))
  {
    var b := FirstIn(s.pieces[j].blocks, Pending);
    var s1 := Granted(s, addr, now, j);
    FirstInUpdate(s.pieces[j].blocks, b, s1.pieces[j].blocks[b], Pending);
  }

  lemma GrantKeepsGiven(s: Picker, addr: Addr, now: int, j: nat)
    requires Sized(s) && s.endGame && Rarest(s, addr, Pending, j)
    ensures var s1 := Granted(s, addr, now, j); Sized(s1) && s1.endGame && GivenKeys(s1, addr) == GivenKeys(s, addr)
    ensures forall i: nat :: Rarest(Granted(s, addr, now, j), addr, Pending, i) <==> Rarest(s, addr, Pending, i)
  {
    var s1 := Granted(s, addr, now, j);
    forall i: nat
      ensures Sized(s1) && (Offers(s1, addr, Pending, i) <==> Offers(s, addr, Pending, i))
      ensures Offers(s, addr, Pending, i) ==> EligibleKey(s1, i) == EligibleKey(s, i)
      ensures s1.availability == s.availability && s1.endGame
    {
      GrantKeepsOffer(s, addr, now, j, i);
    }
    GivenByRarest(s, s1, addr);
  }

  lemma GivenByRarest(s: Picker, s1: Picker, addr: Addr)
    requires Sized(s) && Sized(s1) && |s1.pieces| == |s.pieces|
    requires forall i: nat :: Rarest(s1, addr, Pending, i) <==> Rarest(s, addr, Pending, i)
    requires forall i: nat :: Offers(s, addr, Pending, i) && Offers(s1, addr, Pending, i) ==>
             EligibleKey(s1, i) == EligibleKey(s, i)
    ensures GivenKeys(s1, addr) == GivenKeys(s, addr)
  {
    forall k | k in GivenKeys(s, addr)
      ensures k in GivenKeys(s1, addr)
    {
      var i: nat :| i < |s.pieces| && Rarest(s, addr, Pending, i) && EligibleKey(s, i) == k;
      assert Rarest(s1, addr, Pending, i);
    }
    forall k | k in GivenKeys(s1, addr)
      ensures k in GivenKeys(s, addr)
    {
      var i: nat :| i < |s1.pieces| && Rarest(s1, addr, Pending, i) && EligibleKey(s1, i) == k;
      assert Rarest(s, addr, Pending, i);
    }
  }

  /** What a turn tracks is one of those. */
  lemma TurnStays(s: Picker, tracked: set<Key>, addr: Addr, now: int, s': Picker, tracked': set<Key>)
    requires Sized(s) && s.endGame && Turn(s, tracked, addr, now, s', tracked')
    ensures Sized(s') && s'.endGame && GivenKeys(s', addr) == GivenKeys(s, addr)
    ensures tracked <= tracked' <= tracked + GivenKeys(s, addr)
    ensures exists i: nat :: Rarest(s', addr, Pending, i)
  {
    var block :| NextBlock(s, addr, now, s', Some(block)) && tracked' == tracked + {KeyOf(block)};
    GrantKeepsGiven(s, addr, now, block.index);
    assert Rarest(s', addr, Pending, block.index);
    assert KeyOf(block) == EligibleKey(s, block.index);
  }

  lemma {:induction false} TurnsStay(
    s: Picker, tracked: set<Key>, addr: Addr, ss: seq<Picker>, ts: seq<set<Key>>, nows: seq<int>, k: nat)
    requires Sized(s) && s.endGame && (exists i: nat :: Rarest(s, addr, Pending, i))
    requires Turns(s, tracked, addr, ss, ts, nows) && k <= |nows|
    ensures Sized(ss[k]) && ss[k].endGame && GivenKeys(ss[k], addr) == GivenKeys(s, addr)
    ensures ts[k] <= tracked + GivenKeys(s, addr) && exists i: nat :: Rarest(ss[k], addr, Pending, i)
  {
    if k > 0 {
      TurnsStay(s, tracked, addr, ss, ts, nows, k - 1);
      assert TurnAt(ss, ts, addr, nows, k - 1);
      TurnStays(ss[k - 1], ts[k - 1], addr, nows[k - 1], ss[k], ts[k]);
    }
  }

  /** Some choice of turns fills the pipeline, if there is enough to be given. */
  lemma {:induction false} TurnsFill(s: Picker, tracked: set<Key>, addr: Addr, total: nat, pieceLen: nat)
    returns (ss: seq<Picker>, ts: seq<set<Key>>, nows: seq<int>)
    requires pieceLen > 0 && Inv(s, total, pieceLen) && s.endGame && |tracked + GivenKeys(s, addr)| >= PIPELINE
    ensures Turns(s, tracked, addr, ss, ts, nows) && |ts[|nows|]| >= PIPELINE
    decreases |GivenKeys(s, addr) - tracked|
  {
    if |tracked| >= PIPELINE {
      ss, ts, nows := [s], [tracked], [];
    } else {
      var i, s1 := NewTurn(s, tracked, addr, total, pieceLen);
      var t1 := tracked + {EligibleKey(s, i)};
      assert tracked + GivenKeys(s, addr) == t1 + GivenKeys(s1, addr);
      SubsetCount(GivenKeys(s1, addr) - t1, GivenKeys(s, addr) - tracked);
      assert EligibleKey(s, i) in GivenKeys(s, addr) - tracked;
      ss, ts, nows := TurnsFill(s1, t1, addr, total, pieceLen);
      ss, ts, nows := TurnsCons(s, tracked, addr, s1, t1, ss, ts, nows);
    }
  }

  lemma NewKey(x: set<Key>, y: set<Key>) returns (k: Key)
    requires |x| < |x + y|
    ensures k in y && k !in x
  {
    assert |x + y| == |x| + |y - x|;
    k :| k in y - x;
  }

  lemma NewTurn(s: Picker, tracked: set<Key>, addr: Addr, total: nat, pieceLen: nat) returns (i: nat, s1: Picker)
    requires pieceLen > 0 && Inv(s, total, pieceLen) && s.endGame &&
             |tracked| < PIPELINE <= |tracked + GivenKeys(s, addr)|
    ensures Rarest(s, addr, Pending, i) && EligibleKey(s, i) !in tracked
    ensures Turn(s, tracked, addr, 0, s1, tracked + {EligibleKey(s, i)})
    ensures Inv(s1, total, pieceLen) && s1.endGame && GivenKeys(s1, addr) == GivenKeys(s, addr)
  {
    var k := NewKey(tracked, GivenKeys(s, addr));
    i :| i < |s.pieces| && Rarest(s, addr, Pending, i) && EligibleKey(s, i) == k;
    s1 := Granted(s, addr, 0, i);
    RepeatGrant(s, addr, 0, i, total, pieceLen);
    GrantKeepsGiven(s, addr, 0, i);
  }

  lemma TurnsCons(s: Picker, tracked: set<Key>, addr: Addr, s1: Picker, t1: set<Key>,
                  ss1: seq<Picker>, ts1: seq<set<Key>>, nows1: seq<int>)
    returns (ss: seq<Picker>, ts: seq<set<Key>>, nows: seq<int>)
    requires Sized(s) && Turn(s, tracked, addr, 0, s1, t1) && Turns(s1, t1, addr, ss1, ts1, nows1)
    ensures Turns(s, tracked, addr, ss, ts, nows) && ts[|nows|] == ts1[|nows1|]
  {
    ss, ts, nows := [s] + ss1, [tracked] + ts1, [0] + nows1;
    forall k | 0 <= k < |nows|
      ensures TurnAt(ss, ts, addr, nows, k)
    {
      if k > 0 {
        assert TurnAt(ss1, ts1, addr, nows1, k - 1);
        TurnShifts(s, tracked, addr, ss1, ts1, nows1, k - 1);
      }
    }
  }

  lemma TurnShifts(s: Picker, tracked: set<Key>, addr: Addr, ss: seq<Picker>, ts: seq<set<Key>>, nows: seq<int>, k: nat)
    requires k < |nows| && k + 1 < |ss| && k + 1 < |ts| && TurnAt(ss, ts, addr, nows, k)
    ensures TurnAt([s] + ss, [tracked] + ts, addr, [0] + nows, k + 1)
  {
    var ss', ts', nows' := [s] + ss, [tracked] + ts, [0] + nows;
    assert ss'[k + 1] == ss[k] && ss'[k + 2] == ss[k + 1];
    assert ts'[k + 1] == ts[k] && ts'[k + 2] == ts[k + 1] && nows'[k + 1] == nows[k];
  }

  /**
   * In end-game the loop cannot end, however ties are broken, if and only if there is something to be given
   * and everything tracked or to be given together does not fill the pipeline.
   */
  lemma EndGameNeverEndsIff(s: Picker, tracked: set<Key>, addr: Addr, total: nat, pieceLen: nat)
    requires pieceLen > 0 && Inv(s, total, pieceLen) && s.endGame
    ensures NeverEnds(s, tracked, addr) <==>
              (exists i: nat :: Rarest(s, addr, Pending, i)) && |tracked + GivenKeys(s, addr)| < PIPELINE
  {
    if |tracked + GivenKeys(s, addr)| >= PIPELINE {
      var ss, ts, nows := TurnsFill(s, tracked, addr, total, pieceLen);
      assert !NeverEnds(s, tracked, addr);
    } else if exists i: nat :: Rarest(s, addr, Pending, i) {
      forall ss, ts, nows | Turns(s, tracked, addr, ss, ts, nows)
        ensures GoesOn(ss[|nows|], ts[|nows|], addr)
      {
        TurnsStay(s, tracked, addr, ss, ts, nows, |nows|);
        SubsetCount(ts[|nows|], tracked + GivenKeys(s, addr));
      }
    } else {
      assert Turns(s, tracked, addr, [s], [tracked], []);
    }
  }

  // ----- A run that gets there

  /** One peer, one block, asked for twice: the second call finds nothing Unrequested. */
  function ShortOps(addr: Addr, now: int, block: Block): seq<Op> {
    [RegisterPeer(addr), PeerHave(addr, 0), Next(addr, now, Some(block)), Next(addr, now, Some(block))]
  }

  function ShortRun(addr: Addr, now: int): seq<Picker> {
    var s0 := Fresh(1, 1);
    var s1 := Register(s0, addr);
    var s2 := s1.(peerPieces := s1.peerPieces[addr := [true]], availability := [1]);
    var block := FreshBlock(0, 1, 0).(state := Pending, peer := addr, sent := now);
    var s3 := s2.(pieces := [Piece(0, 1, [block], false)], pendingCount := 1);
    [s0, s1, s2, s3, s3.(endGame := true)]
  }

  lemma Single<T>(x: T, y: T)
    ensures [x][0 := y] == [y]
  {
  }

  lemma ShortStart(addr: Addr)
    ensures var s := Fresh(1, 1);
            && s.pieces == [Piece(0, 1, [FreshBlock(0, 1, 0)], false)]
            && s.availability == [0] && s.completed < s.totalBlocks
            && Register(s, addr).peerPieces[addr] == [false]
  {
    var s := Fresh(1, 1);
    assert FreshPiece(1, 1, 0).blocks == [FreshBlock(0, 1, 0)];
    assert s.pieces == [FreshPiece(1, 1, 0)];
    TallyFull(s.pieces, {});
    TallyNone(s.pieces, {});
  }

  lemma ShortHave(addr: Addr, now: int)
    ensures var ss := ShortRun(addr, now); Have(ss[1], addr, 0) == ss[2]
  {
    ShortStart(addr);
    Single(false, true);
    Single(0, 1);
  }

  lemma ShortGrant(addr: Addr, now: int, block: Block)
    requires block == FreshBlock(0, 1, 0).(state := Pending, peer := addr, sent := now)
    ensures var ss := ShortRun(addr, now); Sized(ss[2]) && NextBlock(ss[2], addr, now, ss[3], Some(block))
  {
    ShortStart(addr);
    var ss := ShortRun(addr, now);
    var unasked := FreshBlock(0, 1, 0);
    Single(unasked, block);
    Single(ss[2].pieces[0], ss[3].pieces[0]);
    FirstInUnique([unasked], Unrequested, 0);
    assert Offers(ss[2], addr, Unrequested, 0);
    assert Granted(ss[2], addr, now, 0) == ss[3];
  }

  lemma ShortSwitch(addr: Addr, now: int, block: Block)
    requires block == FreshBlock(0, 1, 0).(state := Pending, peer := addr, sent := now)
    ensures var ss := ShortRun(addr, now); Sized(ss[3]) && NextBlock(ss[3], addr, now, ss[4], Some(block))
  {
    ShortStart(addr);
    var ss := ShortRun(addr, now);
    Single(block, block);
    Single(ss[3].pieces[0], ss[3].pieces[0]);
    FirstInUnique([block], Pending, 0);
    FirstInUnique([block], Unrequested, 1);
    assert IsCandidate(ss[3], addr, 0) && Offers(ss[3], addr, Pending, 0);
    assert Granted(ss[4], addr, now, 0) == ss[4];
  }

  lemma ShortRunIsRun(addr: Addr, now: int)
    ensures var block := FreshBlock(0, 1, 0).(state := Pending, peer := addr, sent := now);
            Run(1, 1, ShortRun(addr, now), ShortOps(addr, now, block))
  {
    var ss := ShortRun(addr, now);
    var block := FreshBlock(0, 1, 0).(state := Pending, peer := addr, sent := now);
    var ops := ShortOps(addr, now, block);
    forall k | 0 <= k < 4
      ensures StepAt(ss, ops, k)
    {
      if k == 0 {
        ShortStart(addr);
        assert Step(ss[0], ops[0], ss[1]);
      } else if k == 1 {
        ShortHave(addr, now);
        ShortStart(addr);
        assert Step(ss[1], ops[1], ss[2]);
      } else if k == 2 {
        ShortGrant(addr, now, block);
      } else {
        ShortSwitch(addr, now, block);
      }
    }
  }

  /** In that run's last state, with the block tracked, the loop for the peer need never end. */
  lemma DivergesExample(addr: Addr, now: int)
    ensures forall n: nat :: CanTurn(ShortRun(addr, now)[4], {(0, 0)}, addr, n)
  {
    var s := ShortRun(addr, now)[4];
    var block := FreshBlock(0, 1, 0).(state := Pending, peer := addr, sent := now);
    ShortRunIsRun(addr, now);
    RunKeepsInv(1, 1, ShortRun(addr, now), ShortOps(addr, now, block), 4);
    assert s.pieces[0].blocks == [block] && FirstIn([block], Pending) == 0;
    assert Rarest(s, addr, Pending, 0) && EligibleKey(s, 0) == (0, 0);
    assert {(0, 0)} + {EligibleKey(s, 0)} == {(0, 0)};
    EndGameLoopDivergesIff(s, {(0, 0)}, addr, 1, 1);
  }
}
