/** Which block NextBlock picks, and what the availability table it sorts by means. */
module PickerChoice {
  import opened Bytes
  import opened Layout
  import opened PickerModel
  import opened PickerAccounting

  // ----- NextBlock

  lemma FirstInFinds(bs: seq<Block>, st: BlockState, b: nat)
    requires b < |bs| && bs[b].state == st
    ensures FirstIn(bs, st) < |bs|
  {
  }

  lemma FirstInUnique(bs: seq<Block>, st: BlockState, k: nat)
    requires k <= |bs|
    requires forall j :: 0 <= j < k ==> bs[j].state != st
    requires k < |bs| ==> bs[k].state == st
    ensures FirstIn(bs, st) == k
  {
  }

  lemma FirstInUpdate(bs: seq<Block>, b: nat, block: Block, st: BlockState)
    requires b < |bs| && block.state == bs[b].state
    ensures FirstIn(bs[b := block], st) == FirstIn(bs, st)
  {
    FirstInUnique(bs[b := block], st, FirstIn(bs, st));
  }

  /** An incomplete piece has a block to request or a request to wait for. */
  lemma IncompleteHasBlock(s: Picker, total: nat, pieceLen: nat, i: nat)
    requires pieceLen > 0 && Inv(s, total, pieceLen) && i < |s.pieces| && !s.pieces[i].done
    ensures HasBlock(s.pieces[i], Unrequested) || HasBlock(s.pieces[i], Pending)
    ensures s.completed < s.totalBlocks
  {
    assert PieceOk(s.pieces[i], i, PieceLength(total, pieceLen, i), s.peerPieces.Keys);
    var b :| 0 <= b < |s.pieces[i].blocks| && s.pieces[i].blocks[b].state != Completed;
    FirstInFinds(s.pieces[i].blocks, s.pieces[i].blocks[b].state, b);
    TallyFull(s.pieces, {Completed});
  }

  /**
   * In normal mode the call fails only when the peer has no incomplete piece; the call that switches to
   * end-game always returns a Pending block; and in end-game it fails exactly when none of the peer's
   * incomplete pieces has a request outstanding.
   */
  lemma NextBlockAnswers(s: Picker, a: Addr, now: int, s': Picker, r: Option<Block>, total: nat, pieceLen: nat)
    requires pieceLen > 0 && Inv(s, total, pieceLen) && NextBlock(s, a, now, s', r)
    ensures !s'.endGame ==> (r.Some? <==> exists i :: IsCandidate(s, a, i))
    ensures s'.endGame && !s.endGame ==> r.Some?
    ensures s'.endGame ==> (r.Some? <==> exists i :: Offers(s, a, Pending, i))
    ensures r.Some? ==> r.value.state == Pending
  {
    forall i | IsCandidate(s, a, i)
      ensures Offers(s, a, Unrequested, i) || Offers(s, a, Pending, i)
      ensures s.completed < s.totalBlocks
    {
      IncompleteHasBlock(s, total, pieceLen, i);
    }
  }

  /** There is nothing for the peer: it has no incomplete piece or, in end-game, none with a request outstanding. */
  ghost predicate NothingFor(s: Picker, a: Addr) {
    Sized(s) && forall i: nat :: IsCandidate(s, a, i) ==> s.endGame && !HasBlock(s.pieces[i], Pending)
  }

  /** That is what a call without a result says. */
  lemma NothingGranted(s: Picker, a: Addr, now: int, s': Picker, total: nat, pieceLen: nat)
    requires pieceLen > 0 && Inv(s, total, pieceLen) && NextBlock(s, a, now, s', None)
    ensures NothingFor(s', a)
  {
    NextBlockAnswers(s, a, now, s', None, total, pieceLen);
    forall i: nat | IsCandidate(s', a, i)
      ensures s'.endGame && !HasBlock(s'.pieces[i], Pending)
    {
      assert IsCandidate(s, a, i);
      assert s'.endGame ==> !Offers(s, a, Pending, i);
    }
  }

  /** It stays so whoever is granted what. */
  lemma NothingStays(s: Picker, a: Addr, b: Addr, now: int, s': Picker, r: Option<Block>)
    requires Sized(s) && NothingFor(s, a) && NextBlock(s, b, now, s', r)
    ensures NothingFor(s', a)
  {
    if r.Some? {
      GrantPending(s.(endGame := s'.endGame), b, now, r.value.index);
    }
    forall i: nat | IsCandidate(s', a, i)
      ensures s'.endGame && !HasBlock(s'.pieces[i], Pending)
    {
      assert IsCandidate(s, a, i);
    }
  }

  /** In end-game a grant leaves the states of all blocks alone. */
  lemma GrantPending(s: Picker, b: Addr, now: int, j: nat)
    requires Sized(s) && j < |s.pieces| && HasBlock(s.pieces[j], if s.endGame then Pending else Unrequested)
    ensures var s' := Granted(s, b, now, j);
            && Sized(s') && s'.peerPieces == s.peerPieces && |s'.pieces| == |s.pieces|
            && forall i :: 0 <= i < |s.pieces| ==>
                 s'.pieces[i].done == s.pieces[i].done &&
                   (s.endGame ==> FirstIn(s'.pieces[i].blocks, Pending) == FirstIn(s.pieces[i].blocks, Pending))
  {
    if s.endGame {
      var c := FirstIn(s.pieces[j].blocks, Pending);
      FirstInUpdate(s.pieces[j].blocks, c, s.pieces[j].blocks[c].(sent := now), Pending);
    }
  }

  /** Block c of piece j is what the peer should be asked for: wanted, in a rarest piece, first there. */
  ghost predicate Best(s: Picker, a: Addr, want: BlockState, j: nat, c: nat)
    requires Sized(s)
  {
    && IsCandidate(s, a, j) && c < |s.pieces[j].blocks| && s.pieces[j].blocks[c].state == want
    && (forall b :: 0 <= b < c ==> s.pieces[j].blocks[b].state != want)
    && forall i: nat, b: nat ::
         IsCandidate(s, a, i) && b < |s.pieces[i].blocks| && s.pieces[i].blocks[b].state == want ==>
           s.availability[j] <= s.availability[i]
  }

  /**
   * What is returned is such a block, stamped with the time of the call; it is stored as returned, it is as it
   * was but for the stamp and, outside end-game, its state and owner, and nothing else is touched.
   */
  lemma NextBlockExact(s: Picker, a: Addr, now: int, s': Picker, r: Option<Block>, total: nat, pieceLen: nat)
    requires pieceLen > 0 && Inv(s, total, pieceLen) && NextBlock(s, a, now, s', r) && r.Some?
    ensures r.value.begin % BLOCK_SIZE == 0
    ensures Best(s, a, if s'.endGame then Pending else Unrequested, r.value.index, r.value.begin / BLOCK_SIZE)
    ensures OthersUntouched(s, s', r.value.index, r.value.begin / BLOCK_SIZE)
    ensures GrantsBlock(s, a, now, s', r.value, r.value.begin / BLOCK_SIZE)
  {
    var want := if s'.endGame then Pending else Unrequested;
    GrantedFirst(s, a, now, s', r.value, total, pieceLen);
    RarestIsBest(s, a, want, r.value.index);
    GrantTouchesOne(s.(endGame := s'.endGame), a, now, r.value.index);
  }

  /**
   * Block c of its piece is the granted one, and the rest of the picker but the pending counter and end-game is as
   * it was.
   */
  ghost predicate GrantsBlock(s: Picker, a: Addr, now: int, s': Picker, block: Block, c: nat) {
    && block.index < |s.pieces| && c < |s.pieces[block.index].blocks|
    && var p := s.pieces[block.index];
    && s'.pieces == s.pieces[block.index := p.(blocks := p.blocks[c := block])]
    && s' == s.(pieces := s'.pieces, pendingCount := s'.pendingCount, endGame := s'.endGame)
    && block == (if s'.endGame then p.blocks[c].(sent := now)
      else p.blocks[c].(state := Pending, peer := a, sent := now))
  }

  /** Every block but block c of piece j is as it was. */
  ghost predicate OthersUntouched(s: Picker, s': Picker, j: nat, c: nat) {
    forall i, b :: 0 <= i < |s.pieces| && 0 <= b < |s.pieces[i].blocks| && (i, b) != (j, c) ==>
                     i < |s'.pieces| && b < |s'.pieces[i].blocks| && s'.pieces[i].blocks[b] == s.pieces[i].blocks[b]
  }

  lemma GrantedFirst(s: Picker, a: Addr, now: int, s': Picker, block: Block, total: nat, pieceLen: nat)
    requires pieceLen > 0 && Inv(s, total, pieceLen) && NextBlock(s, a, now, s', Some(block))
    ensures block.index < |s.pieces| && block.begin % BLOCK_SIZE == 0
    ensures FirstIn(s.pieces[block.index].blocks, if s'.endGame then Pending else Unrequested) ==
            block.begin / BLOCK_SIZE
  {
    var j := block.index;
    var c := FirstIn(s.pieces[j].blocks, if s'.endGame then Pending else Unrequested);
    var len := PieceLength(total, pieceLen, j);
    assert PieceOk(s.pieces[j], j, len, s.peerPieces.Keys);
    assert BlockShaped(s.pieces[j].blocks[c], j, len, c);
    assert block.begin == c * BLOCK_SIZE;
    Multiple(c);
  }

  lemma Multiple(c: nat)
    ensures c * BLOCK_SIZE % BLOCK_SIZE == 0 && c * BLOCK_SIZE / BLOCK_SIZE == c
  {
  }

  lemma GrantTouchesOne(s: Picker, a: Addr, now: int, j: nat)
    requires j < |s.pieces| && HasBlock(s.pieces[j], if s.endGame then Pending else Unrequested)
    ensures var s' := Granted(s, a, now, j);
            var c := FirstIn(s.pieces[j].blocks, if s.endGame then Pending else Unrequested);
            s'.pieces[j].blocks[c].begin == s.pieces[j].blocks[c].begin && OthersUntouched(s, s', j, c)
  {
  }

  lemma RarestIsBest(s: Picker, a: Addr, want: BlockState, j: nat)
    requires Sized(s) && Rarest(s, a, want, j)
    ensures Best(s, a, want, j, FirstIn(s.pieces[j].blocks, want))
  {
    forall i: nat, b: nat | IsCandidate(s, a, i) && b < |s.pieces[i].blocks| && s.pieces[i].blocks[b].state == want
      ensures s.availability[j] <= s.availability[i]
    {
      FirstInFinds(s.pieces[i].blocks, want, b);
      assert Offers(s, a, want, i);
    }
  }

  // ----- Availability

  /** The registered peers whose bitmap has piece i. */
  ghost function Holders(s: Picker, i: nat): set<Addr>
    requires Sized(s) && i < |s.pieces|
  {
    set a | a in s.peerPieces && s.peerPieces[a][i]
  }

  /** op registers a live address whose bitmap had piece i: the bitmap is lost, the count is not lowered. */
  predicate Forgets(s: Picker, op: Op, i: nat)
    requires Sized(s) && i < |s.pieces|
  {
    op.RegisterPeer? && op.addr in s.peerPieces && s.peerPieces[op.addr][i]
  }

  /** Every step keeps the distance between the table and the true count, except such a registration. */
  lemma StepAvailability(s: Picker, op: Op, s': Picker, i: nat)
    requires Sized(s) && Step(s, op, s') && i < |s.pieces|
    ensures Sized(s') && |s'.pieces| == |s.pieces|
    ensures s'.availability[i] - |Holders(s', i)| ==
            s.availability[i] - |Holders(s, i)| + if Forgets(s, op, i) then 1 else 0
  {
    match op
    case RegisterPeer(a) =>
      LosesHolder(s, Register(s, a), a, i);
    case UnregisterPeer(a) =>
      UnregisterHolder(s, a, i);
    case PeerBitfield(a, bits) =>
      GainsHolder(s, Bitfield(s, a, bits), a, i);
    case PeerHave(a, index) =>
      GainsHolder(s, Have(s, a, index), a, i);
    case Next(a, now, r) => SameHolders(s, s', i);
    case MarkCompleted(index, begin, a) => SameHolders(s, s', i);
    case MarkFailed(index, begin) => SameHolders(s, s', i);
    case ReclaimStalled(now, timeout) => SameHolders(s, s', i);
  }

  lemma SameHolders(s: Picker, s': Picker, i: nat)
    requires Sized(s) && i < |s.pieces| == |s'.pieces|
    requires s'.peerPieces == s.peerPieces && s'.availability == s.availability
    ensures Sized(s') && Holders(s', i) == Holders(s, i)
  {
  }

  lemma UnregisterHolder(s: Picker, a: Addr, i: nat)
    requires Sized(s) && i < |s.pieces|
    ensures var s' := Unregister(s, a);
            |s'.pieces| == |s.pieces| &&
            s'.availability[i] - |Holders(s', i)| == s.availability[i] - |Holders(s, i)|
  {
    LosesHolder(s, Unregister(s, a), a, i);
  }

  lemma LosesHolder(s: Picker, s': Picker, a: Addr, i: nat)
    requires Sized(s) && Sized(s') && i < |s.pieces| == |s'.pieces|
    requires forall x :: x in s'.peerPieces && x != a ==> x in s.peerPieces
    requires forall x :: x in s.peerPieces && x != a ==> x in s'.peerPieces && s'.peerPieces[x] == s.peerPieces[x]
    requires a in s'.peerPieces ==> !s'.peerPieces[a][i]
    ensures |Holders(s', i)| == |Holders(s, i)| - if a in s.peerPieces && s.peerPieces[a][i] then 1 else 0
  {
    assert Holders(s', i) == Holders(s, i) - {a};
  }

  lemma GainsHolder(s: Picker, s': Picker, a: Addr, i: nat)
    requires Sized(s) && Sized(s') && i < |s.pieces| == |s'.pieces|
    requires s'.peerPieces.Keys == s.peerPieces.Keys
    requires forall x :: x in s.peerPieces && x != a ==> s'.peerPieces[x] == s.peerPieces[x]
    requires a in s.peerPieces && s.peerPieces[a][i] ==> s'.peerPieces[a][i]
    requires var gained := a in s.peerPieces && s'.peerPieces[a][i] && !s.peerPieces[a][i];
             s'.availability[i] == s.availability[i] + if gained then 1 else 0
    ensures s'.availability[i] - |Holders(s', i)| == s.availability[i] - |Holders(s, i)|
  {
    if a in s.peerPieces && s'.peerPieces[a][i] && !s.peerPieces[a][i] {
      assert Holders(s', i) == Holders(s, i) + {a};
    } else {
      assert Holders(s', i) == Holders(s, i);
    }
  }

  /** How often piece i was forgotten in the first k steps. */
  ghost function Forgotten(ss: seq<Picker>, ops: seq<Op>, k: nat, i: nat): nat
    requires k <= |ops| < |ss|
    requires forall m :: 0 <= m < |ss| ==> Sized(ss[m]) && i < |ss[m].pieces|
  {
    if k == 0 then 0 else Forgotten(ss, ops, k - 1, i) + if Forgets(ss[k - 1], ops[k - 1], i) then 1 else 0
  }

  /** In every run the table is the number of holders plus the times the piece was forgotten. */
  lemma {:induction false} RunAvailability(total: nat, pieceLen: nat, ss: seq<Picker>, ops: seq<Op>, k: nat, i: nat)
    requires pieceLen > 0 && Run(total, pieceLen, ss, ops) && k < |ss| && i < PieceCount(total, pieceLen)
    ensures forall m :: 0 <= m < |ss| ==> Sized(ss[m]) && i < |ss[m].pieces|
    ensures Sized(ss[k]) && ss[k].availability[i] == |Holders(ss[k], i)| + Forgotten(ss, ops, k, i)
    decreases k
  {
    forall m | 0 <= m < |ss|
      ensures Sized(ss[m]) && i < |ss[m].pieces|
    {
      RunKeepsInv(total, pieceLen, ss, ops, m);
    }
    if k == 0 {
      assert Holders(ss[0], i) == {};
    } else {
      RunAvailability(total, pieceLen, ss, ops, k - 1, i);
      assert StepAt(ss, ops, k - 1);
      StepAvailability(ss[k - 1], ops[k - 1], ss[k], i);
    }
  }

  lemma {:induction false} ForgottenNone(ss: seq<Picker>, ops: seq<Op>, k: nat, i: nat)
    requires k <= |ops| < |ss|
    requires forall m :: 0 <= m < |ss| ==> Sized(ss[m]) && i < |ss[m].pieces|
    ensures Forgotten(ss, ops, k, i) == 0 <==> forall m :: 0 <= m < k ==> !Forgets(ss[m], ops[m], i)
  {
    if k > 0 {
      ForgottenNone(ss, ops, k - 1, i);
    }
  }

  /**
   * The table never undercounts, and it is exact if and only if no live address with the piece was registered
   * again.
   */
  lemma AvailabilityExact(total: nat, pieceLen: nat, ss: seq<Picker>, ops: seq<Op>, k: nat, i: nat)
    requires pieceLen > 0 && Run(total, pieceLen, ss, ops) && k < |ss| && i < PieceCount(total, pieceLen)
    ensures forall m :: 0 <= m < |ss| ==> Sized(ss[m]) && i < |ss[m].pieces|
    ensures Sized(ss[k]) && ss[k].availability[i] >= |Holders(ss[k], i)|
    ensures ss[k].availability[i] == |Holders(ss[k], i)| <==> forall m :: 0 <= m < k ==> !Forgets(ss[m], ops[m], i)
  {
    RunAvailability(total, pieceLen, ss, ops, k, i);
    ForgottenNone(ss, ops, k, i);
  }

  /** Registering a peer twice makes the table wrong: it then counts a holder that nobody is. */
  lemma AvailabilityWrong(total: nat, pieceLen: nat, a: Addr)
    requires pieceLen > 0 && PieceCount(total, pieceLen) > 0
    ensures var s0 := Fresh(total, pieceLen);
            var s1 := Register(s0, a);
            Sized(s1) &&
            var s2 := Have(s1, a, 0);
            var s3 := Register(s2, a);
            && Run(total, pieceLen, [s0, s1, s2, s3], [RegisterPeer(a), PeerHave(a, 0), RegisterPeer(a)])
            && Sized(s3) && s3.availability[0] == 1 && Holders(s3, 0) == {}
  {
    var s0 := Fresh(total, pieceLen);
    var s1 := Register(s0, a);
    var s2 := Have(s1, a, 0);
    var s3 := Register(s2, a);
    var ss, ops := [s0, s1, s2, s3], [RegisterPeer(a), PeerHave(a, 0), RegisterPeer(a)];
    assert StepAt(ss, ops, 0) && StepAt(ss, ops, 1) && StepAt(ss, ops, 2);
  }

  // ----- A bitfield is a set of Have messages

  function Haves(s: Picker, a: Addr, order: seq<int>): (r: Picker)
    requires Sized(s)
    ensures Sized(r)
  {
    if order == [] then s else Have(Haves(s, a, order[..|order| - 1]), a, order[|order| - 1])
  }

  function Marked(bitmap: seq<bool>, order: seq<int>): (r: seq<bool>)
    ensures |r| == |bitmap|
  {
    seq(|bitmap|, i requires 0 <= i < |bitmap| => bitmap[i] || i in order)
  }

  lemma {:induction false} HavesMark(s: Picker, a: Addr, order: seq<int>)
    requires Sized(s)
    ensures Haves(s, a, order) ==
            if a !in s.peerPieces then s
            else s.(peerPieces := s.peerPieces[a := Marked(s.peerPieces[a], order)],
                    availability := Shifted(s.availability, s.peerPieces[a], Marked(s.peerPieces[a], order)))
  {
    if a in s.peerPieces {
      var bitmap := s.peerPieces[a];
      if order == [] {
        assert Marked(bitmap, order) == bitmap;
        assert Shifted(s.availability, bitmap, bitmap) == s.availability;
        assert s.peerPieces[a := bitmap] == s.peerPieces;
      } else {
        var init, i := order[..|order| - 1], order[|order| - 1];
        HavesMark(s, a, init);
        assert order == init + [i];
        var mid := Haves(s, a, init);
        MarkedNext(s.availability, bitmap, init, i);
      }
    } else if order != [] {
      HavesMark(s, a, order[..|order| - 1]);
    }
  }

  /** One more mark. */
  lemma MarkedNext(availability: seq<int>, bitmap: seq<bool>, order: seq<int>, i: int)
    requires |availability| == |bitmap|
    ensures var was, now := Marked(bitmap, order), Marked(bitmap, order + [i]);
            if 0 <= i < |bitmap| && !was[i] then
              && now == was[i := true]
              && var shifted := Shifted(availability, bitmap, was);
                 Shifted(availability, bitmap, now) == shifted[i := shifted[i] + 1]
            else now == was
  {
  }

  /** A bitfield message does what Have messages for its in-range set bits do, in any order and with repeats. */
  lemma BitfieldIsHaves(s: Picker, a: Addr, bits: Bytes, order: seq<int>)
    requires Sized(s)
    requires forall i: nat :: i < |s.pieces| ==> (i in order <==> BitSet(bits, i))
    ensures Bitfield(s, a, bits) == Haves(s, a, order)
  {
    HavesMark(s, a, order);
    if a in s.peerPieces {
      assert Marked(s.peerPieces[a], order) == Merged(s.peerPieces[a], bits);
    }
  }
}
