/** Which states, and which torrents, honest peers can complete. */
module Completion {
  import opened Bytes
  import opened Layout
  import opened PickerModel
  import opened PickerRuns
  import opened ManagerModel
  import opened ManagerRuns
  import opened EndToEnd
  import opened BlockHistory
  import opened EventLoop
  import opened Awaiting
  import opened Losses
  import opened Starving
  import opened Quiet
  import opened Delivery
  import opened Requesting
  import opened Finishing

  /**
   * Every missing block is awaited from some open connection; or end-game is not on and either five blocks are
   * missing or some registered connection has five different places among what it tracks and what is missing.
   */
  ghost predicate Finishable(l: Loop) {
    AllAwaited(l) || (!l.m.picker.endGame && !Starved(l.m))
  }

  // ----- If

  const SEEDER: Addr := "10.0.0.1:6881"

  /** After the old requests expired, c announces every piece and is willing. */
  lemma Prepares(t: Torrent, pieces: seq<Bytes>, l0: Loop, l: Loop, c: Addr) returns (l': Loop)
    requires Reaches(t, pieces, l0, l) && Calm(t, l) && !l.m.picker.endGame
    requires c in l.m.clients && c in l.m.picker.peerPieces && |Reach(l.m, c)| >= PIPELINE
    ensures Reaches(t, pieces, l0, l') && Calm(t, l') && Willing(l'.m, c)
  {
    var l1 := Expires(t, pieces, l0, l);
    Sizes(t, l1.m);
    ToldStep(t, pieces, l0, l1, c, Ones(|l1.m.picker.pieces|));
    ToldAll(l1.m.picker, c);
    l' := l1.(m := Told(l1.m, c, Ones(|l1.m.picker.pieces|)));
    ToldWilling(l.m, l1.m, l'.m, c);
  }

  lemma ToldWilling(m: Manager, m1: Manager, m': Manager, c: Addr)
    requires c in m.clients && m1.clients == m.clients && m'.clients == m.clients && |Reach(m, c)| >= PIPELINE
    requires !m1.picker.endGame && MissingKeys(m1.picker) == MissingKeys(m.picker)
    requires forall i: nat, b: nat :: Exists(m1.picker, i, b) ==> At(m1.picker, i, b).state != Pending
    requires m'.picker == m1.picker.(peerPieces := m'.picker.peerPieces, availability := m'.picker.availability)
    requires HasAll(m'.picker, c)
    ensures Willing(m', c)
  {
    forall i: nat, b: nat | Exists(m'.picker, i, b)
      ensures At(m'.picker, i, b).state != Pending
    {
      assert Exists(m1.picker, i, b);
    }
    assert Reach(m', c) == Reach(m, c);
  }

  /** From a calm state with a connection that has enough within reach. */
  lemma ReachFinishes(t: Torrent, data: Bytes, pieces: seq<Bytes>, l0: Loop, l: Loop, c: Addr)
    requires WireSized(t) && Calm(t, l) && t.Count() > 0 && Served(t, data, pieces) && Reaches(t, pieces, l0, l)
    requires Reached(t, l0.m) && Sound(pieces, l0)
    requires !l.m.picker.endGame && c in l.m.clients && c in l.m.picker.peerPieces && |Reach(l.m, c)| >= PIPELINE
    ensures CanFinish(t, pieces, l0)
  {
    var l1 := Prepares(t, pieces, l0, l, c);
    var l2 := RequestsAll(t, data, pieces, l0, l1, c);
    DeliversAll(t, data, pieces, l0, l2);
  }

  /** A new seeder has everything that is missing within reach. */
  lemma SeederFinishes(t: Torrent, data: Bytes, pieces: seq<Bytes>, l0: Loop, l: Loop)
    requires WireSized(t) && Calm(t, l) && t.Count() > 0 && Served(t, data, pieces) && Reaches(t, pieces, l0, l)
    requires Reached(t, l0.m) && Sound(pieces, l0)
    requires !l.m.picker.endGame && |MissingKeys(l.m.picker)| >= PIPELINE
    ensures CanFinish(t, pieces, l0)
  {
    Joins(t, pieces, l0, l, SEEDER);
    var l1 := l.(m := Joined(l.m, SEEDER), older := OlderAfter(l, PeerAdded(SEEDER)));
    JoinedReach(l.m, SEEDER);
    ReachFinishes(t, data, pieces, l0, l1, SEEDER);
  }

  lemma JoinedReach(m: Manager, a: Addr)
    ensures var m' := Joined(m, a);
            a in m'.clients && a in m'.picker.peerPieces && m'.picker.endGame == m.picker.endGame &&
            Reach(m', a) == MissingKeys(m.picker)
  {
  }

  lemma SameReach(m: Manager, m': Manager, c: Addr)
    requires m' == m.(clients := m'.clients) && SameTracked(m, m') && c in m.clients
    ensures c in m'.clients && Reach(m', c) == Reach(m, c)
  {
  }

  /** Who chokes does not matter to who can answer. */
  lemma SameAwaited(l: Loop, l': Loop)
    requires l.inbox == multiset{} && l' == l.(m := l'.m, inbox := multiset{}) && l'.m == l.m.(clients := l'.m.clients)
    requires SameTracked(l.m, l'.m) && AllAwaited(l)
    ensures AllAwaited(l')
  {
    forall i: nat, b: nat | Exists(l'.m.picker, i, b) && At(l'.m.picker, i, b).state != Completed
      ensures Awaited(l', At(l'.m.picker, i, b))
    {
      var a := AskedOfSome(l, At(l.m.picker, i, b));
      assert AwaitedFrom(l', a, At(l'.m.picker, i, b));
    }
  }

  lemma FinishableFinishes(t: Torrent, data: Bytes, pieces: seq<Bytes>, l: Loop)
    requires t.Valid() && WireSized(t) && t.Count() > 0 && Served(t, data, pieces)
    requires Reached(t, l.m) && Sound(pieces, l) && l.phase.Waiting? && l.inbox == multiset{} && Finishable(l)
    ensures CanFinish(t, pieces, l)
  {
    ReachesSelf(t, pieces, l);
    var m := ChokesAll(t, pieces, l, l);
    var l1 := l.(m := m, inbox := multiset{});
    if AllAwaited(l) {
      SameAwaited(l, l1);
      DeliversAll(t, data, pieces, l, l1);
    } else if |MissingKeys(l.m.picker)| >= PIPELINE {
      SeederFinishes(t, data, pieces, l, l1);
    } else {
      var c :| c in l.m.clients && c in l.m.picker.peerPieces && |Reach(l.m, c)| >= PIPELINE;
      SameReach(l.m, m, c);
      ReachFinishes(t, data, pieces, l, l1, c);
    }
  }

  // ----- Only if

  /** A missing block that is not awaited is Unrequested, or its owner is just being removed. */
  lemma NotAllAwaited(t: Torrent, l: Loop) returns (i: nat, b: nat)
    requires Books(t, l) && !AllAwaited(l)
    ensures Stranded(l, i, b)
  {
    i, b :| Exists(l.m.picker, i, b) && At(l.m.picker, i, b).state != Completed && !Awaited(l, At(l.m.picker, i, b));
    assert !AwaitedFrom(l, At(l.m.picker, i, b).peer, At(l.m.picker, i, b));
  }

  lemma CannotFinish(t: Torrent, pieces: seq<Bytes>, l: Loop)
    requires Books(t, l) && Sound(pieces, l) && !Finishable(l)
    ensures !CanFinish(t, pieces, l)
  {
    var i, b := NotAllAwaited(t, l);
    if l.m.picker.endGame {
      LeftBehindCannotFinish(t, pieces, l, i, b);
    } else {
      StarvedCannotFinish(t, pieces, l, i, b);
    }
  }

  lemma LoopReached(t: Torrent, pieces: seq<Bytes>, ls: seq<Loop>, acts: seq<Act>, k: nat)
    requires LoopRun(t, pieces, ls, acts) && k < |ls|
    ensures Books(t, ls[k]) && Sound(pieces, ls[k])
  {
    var ms, es := LoopRunIsRun(t, pieces, ls, acts, k);
    LoopKeepsBooks(t, pieces, ls, acts, k);
  }

  /**
   * Whatever the loop is doing and whatever the peers hold: from a state that is not finishable done is never
   * reported.
   */
  lemma UnfinishableNever(t: Torrent, pieces: seq<Bytes>, ls: seq<Loop>, acts: seq<Act>, k: nat)
    requires LoopRun(t, pieces, ls, acts) && k < |ls| && !Finishable(ls[k])
    ensures !CanFinish(t, pieces, ls[k])
  {
    LoopReached(t, pieces, ls, acts, k);
    CannotFinish(t, pieces, ls[k]);
  }

  /**
   * Whenever the event loop of a run waits with nothing left to handle, honest peers can complete the
   * download if and only if the state is finishable.
   */
  lemma CanFinishIff(t: Torrent, data: Bytes, pieces: seq<Bytes>, ls: seq<Loop>, acts: seq<Act>, k: nat)
    requires WireSized(t) && t.length > 0 && LoopRun(t, pieces, ls, acts) && Served(t, data, pieces)
    requires k < |ls| && ls[k].phase.Waiting? && ls[k].inbox == multiset{}
    ensures CanFinish(t, pieces, ls[k]) <==> Finishable(ls[k])
  {
    PieceOf(t.length, t.pieceLength, 0);
    LoopReached(t, pieces, ls, acts, k);
    if Finishable(ls[k]) {
      FinishableFinishes(t, data, pieces, ls[k]);
    } else {
      CannotFinish(t, pieces, ls[k]);
    }
  }

  /**
   * When every connection is lost and the loop waits: the download can still be completed if and only if nothing
   * is missing, or end-game is off and five blocks are missing.
   */
  lemma NoConnectionLeft(t: Torrent, data: Bytes, pieces: seq<Bytes>, ls: seq<Loop>, acts: seq<Act>, k: nat)
    requires WireSized(t) && t.length > 0 && LoopRun(t, pieces, ls, acts) && Served(t, data, pieces)
    requires k < |ls| && ls[k].phase.Waiting? && ls[k].inbox == multiset{}
    requires ls[k].m.clients == map[] && ls[k].older == multiset{}
    ensures var missing := MissingKeys(ls[k].m.picker);
            CanFinish(t, pieces, ls[k]) <==> missing == {} || (!ls[k].m.picker.endGame && |missing| >= 5)
  {
    CanFinishIff(t, data, pieces, ls, acts, k);
    var l := ls[k];
    if MissingKeys(l.m.picker) == {} {
      NoneMissing(l);
    } else if AllAwaited(l) {
      var key :| key in MissingKeys(l.m.picker);
      var b := KeyBlock(l.m.picker, key);
      var a := AskedOfSome(l, At(l.m.picker, key.0, b));
    }
  }

  lemma NoneMissing(l: Loop)
    requires MissingKeys(l.m.picker) == {}
    ensures AllAwaited(l)
  {
    forall i: nat, b: nat | Exists(l.m.picker, i, b)
      ensures At(l.m.picker, i, b).state == Completed
    {
      MissingKey(l.m.picker, i, b);
    }
  }

  // ----- Whole torrents

  /** The number of blocks of a torrent. */
  function Blocks(t: Torrent): nat
    requires t.pieceLength > 0
  {
    Fresh(t.length, t.pieceLength).totalBlocks
  }

  lemma StartMissing(t: Torrent)
    requires t.Valid()
    ensures |MissingKeys(Start(t).picker)| == Blocks(t)
  {
    var s := Start(t).picker;
    MissingCount(s.pieces);
    forall i | 0 <= i < |s.pieces|
      ensures forall b :: 0 <= b < |s.pieces[i].blocks| ==> s.pieces[i].blocks[b].state == Unrequested
    {
      assert s.pieces[i] == FreshPiece(t.length, t.pieceLength, i);
    }
    FreshTally(t, |s.pieces|);
    assert s.pieces[..|s.pieces|] == s.pieces;
  }

  lemma {:induction false} FreshTally(t: Torrent, n: nat)
    requires t.Valid() && n <= t.Count()
    ensures var ps := Start(t).picker.pieces[..n]; Tally(ps, {Unrequested, Pending}) == Tally(ps, ANY)
  {
    if n > 0 {
      FreshTally(t, n - 1);
      var ps := Start(t).picker.pieces;
      assert ps[..n][..n - 1] == ps[..n - 1];
      assert ps[n - 1] == FreshPiece(t.length, t.pieceLength, n - 1);
      FreshTallyBlocks(ps[n - 1].blocks);
    }
  }

  lemma {:induction false} FreshTallyBlocks(bs: seq<Block>)
    requires forall b :: 0 <= b < |bs| ==> bs[b].state == Unrequested
    ensures TallyBlocks(bs, {Unrequested, Pending}) == TallyBlocks(bs, ANY)
  {
    if bs != [] {
      FreshTallyBlocks(bs[..|bs| - 1]);
    }
  }

  lemma StartFinishable(t: Torrent)
    requires t.Valid() && t.length > 0
    ensures Finishable(Begins(t)) <==> Blocks(t) >= PIPELINE
  {
    PieceOf(t.length, t.pieceLength, 0);
    StartMissing(t);
    var s := Start(t).picker;
    assert s.pieces[0] == FreshPiece(t.length, t.pieceLength, 0);
    assert Exists(s, 0, 0) && At(s, 0, 0).state == Unrequested;
    assert forall a :: !AwaitedFrom(Begins(t), a, At(s, 0, 0));
    assert !Awaited(Begins(t), At(s, 0, 0));
  }

  lemma StartFinishes(t: Torrent, data: Bytes, pieces: seq<Bytes>)
    requires t.Valid() && WireSized(t) && t.length > 0 && Served(t, data, pieces)
    ensures CanFinish(t, pieces, Begins(t)) <==> Blocks(t) >= PIPELINE
  {
    PieceOf(t.length, t.pieceLength, 0);
    StartBooks(t);
    StartFinishable(t);
    if Blocks(t) >= PIPELINE {
      FinishableFinishes(t, data, pieces, Begins(t));
    } else {
      CannotFinish(t, pieces, Begins(t));
    }
  }

  /** A run of the event loop in which every piece message is an answer out of `pieces`, up to done. */
  ghost predicate Completes(t: Torrent, pieces: seq<Bytes>, ls: seq<Loop>, acts: seq<Act>) {
    LoopRun(t, pieces, ls, acts) && ls[|acts|].m.doneCloses > 0
  }

  lemma FinishingRun(t: Torrent, pieces: seq<Bytes>) returns (ls: seq<Loop>, acts: seq<Act>)
    requires t.Valid() && CanFinish(t, pieces, Begins(t))
    ensures Completes(t, pieces, ls, acts)
  {
    var l :| Reaches(t, pieces, Begins(t), l) && l.m.doneCloses > 0;
    ls, acts :| LoopPath(t, pieces, ls, acts) && ls[0] == Begins(t) && ls[|acts|] == l;
  }

  /** Some run reports done if and only if the torrent has at least five blocks. */
  lemma CompletableIff(t: Torrent, data: Bytes, pieces: seq<Bytes>)
    requires t.Valid() && WireSized(t) && t.length > 0 && Served(t, data, pieces)
    ensures (exists ls, acts :: Completes(t, pieces, ls, acts)) <==> Blocks(t) >= 5
  {
    StartFinishes(t, data, pieces);
    if ls, acts :| Completes(t, pieces, ls, acts) {
      assert Reaches(t, pieces, Begins(t), ls[|acts|]);
    }
    if CanFinish(t, pieces, Begins(t)) {
      var ls, acts := FinishingRun(t, pieces);
    }
  }

  /**
   * Done without a write: whatever data of the right length is served, if piece i of it has a wrong digest
   * and the torrent has five blocks, then a run reports done in which the piece was refused and not written.
   */
  lemma DoneWithoutWrite(t: Torrent, data: Bytes, pieces: seq<Bytes>, i: nat)
    requires t.Valid() && WireSized(t) && Served(t, data, pieces) && Blocks(t) >= PIPELINE
    requires i < t.Count() && t.sha1(PieceBytes(data, t.pieceLength, i)) != t.Hash(i)
    ensures exists ls: seq<Loop>, acts: seq<Act> ::
              && Completes(t, pieces, ls, acts)
              && Rejected(i) in ls[|acts|].m.log && !IsWritten(ls[|acts|].m, i)
  {
    PieceCountBounds(t.length, t.pieceLength, i);
    StartFinishes(t, data, pieces);
    var ls, acts := FinishingRun(t, pieces);
    var ms, es := LoopRunIsRun(t, pieces, ls, acts, |acts|);
    ServedVerdict(t, data, pieces, ms, es, |es|, i);
  }

  /** And for true data: done is reported, and the writes of that run, in any order, give the data. */
  lemma LoopDownload(t: Torrent, data: Bytes, pieces: seq<Bytes>, ls: seq<Loop>, acts: seq<Act>, ws: seq<PieceWrite>,
                     file: Bytes)
    requires WireSized(t) && Completes(t, pieces, ls, acts) && Loaded(t, data, pieces)
    requires multiset(ws) == multiset(Writes(ls[|acts|].m.log)) && |file| == t.length
    ensures Stored(t.pieceLength, file, ws) == data
  {
    var ms, es := LoopRunIsRun(t, pieces, ls, acts, |acts|);
    Download(t, data, pieces, ms, es, |es|, ws, file);
  }
}
