/** While every missing block is awaited from some open connection, the answers complete the download. */
module Delivery {
  import opened Bytes
  import opened Layout
  import opened PickerModel
  import opened PickerAccounting
  import opened PickerRuns
  import opened ManagerModel
  import opened ManagerRuns
  import opened EndToEnd
  import opened BlockHistory
  import opened EventLoop
  import opened Awaiting
  import opened Starving
  import opened Quiet

  /** For every missing block some open connection has a request to answer, or its answer waits to be handled. */
  ghost predicate AllAwaited(l: Loop) {
    forall i: nat, b: nat :: Exists(l.m.picker, i, b) && At(l.m.picker, i, b).state != Completed ==>
      Awaited(l, At(l.m.picker, i, b))
  }

  // ----- What completing a block leaves

  /** Completing (index, begin) completes that block and leaves every other as it is. */
  lemma CompleteBlock(s: Picker, index: nat, begin: nat, a: Addr, total: nat, pieceLen: nat, i: nat, b: nat)
    requires pieceLen > 0 && Inv(s, total, pieceLen) && Exists(s, i, b)
    ensures var s' := Complete(s, index, begin, a).picker;
            && Exists(s', i, b) && SamePlace(At(s, i, b), At(s', i, b))
            && (At(s', i, b).state == if (i, b * BLOCK_SIZE) == (index, begin) then Completed else At(s, i, b).state)
  {
    CompleteTransition(s, index, begin, a, total, pieceLen, i, b);
    BeginOf(s, total, pieceLen, i, b);
  }

  lemma BeginOf(s: Picker, total: nat, pieceLen: nat, i: nat, b: nat)
    requires pieceLen > 0 && Inv(s, total, pieceLen) && Exists(s, i, b)
    ensures At(s, i, b).begin == b * BLOCK_SIZE
  {
    var len := PieceLength(total, pieceLen, i);
    assert PieceOk(s.pieces[i], i, len, s.peerPieces.Keys);
    assert BlockShaped(s.pieces[i].blocks[b], i, len, b);
  }

  lemma CompleteShape(s: Picker, index: nat, begin: nat, a: Addr, i: nat, b: nat)
    ensures Exists(s, i, b) <==> Exists(Complete(s, index, begin, a).picker, i, b)
  {
  }

  /** The missing keys after it. */
  lemma CompleteMissing(s: Picker, index: nat, begin: nat, a: Addr, total: nat, pieceLen: nat)
    requires pieceLen > 0 && Inv(s, total, pieceLen)
    ensures MissingKeys(Complete(s, index, begin, a).picker) == MissingKeys(s) - {(index, begin)}
  {
    var s' := Complete(s, index, begin, a).picker;
    forall k | k in MissingKeys(s')
      ensures k in MissingKeys(s) - {(index, begin)}
    {
      var b := KeyBlock(s', k);
      CompleteShape(s, index, begin, a, k.0, b);
      CompleteBlock(s, index, begin, a, total, pieceLen, k.0, b);
      MissingKey(s, k.0, b);
    }
    forall k | k in MissingKeys(s) - {(index, begin)}
      ensures k in MissingKeys(s')
    {
      var b := KeyBlock(s, k);
      CompleteBlock(s, index, begin, a, total, pieceLen, k.0, b);
      MissingKey(s', k.0, b);
    }
  }

  // ----- Everything is delivered

  lemma NothingMissing(t: Torrent, m: Manager)
    requires ManagerInv(t, m) && t.Count() > 0 && MissingKeys(m.picker) == {}
    ensures m.doneCloses > 0
  {
    forall i | 0 <= i < |m.picker.pieces|
      ensures m.picker.pieces[i].done
    {
      assert PieceOk(m.picker.pieces[i], i, PieceLength(t.length, t.pieceLength, i), m.picker.peerPieces.Keys);
      forall b: nat | b < |m.picker.pieces[i].blocks|
        ensures m.picker.pieces[i].blocks[b].state == Completed
      {
        MissingKey(m.picker, i, b);
      }
    }
  }

  // ----- One missing block fewer

  /** With nothing to handle, an awaited block is awaited from a connection. */
  lemma AskedOfSome(l: Loop, block: Block) returns (a: Addr)
    requires l.inbox == multiset{} && Awaited(l, block)
    ensures AskedOf(l, a, block)
  {
    a :| AwaitedFrom(l, a, block);
  }

  lemma OtherAsked(l: Loop, l': Loop, r: Request, a: Addr, x: Block, y: Block)
    requires AskedOf(l, a, x) && SamePlace(x, y) && Naming(a, x) != r
    requires l'.older == l.older - multiset{r} || l'.older == l.older
    requires l'.m.clients.Keys == l.m.clients.Keys
    requires forall c :: c in l.m.clients ==>
               l'.m.clients[c].unanswered == l.m.clients[c].unanswered - multiset{r} ||
               l'.m.clients[c].unanswered == l.m.clients[c].unanswered
    ensures AskedOf(l', a, y)
  {
    assert Naming(a, y) == Naming(a, x);
  }

  /** The answer to r leaves every other missing block awaited. */
  lemma RestAwaited(t: Torrent, l: Loop, l': Loop, r: Request)
    requires ManagerInv(t, l.m) && AllAwaited(l) && l.inbox == multiset{} && l'.inbox == multiset{}
    requires l'.m.picker == Complete(l.m.picker, r.index, r.begin, r.peer).picker
    requires l'.older == l.older - multiset{r} || l'.older == l.older
    requires l'.m.clients.Keys == l.m.clients.Keys
    requires forall c :: c in l.m.clients ==>
               l'.m.clients[c].unanswered == l.m.clients[c].unanswered - multiset{r} ||
               l'.m.clients[c].unanswered == l.m.clients[c].unanswered
    ensures AllAwaited(l')
  {
    forall i: nat, b: nat | Exists(l'.m.picker, i, b) && At(l'.m.picker, i, b).state != Completed
      ensures Awaited(l', At(l'.m.picker, i, b))
    {
      CompleteShape(l.m.picker, r.index, r.begin, r.peer, i, b);
      CompleteBlock(l.m.picker, r.index, r.begin, r.peer, t.length, t.pieceLength, i, b);
      ShapeOf(t, l.m, "", i, b);
      var x := At(l.m.picker, i, b);
      var a := AskedOfSome(l, x);
      OtherAsked(l, l', r, a, x, At(l'.m.picker, i, b));
      assert AwaitedFrom(l', a, At(l'.m.picker, i, b));
    }
  }

  lemma KnownRequest(t: Torrent, pieces: seq<Bytes>, l: Loop, a: Addr, block: Block)
    requires t.Valid() && Reached(t, l.m) && Sound(pieces, l) && AskedOf(l, a, block)
    ensures Naming(a, block) in l.m.requests
  {
    ReachedAsked(t, l.m);
    assert a in l.m.clients ==> ClientAsked(l.m.clients[a], a, l.m.requests);
  }

  /** Whoever has the request answers it. */
  lemma SomeAnswers(t: Torrent, data: Bytes, pieces: seq<Bytes>, l0: Loop, l: Loop, a: Addr, block: Block)
    returns (l': Loop)
    requires WireSized(t) && Calm(t, l) && Served(t, data, pieces) && Reaches(t, pieces, l0, l)
    requires Sound(pieces, l) && AllAwaited(l) && AskedOf(l, a, block)
    ensures Reaches(t, pieces, l0, l') && Calm(t, l') && AllAwaited(l')
    ensures l'.m.picker == Complete(l.m.picker, block.index, block.begin, a).picker
  {
    var r := Naming(a, block);
    KnownRequest(t, pieces, l, a, block);
    ReachedInv(t, l.m);
    if r in l.older {
      l' := OlderAnswers(t, data, pieces, l0, l, r);
    } else {
      l' := AnswerArrives(t, data, pieces, l0, l, r);
    }
    RestAwaited(t, l, l', r);
  }

  lemma {:induction false} SoundPath(t: Torrent, pieces: seq<Bytes>, ls: seq<Loop>, acts: seq<Act>, k: nat)
    requires t.Valid() && LoopPath(t, pieces, ls, acts) && k < |ls| && Reached(t, ls[0].m) && Sound(pieces, ls[0])
    ensures Reached(t, ls[k].m) && Sound(pieces, ls[k])
  {
    if k > 0 {
      SoundPath(t, pieces, ls, acts, k - 1);
      assert LoopAt(t, pieces, ls, acts, k - 1);
      ReachedByLoop(t, pieces, ls[k - 1], acts[k - 1], ls[k]);
      SoundStep(t, pieces, ls[k - 1], acts[k - 1], ls[k]);
    }
  }

  lemma SoundAlong(t: Torrent, pieces: seq<Bytes>, l0: Loop, l: Loop)
    requires t.Valid() && Reached(t, l0.m) && Sound(pieces, l0) && Reaches(t, pieces, l0, l)
    ensures Sound(pieces, l)
  {
    var ls, acts :| LoopPath(t, pieces, ls, acts) && ls[0] == l0 && ls[|acts|] == l;
    SoundPath(t, pieces, ls, acts, |acts|);
  }

  lemma DeliversOne(t: Torrent, data: Bytes, pieces: seq<Bytes>, l0: Loop, l: Loop, k: Key) returns (l': Loop)
    requires WireSized(t) && Calm(t, l) && Served(t, data, pieces) && Reaches(t, pieces, l0, l)
    requires Sound(pieces, l) && AllAwaited(l) && k in MissingKeys(l.m.picker)
    ensures Reaches(t, pieces, l0, l') && Calm(t, l') && AllAwaited(l')
    ensures MissingKeys(l'.m.picker) == MissingKeys(l.m.picker) - {k}
  {
    var b := KeyBlock(l.m.picker, k);
    var block := At(l.m.picker, k.0, b);
    var a := AskedOfSome(l, block);
    ReachedInv(t, l.m);
    ShapeOf(t, l.m, a, k.0, b);
    l' := SomeAnswers(t, data, pieces, l0, l, a, block);
    CompleteMissing(l.m.picker, block.index, block.begin, a, t.length, t.pieceLength);
  }

  lemma {:induction false} DeliversAll(t: Torrent, data: Bytes, pieces: seq<Bytes>, l0: Loop, l: Loop)
    requires WireSized(t) && Calm(t, l) && t.Count() > 0 && Served(t, data, pieces)
    requires Reached(t, l0.m) && Sound(pieces, l0) && Reaches(t, pieces, l0, l) && AllAwaited(l)
    ensures CanFinish(t, pieces, l0)
    decreases |MissingKeys(l.m.picker)|
  {
    if MissingKeys(l.m.picker) == {} {
      ReachedInv(t, l.m);
      NothingMissing(t, l.m);
    } else {
      SoundAlong(t, pieces, l0, l);
      var k :| k in MissingKeys(l.m.picker);
      var l' := DeliversOne(t, data, pieces, l0, l, k);
      DeliversAll(t, data, pieces, l0, l');
    }
  }
}
