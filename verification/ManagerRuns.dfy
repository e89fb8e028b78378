/** What holds in every run of the manager, whatever peers send. */
module ManagerRuns {
  import opened Arith
  import opened Bytes
  import opened Layout
  import opened PickerModel
  import opened PickerAccounting
  import opened PickerRuns
  import opened ManagerModel

  // ----- The invariant, part by part

  /** Every Completed block of an incomplete piece is in the buffers. */
  ghost predicate BufsOk(s: Picker, bufs: PieceBufs) {
    forall i, b :: 0 <= i < |s.pieces| && 0 <= b < |s.pieces[i].blocks| && !s.pieces[i].done &&
                   s.pieces[i].blocks[b].state == Completed ==>
                     i in bufs && b * BLOCK_SIZE in bufs[i]
  }

  /** A write has the length and the digest of its piece. */
  ghost predicate VerdictOk(t: Torrent, v: Verdict)
    requires t.Valid()
  {
    && v.index < t.Count()
    && (v.Wrote? ==> |v.data| == PieceLength(t.length, t.pieceLength, v.index) && t.sha1(v.data) == t.Hash(v.index))
  }

  /** The log has exactly the complete pieces, each once, each with a sound verdict. */
  ghost predicate LogOk(t: Torrent, s: Picker, log: seq<Verdict>)
    requires t.Valid()
  {
    && (forall k :: 0 <= k < |log| ==> VerdictOk(t, log[k]))
    && (forall j, k :: 0 <= j < k < |log| ==> log[j].index != log[k].index)
    && (forall i :: 0 <= i < |s.pieces| ==> (s.pieces[i].done <==> exists k :: 0 <= k < |log| && log[k].index == i))
  }

  /** The done channel was closed once if everything is complete, and otherwise not at all. */
  ghost predicate ClosesOk(s: Picker, closes: nat) {
    closes == if AllDone(s) && s.pieces != [] then 1 else 0
  }

  ghost predicate ClientsOk(clients: map<Addr, Client>) {
    forall a :: a in clients ==> |clients[a].outstanding| <= PIPELINE
  }

  /** The request is for one of the torrent's blocks. */
  predicate RequestOk(t: Torrent, r: Request)
    requires t.pieceLength > 0
  {
    && r.index < t.Count()
    && var len := PieceLength(t.length, t.pieceLength, r.index);
       r.begin % BLOCK_SIZE == 0 && r.begin / BLOCK_SIZE < BlockCount(len) &&
       r.length == BlockLength(len, r.begin / BLOCK_SIZE)
  }

  ghost predicate ManagerInv(t: Torrent, m: Manager) {
    && t.Valid()
    && Inv(m.picker, t.length, t.pieceLength)
    && BufsOk(m.picker, m.pieceBufs)
    && LogOk(t, m.picker, m.log)
    && ClosesOk(m.picker, m.doneCloses)
    && ClientsOk(m.clients)
    && forall r :: r in m.requests ==> RequestOk(t, r)
  }

  // ----- Steps that complete nothing

  /** The same pieces are flagged and the same blocks Completed. */
  predicate SameProgress(s: Picker, s': Picker) {
    && |s'.pieces| == |s.pieces|
    && forall i :: 0 <= i < |s.pieces| ==>
         && s'.pieces[i].done == s.pieces[i].done
         && |s'.pieces[i].blocks| == |s.pieces[i].blocks|
         && forall b :: 0 <= b < |s.pieces[i].blocks| ==>
              (s'.pieces[i].blocks[b].state == Completed <==> s.pieces[i].blocks[b].state == Completed)
  }

  lemma QuietStep(s: Picker, op: Op, s': Picker, total: nat, pieceLen: nat)
    requires pieceLen > 0 && Inv(s, total, pieceLen) && Step(s, op, s') && !op.MarkCompleted?
    ensures SameProgress(s, s')
  {
    StepLater(s, op, s', total, pieceLen);
    forall i | 0 <= i < |s.pieces|
      ensures s'.pieces[i].done == s.pieces[i].done
      ensures |s'.pieces[i].blocks| == |s.pieces[i].blocks|
      ensures forall b :: 0 <= b < |s.pieces[i].blocks| ==>
                (s'.pieces[i].blocks[b].state == Completed <==> s.pieces[i].blocks[b].state == Completed)
    {
      QuietPiece(s, op, s', total, pieceLen, i);
    }
  }

  lemma QuietPiece(s: Picker, op: Op, s': Picker, total: nat, pieceLen: nat, i: nat)
    requires pieceLen > 0 && Inv(s, total, pieceLen) && Step(s, op, s') && !op.MarkCompleted?
    requires i < |s.pieces| == |s'.pieces| && PieceLater(s.pieces[i], s'.pieces[i], s.endGame)
    ensures s'.pieces[i].done == s.pieces[i].done
    ensures forall b :: 0 <= b < |s.pieces[i].blocks| ==>
              (s'.pieces[i].blocks[b].state == Completed <==> s.pieces[i].blocks[b].state == Completed)
  {
    FlagSetByReport(s, op, s', total, pieceLen, i);
    forall b | 0 <= b < |s.pieces[i].blocks|
      ensures s'.pieces[i].blocks[b].state == Completed <==> s.pieces[i].blocks[b].state == Completed
    {
      BlockTransition(s, op, s', total, pieceLen, i, b);
    }
  }

  lemma ProgressKeeps(t: Torrent, m: Manager, s': Picker)
    requires ManagerInv(t, m) && SameProgress(m.picker, s')
    ensures BufsOk(s', m.pieceBufs) && LogOk(t, s', m.log) && ClosesOk(s', m.doneCloses)
  {
  }

  lemma RemovingKeepsSmall<K, V>(x: map<K, V>, y: map<K, V>)
    requires y.Keys <= x.Keys
    ensures |y| <= |x|
  {
    SubsetCount(y.Keys, x.Keys);
  }

  /** No step takes a connection above the pipeline bound. */
  lemma ClientsBounded(m: Manager, e: Event, m': Manager)
    requires ClientsOk(m.clients) && ClientsStep(m, e, m')
    ensures ClientsOk(m'.clients)
  {
    match e
    case GrantTurn(a, now, r) =>
      if r.Some? {
        var was := m.clients[a].outstanding;
        var key := (r.value.index, r.value.begin);
        assert was[key := Tracked(r.value.length, now)].Keys == was.Keys + {key};
      }
    case PieceRead(a, p) =>
      if |p| >= 8 {
        RemovingKeepsSmall(m.clients[a].outstanding, m'.clients[a].outstanding);
      }
    case StallSweep(a, now) =>
      RemovingKeepsSmall(m.clients[a].outstanding, m'.clients[a].outstanding);
    case _ =>
  }

  lemma BlockIsRequest(t: Torrent, a: Addr, block: Block, i: nat, b: nat)
    requires t.Valid() && i < t.Count()
    requires b < BlockCount(PieceLength(t.length, t.pieceLength, i))
    requires BlockShaped(block, i, PieceLength(t.length, t.pieceLength, i), b)
    ensures RequestOk(t, Request(a, block.index, block.begin, block.length))
  {
  }

  lemma GrantedRequestOk(t: Torrent, s: Picker, a: Addr, now: int, s': Picker, block: Block)
    requires t.Valid() && Inv(s, t.length, t.pieceLength) && NextBlock(s, a, now, s', Some(block))
    ensures RequestOk(t, Request(a, block.index, block.begin, block.length))
  {
    var i := block.index;
    var len := PieceLength(t.length, t.pieceLength, i);
    assert PieceOk(s.pieces[i], i, len, s.peerPieces.Keys);
    var b := FirstIn(s.pieces[i].blocks, if s'.endGame then Pending else Unrequested);
    assert BlockShaped(s.pieces[i].blocks[b], i, len, b);
    assert SamePlace(block, s.pieces[i].blocks[b]);
    BlockIsRequest(t, a, block, i, b);
  }

  lemma QuietKeepsInv(t: Torrent, m: Manager, e: Event, m': Manager)
    requires ManagerInv(t, m) && ManagerStep(t, m, e, m') && !e.PieceMessage?
    ensures ManagerInv(t, m')
  {
    ClientsBounded(m, e, m');
    QuietPicker(t, m, e, m');
    ProgressKeeps(t, m, m'.picker);
    QuietRequests(t, m, e, m');
  }

  lemma QuietRequests(t: Torrent, m: Manager, e: Event, m': Manager)
    requires ManagerInv(t, m) && ManagerStep(t, m, e, m') && !e.PieceMessage?
    ensures forall r :: r in m'.requests ==> RequestOk(t, r)
  {
    if e.GrantTurn? && e.granted.Some? {
      GrantedRequestOk(t, m.picker, e.addr, e.now, m'.picker, e.granted.value);
    }
  }

  lemma QuietPicker(t: Torrent, m: Manager, e: Event, m': Manager)
    requires ManagerInv(t, m) && ManagerStep(t, m, e, m') && !e.PieceMessage?
    ensures Inv(m'.picker, t.length, t.pieceLength) && SameProgress(m.picker, m'.picker)
  {
    match PickerOp(e)
    case None =>
    case Some(op) =>
      StepKeepsInv(m.picker, op, m'.picker, t.length, t.pieceLength);
      QuietStep(m.picker, op, m'.picker, t.length, t.pieceLength);
  }

  // ----- Piece messages

  /** Reverting a complete piece does not touch the picker: nothing in it is Pending. */
  lemma {:induction false} RevertLeavesPicker(s: Picker, index: nat, n: nat)
    requires index < |s.pieces| && AllCompleted(s.pieces[index].blocks)
    ensures FailMany(s, index, n) == s
  {
    if n > 0 {
      RevertLeavesPicker(s, index, n - 1);
    }
  }

  /** With every block buffered, assembly succeeds: the missing-block branch is not taken. */
  lemma {:induction false} AssemblySucceeds(blocks: map<nat, Bytes>, len: nat, n: nat)
    requires n <= BlockCount(len)
    requires forall b :: 0 <= b < n ==> b * BLOCK_SIZE in blocks
    ensures Assembled(blocks, len, n).Some?
  {
    if n > 0 {
      AssemblySucceeds(blocks, len, n - 1);
      assert (n - 1) * BLOCK_SIZE in blocks;
    }
  }

  /** Block b was buffered and reaches over byte x of the piece. */
  predicate HasByte(blocks: map<nat, Bytes>, b: nat, x: nat) {
    b * BLOCK_SIZE in blocks && b * BLOCK_SIZE <= x < b * BLOCK_SIZE + |blocks[b * BLOCK_SIZE]|
  }

  /** Byte x is what the last of the first n blocks that reaches over it says, or 0 if none does. */
  predicate ByteFrom(blocks: map<nat, Bytes>, n: nat, x: nat, y: byte) {
    if n == 0 then y == 0
    else if HasByte(blocks, n - 1, x) then y == blocks[(n - 1) * BLOCK_SIZE][x - (n - 1) * BLOCK_SIZE]
    else ByteFrom(blocks, n - 1, x, y)
  }

  /** Assembly needs every block, and copies them one over the other, whatever their lengths. */
  lemma {:induction false} AssembledIs(blocks: map<nat, Bytes>, len: nat, n: nat)
    requires n <= BlockCount(len)
    ensures var r := Assembled(blocks, len, n);
            && (r.Some? <==> forall b :: 0 <= b < n ==> b * BLOCK_SIZE in blocks)
            && (r.Some? ==> |r.value| == len && forall x :: 0 <= x < len ==> ByteFrom(blocks, n, x, r.value[x]))
  {
    if n > 0 {
      AssembledIs(blocks, len, n - 1);
      var begin, was := (n - 1) * BLOCK_SIZE, Assembled(blocks, len, n - 1);
      if was.Some? && begin in blocks {
        var r := Assembled(blocks, len, n).value;
        forall x | 0 <= x < len
          ensures ByteFrom(blocks, n, x, r[x])
        {
          assert ByteFrom(blocks, n - 1, x, was.value[x]);
        }
      }
    }
  }

  /** The verdict that a complete, fully buffered piece gets, with its effect. */
  lemma VerdictReached(t: Torrent, m: Manager, index: nat)
    requires t.Valid() && Inv(m.picker, t.length, t.pieceLength) && index < t.Count() && index in m.pieceBufs
    requires m.picker.pieces[index].done
    requires forall b :: 0 <= b < |m.picker.pieces[index].blocks| ==> b * BLOCK_SIZE in m.pieceBufs[index]
    ensures var m' := VerifyAndWrite(t, m, index);
            && |m'.log| == |m.log| + 1 && m'.log[..|m.log|] == m.log
            && m'.log[|m.log|].index == index && VerdictOk(t, m'.log[|m.log|])
            && m' == m.(pieceBufs := m.pieceBufs - {index}, log := m'.log)
            && var len := PieceLength(t.length, t.pieceLength, index);
               var data := Assembled(m.pieceBufs[index], len, BlockCount(len));
               data.Some? && m'.log[|m.log|] ==
                 if t.sha1(data.value) == t.Hash(index) then Wrote(index, data.value) else Rejected(index)
  {
    var len := PieceLength(t.length, t.pieceLength, index);
    assert PieceOk(m.picker.pieces[index], index, len, m.picker.peerPieces.Keys);
    AssemblySucceeds(m.pieceBufs[index], len, BlockCount(len));
    RevertLeavesPicker(m.picker, index, BlockCount(len));
  }

  /** The manager after the message was buffered and counted, before any verdict. */
  function AfterCount(m: Manager, addr: Addr, payload: Bytes): Manager
    requires |payload| >= 8
  {
    var index, begin := Uint32(payload, 0), Uint32(payload, 4);
    m.(pieceBufs := Buffered(m.pieceBufs, index, begin, payload[8..]),
       picker := Complete(m.picker, index, begin, addr).picker)
  }

  /** After an accepted message every Completed block of the piece it belongs to is buffered. */
  lemma BufferedAll(t: Torrent, m: Manager, addr: Addr, payload: Bytes, b: nat)
    requires ManagerInv(t, m) && |payload| >= 8 && Accepts(m.picker, Uint32(payload, 0), Uint32(payload, 4))
    requires var index := Uint32(payload, 0);
             var s' := AfterCount(m, addr, payload).picker;
             index < |s'.pieces| && b < |s'.pieces[index].blocks| && s'.pieces[index].blocks[b].state == Completed
    ensures var index := Uint32(payload, 0); b * BLOCK_SIZE in AfterCount(m, addr, payload).pieceBufs[index]
  {
    var s, index, begin := m.picker, Uint32(payload, 0), Uint32(payload, 4);
    CompleteTransition(s, index, begin, addr, t.length, t.pieceLength, index, b);
    var len := PieceLength(t.length, t.pieceLength, index);
    assert PieceOk(s.pieces[index], index, len, s.peerPieces.Keys);
    assert BlockShaped(s.pieces[index].blocks[b], index, len, b);
    if s.pieces[index].blocks[b].state == Completed {
      assert b * BLOCK_SIZE in m.pieceBufs[index];
    }
  }

  /** Buffers after an accepted message that did not complete the piece, or of the other pieces. */
  lemma CountedBufs(t: Torrent, m: Manager, addr: Addr, payload: Bytes)
    requires ManagerInv(t, m) && |payload| >= 8
    ensures BufsOk(AfterCount(m, addr, payload).picker, AfterCount(m, addr, payload).pieceBufs)
  {
    var m1 := AfterCount(m, addr, payload);
    var s, s', index, begin := m.picker, m1.picker, Uint32(payload, 0), Uint32(payload, 4);
    forall i, b | 0 <= i < |s'.pieces| && 0 <= b < |s'.pieces[i].blocks| && !s'.pieces[i].done &&
                  s'.pieces[i].blocks[b].state == Completed
      ensures i in m1.pieceBufs && b * BLOCK_SIZE in m1.pieceBufs[i]
    {
      if Accepts(s, index, begin) && i == index {
        BufferedAll(t, m, addr, payload, b);
      } else {
        assert s'.pieces[i] == s.pieces[i];
        assert i in m.pieceBufs && b * BLOCK_SIZE in m.pieceBufs[i];
      }
    }
  }

  /** Only the piece named by an accepted message can change its flag. */
  lemma OtherFlags(s: Picker, index: int, begin: int, addr: Addr, i: nat)
    requires i < |s.pieces|
    ensures var c := Complete(s, index, begin, addr);
            && |c.picker.pieces| == |s.pieces|
            && (c.picker.pieces[i].done <==> s.pieces[i].done || (c.pieceDone && i == index))
            && (c.pieceDone && i == index ==> !s.pieces[i].done)
  {
  }

  lemma LogGrows(t: Torrent, s: Picker, log: seq<Verdict>, s': Picker, v: Verdict)
    requires t.Valid() && LogOk(t, s, log) && VerdictOk(t, v)
    requires |s'.pieces| == |s.pieces| && v.index < |s.pieces| && !s.pieces[v.index].done
    requires forall i :: 0 <= i < |s.pieces| ==> (s'.pieces[i].done <==> s.pieces[i].done || i == v.index)
    ensures LogOk(t, s', log + [v])
  {
    var log' := log + [v];
    forall i | 0 <= i < |s'.pieces|
      ensures s'.pieces[i].done <==> exists k :: 0 <= k < |log'| && log'[k].index == i
    {
      assert log'[|log|] == v;
      if s.pieces[i].done {
        var k :| 0 <= k < |log| && log[k].index == i;
        assert log'[k] == log[k];
      }
    }
    forall k | 0 <= k < |log|
      ensures log'[k].index != v.index
    {
      assert log[k].index == log'[k].index;
    }
  }

  lemma PieceKeepsInv(t: Torrent, m: Manager, addr: Addr, payload: Bytes)
    requires ManagerInv(t, m) && |payload| >= 8
    ensures ManagerInv(t, PieceArrived(t, m, addr, payload))
  {
    var s, index, begin := m.picker, Uint32(payload, 0), Uint32(payload, 4);
    var c := Complete(s, index, begin, addr);
    var m1 := AfterCount(m, addr, payload);
    CompleteKeepsInv(s, index, begin, addr, t.length, t.pieceLength);
    ReportMeaning(s, index, begin, addr, t.length, t.pieceLength);
    CountedBufs(t, m, addr, payload);
    forall i | 0 <= i < |s.pieces|
      ensures c.picker.pieces[i].done <==> s.pieces[i].done || (c.pieceDone && i == index)
    {
      OtherFlags(s, index, begin, addr, i);
    }
    if c.pieceDone {
      OtherFlags(s, index, begin, addr, index);
      DonePieceKeepsInv(t, m, addr, payload);
    } else {
      ProgressClosesLog(t, m, c.picker);
    }
  }

  lemma ProgressClosesLog(t: Torrent, m: Manager, s': Picker)
    requires ManagerInv(t, m) && |s'.pieces| == |m.picker.pieces|
    requires forall i :: 0 <= i < |s'.pieces| ==> s'.pieces[i].done == m.picker.pieces[i].done
    ensures LogOk(t, s', m.log) && ClosesOk(s', m.doneCloses)
  {
  }

  /** The state after a verdict, and its parts. */
  lemma DonePieceInv(t: Torrent, m: Manager, m1: Manager, v: Verdict, m': Manager)
    requires ManagerInv(t, m) && Inv(m1.picker, t.length, t.pieceLength) && BufsOk(m1.picker, m1.pieceBufs)
    requires LogOk(t, m1.picker, m.log + [v]) && v.index < |m1.picker.pieces| && m1.picker.pieces[v.index].done
    requires m' == m.(picker := m1.picker, pieceBufs := m1.pieceBufs - {v.index}, log := m.log + [v],
             doneCloses := m'.doneCloses)
    requires ClosesOk(m'.picker, m'.doneCloses)
    ensures ManagerInv(t, m')
  {
  }

  lemma DonePieceKeepsInv(t: Torrent, m: Manager, addr: Addr, payload: Bytes)
    requires ManagerInv(t, m) && |payload| >= 8
    requires var c := Complete(m.picker, Uint32(payload, 0), Uint32(payload, 4), addr);
             && c.pieceDone && Inv(c.picker, t.length, t.pieceLength)
             && Accepts(m.picker, Uint32(payload, 0), Uint32(payload, 4))
             && (c.torrentDone <==> AllDone(c.picker))
             && forall i :: 0 <= i < |m.picker.pieces| ==>
                  (c.picker.pieces[i].done <==> m.picker.pieces[i].done || i == Uint32(payload, 0))
    requires BufsOk(AfterCount(m, addr, payload).picker, AfterCount(m, addr, payload).pieceBufs)
    ensures ManagerInv(t, PieceArrived(t, m, addr, payload))
  {
    var index := Uint32(payload, 0);
    var m1 := AfterCount(m, addr, payload);
    var v := DonePieceVerdict(t, m, addr, payload);
    LogGrows(t, m.picker, m.log, m1.picker, v);
    DonePieceInv(t, m, m1, v, PieceArrived(t, m, addr, payload));
  }

  lemma DonePieceVerdict(t: Torrent, m: Manager, addr: Addr, payload: Bytes) returns (v: Verdict)
    requires ManagerInv(t, m) && |payload| >= 8 && Accepts(m.picker, Uint32(payload, 0), Uint32(payload, 4))
    requires var c := Complete(m.picker, Uint32(payload, 0), Uint32(payload, 4), addr);
             c.pieceDone && Inv(c.picker, t.length, t.pieceLength)
    ensures v.index == Uint32(payload, 0) && VerdictOk(t, v)
    ensures var m1 := AfterCount(m, addr, payload);
            VerifyAndWrite(t, m1, v.index) == m1.(pieceBufs := m1.pieceBufs - {v.index}, log := m.log + [v])
  {
    var index := Uint32(payload, 0);
    var m1 := AfterCount(m, addr, payload);
    forall b | 0 <= b < |m1.picker.pieces[index].blocks|
      ensures b * BLOCK_SIZE in m1.pieceBufs[index]
    {
      BufferedAll(t, m, addr, payload, b);
    }
    VerdictReached(t, m1, index);
    var m2 := VerifyAndWrite(t, m1, index);
    v := m2.log[|m.log|];
    assert m2.log == m.log + [v];
  }

  // ----- Runs

  lemma StartOk(t: Torrent)
    requires t.Valid()
    ensures ManagerInv(t, Start(t))
  {
    FreshOk(t.length, t.pieceLength);
    assert forall i :: 0 <= i < t.Count() ==> !FreshPiece(t.length, t.pieceLength, i).done;
  }

  lemma ManagerStepKeepsInv(t: Torrent, m: Manager, e: Event, m': Manager)
    requires ManagerInv(t, m) && ManagerStep(t, m, e, m')
    ensures ManagerInv(t, m')
  {
    if e.PieceMessage? {
      if |e.payload| >= 8 {
        PieceKeepsInv(t, m, e.addr, e.payload);
      }
    } else {
      QuietKeepsInv(t, m, e, m');
    }
  }

  /** The invariant holds in every state of every run, whatever the peers send and in whatever order. */
  lemma {:induction false} RunKeepsManagerInv(t: Torrent, ms: seq<Manager>, es: seq<Event>, k: nat)
    requires t.Valid() && ManagerRun(t, ms, es) && k < |ms|
    ensures ManagerInv(t, ms[k])
  {
    if k == 0 {
      StartOk(t);
    } else {
      RunKeepsManagerInv(t, ms, es, k - 1);
      assert ManagerStepAt(t, ms, es, k - 1);
      ManagerStepKeepsInv(t, ms[k - 1], es[k - 1], ms[k]);
    }
  }

  // ----- What the invariant says of a run

  /** Piece i was completed by this event: its last block arrived. */
  predicate CompletesPiece(m: Manager, e: Event, i: nat) {
    && e.PieceMessage? && |e.payload| >= 8 && Uint32(e.payload, 0) == i
    && Complete(m.picker, i, Uint32(e.payload, 4), e.addr).pieceDone
  }

  /** The bytes that are checked when event e completes piece i, if all its blocks are buffered. */
  function Checked(t: Torrent, m: Manager, e: Event, i: nat): Option<Bytes>
    requires t.Valid() && i < t.Count() && CompletesPiece(m, e, i)
  {
    var len := PieceLength(t.length, t.pieceLength, i);
    Assembled(AfterCount(m, e.addr, e.payload).pieceBufs[i], len, BlockCount(len))
  }

  /**
   * One step and the log: it grows exactly when a piece completes, by the verdict on bytes that were all
   * there, so neither the missing-buffer nor the missing-block branch is ever taken.
   */
  lemma StepVerdict(t: Torrent, m: Manager, e: Event, m': Manager, i: nat)
    requires ManagerInv(t, m) && ManagerStep(t, m, e, m') && i < t.Count()
    ensures CompletesPiece(m, e, i) ==>
              var data := Checked(t, m, e, i);
              data.Some? &&
              m'.log == m.log + [if t.sha1(data.value) == t.Hash(i) then Wrote(i, data.value) else Rejected(i)]
    ensures !CompletesPiece(m, e, if e.PieceMessage? && |e.payload| >= 8 then Uint32(e.payload, 0) else 0) ==>
            m'.log == m.log
  {
    if CompletesPiece(m, e, i) {
      CompletedBuffers(t, m, e, i);
      var m1 := AfterCount(m, e.addr, e.payload);
      VerdictReached(t, m1, i);
      var m2 := VerifyAndWrite(t, m1, i);
      assert m2.log == m.log + [m2.log[|m.log|]];
    }
  }

  /** The bytes that the manager keeps for offset `begin` of piece i. */
  function Kept(bufs: PieceBufs, i: nat, begin: nat): Option<Bytes> {
    if i in bufs && begin in bufs[i] then Some(bufs[i][begin]) else None
  }

  lemma ArrivedBuffers(t: Torrent, m: Manager, addr: Addr, p: Bytes)
    requires ManagerInv(t, m) && |p| >= 8
    ensures var index, begin := Uint32(p, 0), Uint32(p, 4);
            var bufs := Buffered(m.pieceBufs, index, begin, p[8..]);
            PieceArrived(t, m, addr, p).pieceBufs ==
            if Complete(m.picker, index, begin, addr).pieceDone then bufs - {index} else bufs
  {
    var index := Uint32(p, 0);
    if Complete(m.picker, index, Uint32(p, 4), addr).pieceDone {
      CompletedBuffers(t, m, PieceMessage(addr, p), index);
      VerdictReached(t, AfterCount(m, addr, p), index);
    }
  }

  lemma KeptBuffered(bufs: PieceBufs, index: nat, begin: nat, block: Bytes, i: nat, at: nat)
    ensures Kept(Buffered(bufs, index, begin, block), i, at) ==
            if (i, at) == (index, begin) then Some(block) else Kept(bufs, i, at)
    ensures Kept(Buffered(bufs, index, begin, block) - {index}, i, at) == if i == index then None else Kept(bufs, i, at)
  {
  }

  /** A piece message is kept under its place, until its piece completes: then everything of the piece is let go. */
  lemma StepBuffers(t: Torrent, m: Manager, e: Event, m': Manager, i: nat, begin: nat)
    requires ManagerInv(t, m) && ManagerStep(t, m, e, m')
    ensures Kept(m'.pieceBufs, i, begin) ==
            if CompletesPiece(m, e, i) then None
            else if e.PieceMessage? && |e.payload| >= 8 && Uint32(e.payload, 0) == i && Uint32(e.payload, 4) == begin
            then Some(e.payload[8..])
            else Kept(m.pieceBufs, i, begin)
  {
    if e.PieceMessage? {
      if |e.payload| >= 8 {
        ArrivedBuffers(t, m, e.addr, e.payload);
        KeptBuffered(m.pieceBufs, Uint32(e.payload, 0), Uint32(e.payload, 4), e.payload[8..], i, begin);
      }
    } else {
      assert m'.pieceBufs == m.pieceBufs;
    }
  }

  /** When piece i completes, all its blocks are buffered. */
  lemma CompletedBuffers(t: Torrent, m: Manager, e: Event, i: nat)
    requires ManagerInv(t, m) && CompletesPiece(m, e, i) && i < t.Count()
    ensures var m1 := AfterCount(m, e.addr, e.payload);
            var len := PieceLength(t.length, t.pieceLength, i);
            && Inv(m1.picker, t.length, t.pieceLength) && m1.picker.pieces[i].done && i in m1.pieceBufs
            && |m1.picker.pieces[i].blocks| == BlockCount(len)
            && forall b :: 0 <= b < BlockCount(len) ==> b * BLOCK_SIZE in m1.pieceBufs[i]
  {
    var m1 := AfterCount(m, e.addr, e.payload);
    var len := PieceLength(t.length, t.pieceLength, i);
    CompleteKeepsInv(m.picker, i, Uint32(e.payload, 4), e.addr, t.length, t.pieceLength);
    assert PieceOk(m1.picker.pieces[i], i, len, m1.picker.peerPieces.Keys);
    forall b | 0 <= b < BlockCount(len)
      ensures b * BLOCK_SIZE in m1.pieceBufs[i]
    {
      BufferedAll(t, m, e.addr, e.payload, b);
    }
  }

  /** Piece i has verdict v in the log. */
  ghost predicate Settled(m: Manager, i: nat, v: Verdict) {
    v.index == i && v in m.log
  }

  ghost predicate HasVerdict(m: Manager, i: nat) {
    exists v :: Settled(m, i, v)
  }

  ghost predicate IsWritten(m: Manager, i: nat) {
    exists v :: Settled(m, i, v) && v.Wrote?
  }

  /**
   * In every state of every run: a piece has a verdict exactly when it is complete, and at most one; a
   * write carries the piece's length and digest; the done channel is closed at most once, and when it is
   * closed every piece has its verdict; and no connection tracks more than five requests.
   */
  lemma RunPartition(t: Torrent, ms: seq<Manager>, es: seq<Event>, k: nat)
    requires t.Valid() && ManagerRun(t, ms, es) && k < |ms|
    ensures var m := ms[k];
            && |m.picker.pieces| == t.Count()
            && (forall i :: 0 <= i < t.Count() ==> (m.picker.pieces[i].done <==> HasVerdict(m, i)))
            && (forall i, v, w :: Settled(m, i, v) && Settled(m, i, w) ==> v == w)
            && (forall v :: v in m.log ==> VerdictOk(t, v))
            && (forall a, b :: 0 <= a < b < |m.log| ==> m.log[a].index != m.log[b].index)
            && m.doneCloses <= 1
            && (m.doneCloses == 1 ==> forall i :: 0 <= i < t.Count() ==> HasVerdict(m, i))
            && (forall a :: a in m.clients ==> |m.clients[a].outstanding| <= 5)
  {
    RunKeepsManagerInv(t, ms, es, k);
    SettledOnce(t, ms[k]);
  }

  lemma SettledOnce(t: Torrent, m: Manager)
    requires ManagerInv(t, m)
    ensures forall i :: 0 <= i < t.Count() ==> (m.picker.pieces[i].done <==> HasVerdict(m, i))
    ensures forall i, v, w :: Settled(m, i, v) && Settled(m, i, w) ==> v == w
  {
    forall i | 0 <= i < t.Count()
      ensures m.picker.pieces[i].done <==> HasVerdict(m, i)
    {
      LoggedIsSettled(m, i);
    }
    forall i, v, w | Settled(m, i, v) && Settled(m, i, w)
      ensures v == w
    {
      OneVerdict(m.log, v, w);
    }
  }

  lemma LoggedIsSettled(m: Manager, i: nat)
    ensures (exists k :: 0 <= k < |m.log| && m.log[k].index == i) <==> HasVerdict(m, i)
  {
    if k :| 0 <= k < |m.log| && m.log[k].index == i {
      assert Settled(m, i, m.log[k]);
    }
    if v :| Settled(m, i, v) {
      var k :| 0 <= k < |m.log| && m.log[k] == v;
      assert m.log[k].index == i;
    }
  }

  lemma OneVerdict(log: seq<Verdict>, v: Verdict, w: Verdict)
    requires forall j, k :: 0 <= j < k < |log| ==> log[j].index != log[k].index
    requires v in log && w in log && v.index == w.index
    ensures v == w
  {
    var j :| 0 <= j < |log| && log[j] == v;
    var k :| 0 <= k < |log| && log[k] == w;
  }

  /** Two pieces occupy disjoint regions of the file. */
  lemma RegionsDisjoint(t: Torrent, i: nat, j: nat)
    requires t.Valid() && i < j < t.Count()
    ensures i * t.pieceLength + PieceLength(t.length, t.pieceLength, i) <= j * t.pieceLength
  {
    MulMonotone(i, j, t.pieceLength);
  }

  /** After the done channel was closed nothing more is written and it is not closed again. */
  lemma {:induction false} DoneIsFinal(t: Torrent, ms: seq<Manager>, es: seq<Event>, j: nat, k: nat)
    requires t.Valid() && ManagerRun(t, ms, es) && j <= k < |ms| && ms[j].doneCloses > 0
    ensures ms[k].log == ms[j].log && ms[k].doneCloses == 1
    decreases k
  {
    if j == k {
      ClosedOnce(t, ms, es, j);
    } else {
      DoneIsFinal(t, ms, es, j, k - 1);
      RunDoneStep(t, ms, es, k - 1);
    }
  }

  lemma ClosedOnce(t: Torrent, ms: seq<Manager>, es: seq<Event>, k: nat)
    requires t.Valid() && ManagerRun(t, ms, es) && k < |ms|
    ensures ms[k].doneCloses <= 1
  {
    RunKeepsManagerInv(t, ms, es, k);
  }

  lemma RunDoneStep(t: Torrent, ms: seq<Manager>, es: seq<Event>, k: nat)
    requires t.Valid() && ManagerRun(t, ms, es) && k < |es| && ms[k].doneCloses > 0
    ensures ms[k + 1].log == ms[k].log && ms[k + 1].doneCloses == 1
  {
    RunKeepsManagerInv(t, ms, es, k);
    assert ManagerStepAt(t, ms, es, k);
    DoneStep(t, ms[k], es[k], ms[k + 1]);
  }

  lemma DoneStep(t: Torrent, m: Manager, e: Event, m': Manager)
    requires ManagerInv(t, m) && ManagerStep(t, m, e, m') && m.doneCloses > 0
    ensures m'.log == m.log && m'.doneCloses == 1
  {
    if e.PieceMessage? && |e.payload| >= 8 {
      assert !Accepts(m.picker, Uint32(e.payload, 0), Uint32(e.payload, 4));
    }
  }

  // ----- Done does not mean verified

  /** Event e completes piece i with bytes whose digest is not the expected one. */
  ghost predicate Mismatch(t: Torrent, m: Manager, e: Event, i: nat)
    requires t.Valid() && i < t.Count()
  {
    CompletesPiece(m, e, i) && Checked(t, m, e, i).Some? && t.sha1(Checked(t, m, e, i).value) != t.Hash(i)
  }

  ghost predicate MismatchAt(t: Torrent, ms: seq<Manager>, es: seq<Event>, j: nat, i: nat)
    requires t.Valid() && j < |es| && j < |ms| && i < t.Count()
  {
    Mismatch(t, ms[j], es[j], i)
  }

  lemma {:induction false} RejectedHasMismatch(t: Torrent, ms: seq<Manager>, es: seq<Event>, k: nat, i: nat)
    returns (j: nat)
    requires t.Valid() && ManagerRun(t, ms, es) && k < |ms| && i < t.Count() && Rejected(i) in ms[k].log
    ensures j < k && MismatchAt(t, ms, es, j, i)
    decreases k
  {
    if k == 0 {
      assert false;
    }
    RunStepRejects(t, ms, es, k - 1, i);
    if Rejected(i) in ms[k - 1].log {
      j := RejectedHasMismatch(t, ms, es, k - 1, i);
    } else {
      j := k - 1;
    }
  }

  lemma {:induction false} MismatchRejects(t: Torrent, ms: seq<Manager>, es: seq<Event>, j: nat, k: nat, i: nat)
    requires t.Valid() && ManagerRun(t, ms, es) && j < k < |ms| && i < t.Count() && MismatchAt(t, ms, es, j, i)
    ensures Rejected(i) in ms[k].log
    decreases k
  {
    RunStepRejects(t, ms, es, k - 1, i);
    if j < k - 1 {
      MismatchRejects(t, ms, es, j, k - 1, i);
    }
  }

  /** A piece is refused for good exactly when some step so far completed it with a wrong digest. */
  lemma RejectedByMismatch(t: Torrent, ms: seq<Manager>, es: seq<Event>, k: nat, i: nat)
    requires t.Valid() && ManagerRun(t, ms, es) && k < |ms| && i < t.Count()
    ensures Rejected(i) in ms[k].log <==> exists j :: 0 <= j < k && MismatchAt(t, ms, es, j, i)
  {
    if Rejected(i) in ms[k].log {
      var j := RejectedHasMismatch(t, ms, es, k, i);
    }
    forall j | 0 <= j < k && MismatchAt(t, ms, es, j, i)
      ensures Rejected(i) in ms[k].log
    {
      MismatchRejects(t, ms, es, j, k, i);
    }
  }

  lemma RunStepRejects(t: Torrent, ms: seq<Manager>, es: seq<Event>, k: nat, i: nat)
    requires t.Valid() && ManagerRun(t, ms, es) && k < |es| && i < t.Count()
    ensures Rejected(i) in ms[k + 1].log <==> Rejected(i) in ms[k].log || MismatchAt(t, ms, es, k, i)
  {
    RunKeepsManagerInv(t, ms, es, k);
    assert ManagerStepAt(t, ms, es, k);
    StepRejects(t, ms[k], es[k], ms[k + 1], i);
  }

  lemma StepRejects(t: Torrent, m: Manager, e: Event, m': Manager, i: nat)
    requires ManagerInv(t, m) && ManagerStep(t, m, e, m') && i < t.Count()
    ensures Rejected(i) in m'.log <==> Rejected(i) in m.log || Mismatch(t, m, e, i)
  {
    StepVerdict(t, m, e, m', i);
    if e.PieceMessage? && |e.payload| >= 8 && CompletesPiece(m, e, Uint32(e.payload, 0)) {
      StepVerdict(t, m, e, m', Uint32(e.payload, 0));
    }
  }

  /** Once done is reported, piece i was written if and only if no step completed it with a wrong digest. */
  lemma DoneMeansVerifiedIff(t: Torrent, ms: seq<Manager>, es: seq<Event>, k: nat, i: nat)
    requires t.Valid() && ManagerRun(t, ms, es) && k < |ms| && ms[k].doneCloses > 0 && i < t.Count()
    ensures IsWritten(ms[k], i) <==> forall j :: 0 <= j < k ==> !MismatchAt(t, ms, es, j, i)
  {
    RejectedByMismatch(t, ms, es, k, i);
    WrittenOrRejected(t, ms, es, k, i);
  }

  lemma WrittenOrRejected(t: Torrent, ms: seq<Manager>, es: seq<Event>, k: nat, i: nat)
    requires t.Valid() && ManagerRun(t, ms, es) && k < |ms| && ms[k].doneCloses > 0 && i < t.Count()
    ensures IsWritten(ms[k], i) <==> Rejected(i) !in ms[k].log
  {
    var m := ms[k];
    RunPartition(t, ms, es, k);
    assert HasVerdict(m, i);
    var v :| Settled(m, i, v);
    assert v.Wrote? || v == Rejected(i);
    if Rejected(i) in m.log {
      assert Settled(m, i, Rejected(i));
    }
  }
}
