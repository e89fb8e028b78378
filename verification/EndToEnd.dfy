/** From an honest seeder's data to the downloaded file. */
module EndToEnd {
  import opened Arith
  import opened Bytes
  import opened Layout
  import opened Wire
  import opened PickerModel
  import opened ManagerModel
  import opened ManagerRuns
  import opened Seeder

  // ----- Storage

  /** WriteAt: a write past the end extends the file, with zeros in the gap. */
  function WriteAt(file: Bytes, offset: nat, data: Bytes): Bytes {
    var grown := if offset + |data| <= |file| then file else file + Zeros(offset + |data| - |file|);
    Overlay(grown, offset, data)
  }

  function Zeros(n: nat): (z: Bytes)
    ensures |z| == n && forall x :: 0 <= x < n ==> z[x] == 0
  {
    if n == 0 then [] else Zeros(n - 1) + [0]
  }

  /** The data is written at its offset, the rest stays as it was, and a gap reads as zeros. */
  lemma WriteAtIs(file: Bytes, offset: nat, data: Bytes)
    ensures var r := WriteAt(file, offset, data);
            && |r| == (if offset + |data| > |file| then offset + |data| else |file|)
            && forall x :: 0 <= x < |r| ==>
                 r[x] == if offset <= x < offset + |data| then data[x - offset] else if x < |file| then file[x] else 0
  {
  }

  /** The storage loop over writes ws, starting from the file as allocated. */
  function Stored(pieceLen: nat, file: Bytes, ws: seq<PieceWrite>): Bytes
    decreases |ws|
  {
    if ws == [] then file else Stored(pieceLen, WriteAt(file, OffsetOf(ws[0].index, pieceLen), ws[0].data), ws[1..])
  }

  /** Where a piece begins in the file. */
  function OffsetOf(index: nat, pieceLen: nat): nat {
    index * pieceLen
  }

  /** The loop itself, writing piece after piece. */
  method StorageLoop(pieceLen: nat, file: Bytes, ws: seq<PieceWrite>) returns (r: Bytes)
    ensures r == Stored(pieceLen, file, ws)
  {
    r := file;
    for k := 0 to |ws|
      invariant Stored(pieceLen, r, ws[k..]) == Stored(pieceLen, file, ws)
    {
      StoredNext(pieceLen, r, ws, k);
      var offset := OffsetOf(ws[k].index, pieceLen);
      r := WriteAt(r, offset, ws[k].data);
    }
  }

  lemma StoredNext(pieceLen: nat, file: Bytes, ws: seq<PieceWrite>, k: nat)
    requires k < |ws|
    ensures Stored(pieceLen, file, ws[k..]) ==
            Stored(pieceLen, WriteAt(file, OffsetOf(ws[k].index, pieceLen), ws[k].data), ws[k + 1..])
  {
    assert ws[k..][1..] == ws[k + 1..];
  }

  lemma {:induction false} WritesOf(log: seq<Verdict>, w: PieceWrite)
    ensures w in Writes(log) <==> Wrote(w.index, w.data) in log
  {
    if log != [] {
      WritesOf(log[..|log| - 1], w);
      assert log == log[..|log| - 1] + [log[|log| - 1]];
    }
  }

  // ----- True writes rebuild the data

  /** w is piece w.index of the data, whole. */
  ghost predicate TrueWrite(t: Torrent, data: Bytes, w: PieceWrite)
    requires t.pieceLength > 0 && |data| == t.length
  {
    w.index < t.Count() && w.data == PieceBytes(data, t.pieceLength, w.index)
  }

  /** Offset x is in the region of piece i exactly when x / pieceLength is i. */
  lemma InRegion(t: Torrent, i: nat, x: nat)
    requires t.pieceLength > 0 && i < t.Count() && x < t.length
    ensures i * t.pieceLength <= x < i * t.pieceLength + PieceLength(t.length, t.pieceLength, i) <==>
            x / t.pieceLength == i
  {
    PieceOf(t.length, t.pieceLength, x);
    if i * t.pieceLength <= x < i * t.pieceLength + PieceLength(t.length, t.pieceLength, i) {
      QuotientUnique(x, i, t.pieceLength);
    }
  }

  lemma OneWrite(t: Torrent, data: Bytes, file: Bytes, w: PieceWrite, x: nat)
    requires t.pieceLength > 0 && |data| == |file| == t.length && TrueWrite(t, data, w) && x < t.length
    ensures var r := WriteAt(file, OffsetOf(w.index, t.pieceLength), w.data);
            |r| == t.length && r[x] == if x / t.pieceLength == w.index then data[x] else file[x]
  {
    InRegion(t, w.index, x);
  }

  ghost predicate Covers(pieceLen: nat, ws: seq<PieceWrite>, x: nat)
    requires pieceLen > 0
  {
    exists w :: w in ws && w.index == x / pieceLen
  }

  lemma OneWriteLength(t: Torrent, data: Bytes, file: Bytes, w: PieceWrite)
    requires t.pieceLength > 0 && |data| == |file| == t.length && TrueWrite(t, data, w)
    ensures |WriteAt(file, OffsetOf(w.index, t.pieceLength), w.data)| == t.length
  {
  }

  /** Offset x of the stored file: as in the data if a write covers it, otherwise as it was. */
  ghost predicate ByteStored(t: Torrent, data: Bytes, file: Bytes, ws: seq<PieceWrite>, x: nat)
    requires t.pieceLength > 0 && |data| == |file| == t.length && x < t.length
  {
    var r := Stored(t.pieceLength, file, ws);
    |r| == t.length && r[x] == if Covers(t.pieceLength, ws, x) then data[x] else file[x]
  }

  /** Whatever the order and repetition, covered bytes are right and the others untouched. */
  lemma {:induction false} StoredBytes(t: Torrent, data: Bytes, file: Bytes, ws: seq<PieceWrite>, x: nat)
    requires t.pieceLength > 0 && |data| == |file| == t.length && x < t.length
    requires forall w :: w in ws ==> TrueWrite(t, data, w)
    ensures ByteStored(t, data, file, ws, x)
    decreases |ws|
  {
    if ws != [] {
      var w, rest := ws[0], ws[1..];
      assert ws == [w] + rest;
      var next := WriteAt(file, OffsetOf(w.index, t.pieceLength), w.data);
      OneWrite(t, data, file, w, x);
      StoredBytes(t, data, next, rest, x);
      CoversCons(t.pieceLength, w, rest, x);
    }
  }

  lemma {:induction false} StoredLength(t: Torrent, data: Bytes, file: Bytes, ws: seq<PieceWrite>)
    requires t.pieceLength > 0 && |data| == |file| == t.length
    requires forall w :: w in ws ==> TrueWrite(t, data, w)
    ensures |Stored(t.pieceLength, file, ws)| == t.length
    decreases |ws|
  {
    if ws != [] {
      assert ws[0] in ws;
      OneWriteLength(t, data, file, ws[0]);
      StoredLength(t, data, WriteAt(file, OffsetOf(ws[0].index, t.pieceLength), ws[0].data), ws[1..]);
    }
  }

  lemma CoversCons(pieceLen: nat, w: PieceWrite, ws: seq<PieceWrite>, x: nat)
    requires pieceLen > 0
    ensures Covers(pieceLen, [w] + ws, x) <==> Covers(pieceLen, ws, x) || w.index == x / pieceLen
  {
    if Covers(pieceLen, ws, x) {
      var v :| v in ws && v.index == x / pieceLen;
      assert v in [w] + ws;
    }
    assert w in [w] + ws;
  }

  lemma StoredAll(t: Torrent, data: Bytes, file: Bytes, ws: seq<PieceWrite>)
    requires t.pieceLength > 0 && |data| == |file| == t.length
    requires forall w :: w in ws ==> TrueWrite(t, data, w)
    requires forall i :: 0 <= i < t.Count() ==> PieceWrite(i, PieceBytes(data, t.pieceLength, i)) in ws
    ensures Stored(t.pieceLength, file, ws) == data
  {
    StoredLength(t, data, file, ws);
    forall x | 0 <= x < t.length
      ensures Stored(t.pieceLength, file, ws)[x] == data[x]
    {
      AllCovered(t, data, ws, x);
      StoredBytes(t, data, file, ws, x);
    }
  }

  lemma AllCovered(t: Torrent, data: Bytes, ws: seq<PieceWrite>, x: nat)
    requires t.pieceLength > 0 && |data| == t.length && x < t.length
    requires forall i :: 0 <= i < t.Count() ==> PieceWrite(i, PieceBytes(data, t.pieceLength, i)) in ws
    ensures Covers(t.pieceLength, ws, x)
  {
    PieceOf(t.length, t.pieceLength, x);
    assert PieceWrite(x / t.pieceLength, PieceBytes(data, t.pieceLength, x / t.pieceLength)) in ws;
  }

  // ----- Honest runs

  /** The torrent's numbers fit the 32-bit fields of the wire. */
  predicate WireSized(t: Torrent) {
    0 < t.pieceLength < WORD && t.Count() <= WORD
  }

  /** The data cut into the torrent's pieces, whatever their digests. */
  ghost predicate Served(t: Torrent, data: Bytes, pieces: seq<Bytes>)
    requires t.Valid()
  {
    |data| == t.length && |pieces| == t.Count() && forall i :: 0 <= i < |pieces| ==>
      pieces[i] == PieceBytes(data, t.pieceLength, i)
  }

  /** The pieces a seeder loaded from the data. */
  ghost predicate Loaded(t: Torrent, data: Bytes, pieces: seq<Bytes>)
    requires t.Valid()
  {
    Holds(t, data) && Served(t, data, pieces)
  }

  /** The verdict that piece i of the data deserves. */
  function VerdictOn(t: Torrent, data: Bytes, i: nat): Verdict
    requires t.Valid() && |data| == t.length && i < t.Count()
  {
    var piece := PieceBytes(data, t.pieceLength, i);
    if t.sha1(piece) == t.Hash(i) then Wrote(i, piece) else Rejected(i)
  }

  /** A piece message is a seeder's answer to a request that was sent; other events are not constrained. */
  ghost predicate Honest(pieces: seq<Bytes>, m: Manager, e: Event) {
    e.PieceMessage? ==>
      exists r :: r in m.requests &&
        Serve(pieces, RequestPayload(r.index, r.begin, r.length)) == Send(Message(PIECE, e.payload))
  }

  ghost predicate HonestAt(pieces: seq<Bytes>, ms: seq<Manager>, es: seq<Event>, k: nat)
    requires k < |es| && k < |ms|
  {
    Honest(pieces, ms[k], es[k])
  }

  /** `block` is the block at offset `begin` of piece i. */
  ghost predicate TrueBlock(t: Torrent, data: Bytes, i: nat, begin: nat, block: Bytes)
    requires t.pieceLength > 0 && |data| == t.length
  {
    && i < t.Count()
    && begin % BLOCK_SIZE == 0
    && var len := PieceLength(t.length, t.pieceLength, i);
    && begin / BLOCK_SIZE < BlockCount(len)
    && block == PieceBytes(data, t.pieceLength, i)[begin..begin + BlockLength(len, begin / BLOCK_SIZE)]
  }

  ghost predicate HonestInv(t: Torrent, data: Bytes, m: Manager)
    requires t.Valid() && |data| == t.length
  {
    && (forall i, begin :: i in m.pieceBufs && begin in m.pieceBufs[i] ==>
      TrueBlock(t, data, i, begin, m.pieceBufs[i][begin]))
    && (forall v :: v in m.log ==> v.index < t.Count() && v == VerdictOn(t, data, v.index))
  }

  lemma RequestInPiece(t: Torrent, data: Bytes, r: Request)
    requires t.Valid() && |data| == t.length && RequestOk(t, r)
    ensures r.begin + r.length <= |PieceBytes(data, t.pieceLength, r.index)| <= t.pieceLength
    ensures TrueBlock(t, data, r.index, r.begin, PieceBytes(data, t.pieceLength, r.index)[r.begin..r.begin + r.length])
  {
  }

  /** The answer to a request for one of the torrent's blocks is that block, under its own name. */
  lemma AnswerIsTrue(t: Torrent, data: Bytes, pieces: seq<Bytes>, r: Request, payload: Bytes)
    requires t.Valid() && WireSized(t) && Served(t, data, pieces) && RequestOk(t, r)
    requires Serve(pieces, RequestPayload(r.index, r.begin, r.length)) == Send(Message(PIECE, payload))
    ensures |payload| >= 8 && Uint32(payload, 0) == r.index && Uint32(payload, 4) == r.begin
    ensures TrueBlock(t, data, r.index, r.begin, payload[8..])
  {
    RequestInPiece(t, data, r);
    AnswerIs(pieces, r, payload);
  }

  lemma AnswerIs(pieces: seq<Bytes>, r: Request, payload: Bytes)
    requires r.index < |pieces| <= WORD && r.begin + r.length <= |pieces[r.index]| < WORD
    requires Serve(pieces, RequestPayload(r.index, r.begin, r.length)) == Send(Message(PIECE, payload))
    ensures |payload| >= 8 && Uint32(payload, 0) == r.index && Uint32(payload, 4) == r.begin
    ensures payload[8..] == pieces[r.index][r.begin..r.begin + r.length]
  {
    var block := pieces[r.index][r.begin..r.begin + r.length];
    assert payload == PiecePayload(r.index, r.begin, block) by {
      ServesBlock(pieces, r.index, r.begin, r.length);
    }
    NamesItself(r.index, r.begin, block);
  }

  lemma NamesItself(index: nat, begin: nat, block: Bytes)
    requires index < WORD && begin < WORD
    ensures var p := PiecePayload(index, begin, block);
            Uint32(p, 0) == index && Uint32(p, 4) == begin && p[8..] == block
  {
    PieceParses(index, begin, block);
  }

  /** Assembling true blocks gives the piece, up to where the blocks reach. */
  lemma {:induction false} AssembledTrue(piece: Bytes, blocks: map<nat, Bytes>, n: nat)
    requires n <= BlockCount(|piece|)
    requires forall b :: 0 <= b < n ==> BlockBuffered(blocks, piece, b)
    ensures var r := Assembled(blocks, |piece|, n);
            r.Some? && forall x :: 0 <= x < |piece| && x < n * BLOCK_SIZE ==> r.value[x] == piece[x]
  {
    if n > 0 {
      AssembledTrue(piece, blocks, n - 1);
      assert BlockBuffered(blocks, piece, n - 1);
      OverlayTrue(piece, Assembled(blocks, |piece|, n - 1).value, n - 1);
    }
  }

  /** Block b of the piece is in the buffers. */
  predicate BlockBuffered(blocks: map<nat, Bytes>, piece: Bytes, b: nat)
    requires b < BlockCount(|piece|)
  {
    b * BLOCK_SIZE in blocks && blocks[b * BLOCK_SIZE] ==
      piece[b * BLOCK_SIZE..b * BLOCK_SIZE + BlockLength(|piece|, b)]
  }

  lemma OverlayTrue(piece: Bytes, buf: Bytes, b: nat)
    requires |buf| == |piece| && b < BlockCount(|piece|)
    requires forall x :: 0 <= x < |piece| && x < b * BLOCK_SIZE ==> buf[x] == piece[x]
    ensures var begin := b * BLOCK_SIZE;
            var r := Overlay(buf, begin, piece[begin..begin + BlockLength(|piece|, b)]);
            forall x :: 0 <= x < |piece| && x < (b + 1) * BLOCK_SIZE ==> r[x] == piece[x]
  {
    var begin := b * BLOCK_SIZE;
    var block := piece[begin..begin + BlockLength(|piece|, b)];
    forall x | begin <= x < |piece| && x < (b + 1) * BLOCK_SIZE
      ensures Overlay(buf, begin, block)[x] == piece[x]
    {
      assert block[x - begin] == piece[x];
    }
  }

  lemma HonestBuffers(t: Torrent, data: Bytes, m: Manager, addr: Addr, payload: Bytes)
    requires t.Valid() && |data| == t.length && HonestInv(t, data, m)
    requires |payload| >= 8 && TrueBlock(t, data, Uint32(payload, 0), Uint32(payload, 4), payload[8..])
    ensures HonestInv(t, data, AfterCount(m, addr, payload))
  {
  }

  /** If all blocks of piece i are buffered and true, they assemble to the piece. */
  lemma AssembledIsPiece(t: Torrent, data: Bytes, m: Manager, i: nat)
    requires t.Valid() && |data| == t.length && HonestInv(t, data, m) && i < t.Count() && i in m.pieceBufs
    requires var len := PieceLength(t.length, t.pieceLength, i);
             forall b :: 0 <= b < BlockCount(len) ==> b * BLOCK_SIZE in m.pieceBufs[i]
    ensures var len := PieceLength(t.length, t.pieceLength, i);
            Assembled(m.pieceBufs[i], len, BlockCount(len)) == Some(PieceBytes(data, t.pieceLength, i))
  {
    var piece := PieceBytes(data, t.pieceLength, i);
    forall b | 0 <= b < BlockCount(|piece|)
      ensures BlockBuffered(m.pieceBufs[i], piece, b)
    {
      assert b * BLOCK_SIZE in m.pieceBufs[i];
      BufferIsTrue(t, data, i, b, m.pieceBufs[i]);
    }
    AssembledTrue(piece, m.pieceBufs[i], BlockCount(|piece|));
    assert Assembled(m.pieceBufs[i], |piece|, BlockCount(|piece|)).value == piece;
  }

  lemma BufferIsTrue(t: Torrent, data: Bytes, i: nat, b: nat, blocks: map<nat, Bytes>)
    requires t.pieceLength > 0 && |data| == t.length && i < t.Count() && b * BLOCK_SIZE in blocks
    requires TrueBlock(t, data, i, b * BLOCK_SIZE, blocks[b * BLOCK_SIZE])
    ensures b < BlockCount(PieceLength(t.length, t.pieceLength, i)) &&
            BlockBuffered(blocks, PieceBytes(data, t.pieceLength, i), b)
  {
    assert b * BLOCK_SIZE / BLOCK_SIZE == b;
  }

  /** When true blocks complete a piece, the bytes checked are the piece, and it gets the verdict it deserves. */
  lemma HonestVerdict(t: Torrent, data: Bytes, m: Manager, e: Event, m': Manager, i: nat)
    requires ManagerInv(t, m) && ManagerStep(t, m, e, m') && |data| == t.length && i < t.Count()
    requires CompletesPiece(m, e, i) && HonestInv(t, data, AfterCount(m, e.addr, e.payload))
    ensures m'.log == m.log + [VerdictOn(t, data, i)]
  {
    StepVerdict(t, m, e, m', i);
    CompletedBuffers(t, m, e, i);
    AssembledIsPiece(t, data, AfterCount(m, e.addr, e.payload), i);
  }

  lemma HonestStep(t: Torrent, data: Bytes, pieces: seq<Bytes>, m: Manager, e: Event, m': Manager)
    requires ManagerInv(t, m) && WireSized(t) && Served(t, data, pieces) && HonestInv(t, data, m)
    requires ManagerStep(t, m, e, m') && Honest(pieces, m, e)
    ensures HonestInv(t, data, m')
  {
    if e.PieceMessage? {
      var r :| r in m.requests && Serve(pieces, RequestPayload(r.index, r.begin, r.length)) ==
        Send(Message(PIECE, e.payload));
      AnswerIsTrue(t, data, pieces, r, e.payload);
      HonestBuffers(t, data, m, e.addr, e.payload);
      if CompletesPiece(m, e, r.index) {
        HonestVerdict(t, data, m, e, m', r.index);
      }
      HonestPiece(t, data, m, e, m', r.index);
    }
  }

  lemma HonestPiece(t: Torrent, data: Bytes, m: Manager, e: Event, m': Manager, i: nat)
    requires ManagerInv(t, m) && |data| == t.length && HonestInv(t, data, m)
    requires ManagerStep(t, m, e, m') && e.PieceMessage? && |e.payload| >= 8 && i < t.Count() &&
             i == Uint32(e.payload, 0)
    requires HonestInv(t, data, AfterCount(m, e.addr, e.payload))
    requires CompletesPiece(m, e, i) ==> m'.log == m.log + [VerdictOn(t, data, i)]
    ensures HonestInv(t, data, m')
  {
    StepVerdict(t, m, e, m', i);
    var m1 := AfterCount(m, e.addr, e.payload);
    assert m'.pieceBufs == m1.pieceBufs || m'.pieceBufs == m1.pieceBufs - {i};
  }

  lemma {:induction false} HonestRun(t: Torrent, data: Bytes, pieces: seq<Bytes>, ms: seq<Manager>, es: seq<Event>,
                                     k: nat)
    requires t.Valid() && WireSized(t) && Served(t, data, pieces)
    requires ManagerRun(t, ms, es) && k < |ms|
    requires forall j :: 0 <= j < |es| ==> HonestAt(pieces, ms, es, j)
    ensures HonestInv(t, data, ms[k])
  {
    if k > 0 {
      HonestRun(t, data, pieces, ms, es, k - 1);
      assert HonestAt(pieces, ms, es, k - 1);
      HonestRunStep(t, data, pieces, ms, es, k - 1);
    }
  }

  lemma HonestRunStep(t: Torrent, data: Bytes, pieces: seq<Bytes>, ms: seq<Manager>, es: seq<Event>, k: nat)
    requires t.Valid() && WireSized(t) && Served(t, data, pieces)
    requires ManagerRun(t, ms, es) && k < |es| && HonestAt(pieces, ms, es, k) && HonestInv(t, data, ms[k])
    ensures HonestInv(t, data, ms[k + 1])
  {
    RunKeepsManagerInv(t, ms, es, k);
    assert ManagerStepAt(t, ms, es, k);
    HonestStep(t, data, pieces, ms[k], es[k], ms[k + 1]);
  }

  /** Once done is reported, every piece of whatever data was served has got the verdict it deserves. */
  lemma ServedVerdict(t: Torrent, data: Bytes, pieces: seq<Bytes>, ms: seq<Manager>, es: seq<Event>, k: nat, i: nat)
    requires t.Valid() && WireSized(t) && Served(t, data, pieces)
    requires ManagerRun(t, ms, es) && k < |ms| && ms[k].doneCloses > 0 && i < t.Count()
    requires forall j :: 0 <= j < |es| ==> HonestAt(pieces, ms, es, j)
    ensures VerdictOn(t, data, i) in ms[k].log
    ensures IsWritten(ms[k], i) <==> t.sha1(PieceBytes(data, t.pieceLength, i)) == t.Hash(i)
  {
    HonestRun(t, data, pieces, ms, es, k);
    RunPartition(t, ms, es, k);
    assert HasVerdict(ms[k], i);
    var v :| Settled(ms[k], i, v);
    assert forall w :: Settled(ms[k], i, w) ==> w == VerdictOn(t, data, i);
  }

  /**
   * End to end. Take any run in which every piece message is a seeder's answer to some request sent
   * before, in any order, any number of times, mixed with any time-outs, failures, peer changes, false
   * Have and bitfield messages. Once done is reported, the writes, stored in any order into a file of the
   * torrent's length, give exactly the seeder's data.
   */
  lemma Download(t: Torrent, data: Bytes, pieces: seq<Bytes>, ms: seq<Manager>, es: seq<Event>, k: nat,
                 ws: seq<PieceWrite>, file: Bytes)
    requires t.Valid() && WireSized(t) && Loaded(t, data, pieces)
    requires ManagerRun(t, ms, es) && k < |ms|
    requires forall j :: 0 <= j < |es| ==> HonestAt(pieces, ms, es, j)
    requires ms[k].doneCloses > 0
    requires multiset(ws) == multiset(Writes(ms[k].log)) && |file| == t.length
    ensures Stored(t.pieceLength, file, ws) == data
  {
    HonestRun(t, data, pieces, ms, es, k);
    RunPartition(t, ms, es, k);
    forall w | w in ws
      ensures TrueWrite(t, data, w)
    {
      assert w in multiset(ws);
      assert w in Writes(ms[k].log);
      WritesOf(ms[k].log, w);
    }
    forall i | 0 <= i < t.Count()
      ensures PieceWrite(i, PieceBytes(data, t.pieceLength, i)) in ws
    {
      assert HasVerdict(ms[k], i);
      var v :| Settled(ms[k], i, v);
      var w := PieceWrite(i, PieceBytes(data, t.pieceLength, i));
      WritesOf(ms[k].log, w);
      assert w in multiset(Writes(ms[k].log));
      assert w in multiset(ws);
    }
    StoredAll(t, data, file, ws);
  }

  /** In such a run no piece is ever refused. */
  lemma HonestNeverRejects(t: Torrent, data: Bytes, pieces: seq<Bytes>, ms: seq<Manager>, es: seq<Event>, k: nat,
                           i: nat)
    requires t.Valid() && WireSized(t) && Loaded(t, data, pieces)
    requires ManagerRun(t, ms, es) && k < |ms| && i < t.Count()
    requires forall j :: 0 <= j < |es| ==> HonestAt(pieces, ms, es, j)
    ensures Rejected(i) !in ms[k].log
  {
    HonestRun(t, data, pieces, ms, es, k);
  }
}
