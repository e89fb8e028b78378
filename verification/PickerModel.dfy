/** The piece picker as a value: what every picker method does to its state. */
module PickerModel {
  import opened Bytes
  import opened Layout

  type Addr = string

  datatype BlockState = Unrequested | Pending | Completed

  const ANY: set<BlockState> := {Unrequested, Pending, Completed}

  datatype Block = Block(index: nat, begin: nat, length: nat, state: BlockState, peer: Addr, sent: int)

  datatype Piece = Piece(index: nat, length: nat, blocks: seq<Block>, done: bool)

  datatype Picker = Picker(
    pieces: seq<Piece>,
    peerPieces: map<Addr, seq<bool>>,
    availability: seq<int>,
    totalBlocks: nat,
    pendingCount: int,
    completed: int,
    endGame: bool)

  // ----- Construction

  function FreshBlock(i: nat, len: nat, b: nat): Block
    requires b < BlockCount(len)
  {
    Block(i, b * BLOCK_SIZE, BlockLength(len, b), Unrequested, "", 0)
  }

  function FreshPiece(total: nat, pieceLen: nat, i: nat): Piece
    requires pieceLen > 0 && i < PieceCount(total, pieceLen)
  {
    var len := PieceLength(total, pieceLen, i);
    Piece(i, len, seq(BlockCount(len), b requires 0 <= b < BlockCount(len) => FreshBlock(i, len, b)), false)
  }

  function FreshPieces(total: nat, pieceLen: nat, n: nat): seq<Piece>
    requires pieceLen > 0 && n <= PieceCount(total, pieceLen)
  {
    seq(n, i requires 0 <= i < n => FreshPiece(total, pieceLen, i))
  }

  function Fresh(total: nat, pieceLen: nat): Picker
    requires pieceLen > 0
  {
    var n := PieceCount(total, pieceLen);
    var pieces := FreshPieces(total, pieceLen, n);
    Picker(pieces, map[], seq(n, _ => 0), Tally(pieces, ANY), 0, 0, false)
  }

  // ----- Counting blocks by state

  function TallyBlocks(bs: seq<Block>, st: set<BlockState>): nat {
    if bs == [] then 0
    else TallyBlocks(bs[..|bs| - 1], st) + if bs[|bs| - 1].state in st then 1 else 0
  }

  function Tally(ps: seq<Piece>, st: set<BlockState>): nat {
    if ps == [] then 0 else Tally(ps[..|ps| - 1], st) + TallyBlocks(ps[|ps| - 1].blocks, st)
  }

  // ----- Peers and what they have

  function Register(s: Picker, addr: Addr): Picker {
    s.(peerPieces := s.peerPieces[addr := seq(|s.pieces|, _ => false)])
  }

  /** 1 << j */
  function Bit(j: nat): (m: nat)
    requires j < 8
  {
    [1, 2, 4, 8, 16, 32, 64, 128][j]
  }

  /** x & (1 << j) != 0 */
  predicate HasBit(x: byte, j: nat)
    requires j < 8
  {
    x as int / Bit(j) % 2 == 1
  }

  /** Bit i of a bitfield, most significant bit first; bits past the end count as clear. */
  predicate BitSet(bits: Bytes, i: nat) {
    i / 8 < |bits| && HasBit(bits[i / 8], 7 - i % 8)
  }

  function Merged(bitmap: seq<bool>, bits: Bytes): (r: seq<bool>)
    ensures |r| == |bitmap|
  {
    seq(|bitmap|, i requires 0 <= i < |bitmap| => bitmap[i] || BitSet(bits, i))
  }

  /** Availability after a peer's bitmap went from `before` to `after`. */
  function Shifted(availability: seq<int>, before: seq<bool>, after: seq<bool>): (r: seq<int>)
    requires |availability| == |before| == |after|
    ensures |r| == |availability|
  {
    seq(|availability|, i requires 0 <= i < |availability| =>
      availability[i] + (if after[i] then 1 else 0) - (if before[i] then 1 else 0))
  }

  /** Every bitmap and the availability table cover exactly the pieces. */
  predicate Sized(s: Picker) {
    && |s.availability| == |s.pieces|
    && forall a :: a in s.peerPieces ==> |s.peerPieces[a]| == |s.pieces|
  }

  function Bitfield(s: Picker, addr: Addr, bits: Bytes): (r: Picker)
    requires Sized(s)
    ensures Sized(r)
  {
    if addr !in s.peerPieces then s
    else
      var bitmap := s.peerPieces[addr];
      s.(peerPieces := s.peerPieces[addr := Merged(bitmap, bits)],
         availability := Shifted(s.availability, bitmap, Merged(bitmap, bits)))
  }

  function Have(s: Picker, addr: Addr, i: int): (r: Picker)
    requires Sized(s)
    ensures Sized(r)
  {
    if addr in s.peerPieces && 0 <= i < |s.pieces| && !s.peerPieces[addr][i] then
      s.(peerPieces := s.peerPieces[addr := s.peerPieces[addr][i := true]],
         availability := s.availability[i := s.availability[i] + 1])
    else s
  }

  // ----- Taking requests back

  /** Why a Pending block is taken back: its peer left, or it was sent too long ago. */
  datatype Reason = PeerLeft(addr: Addr) | Stale(now: int, timeout: int)

  predicate Reclaimable(block: Block, why: Reason) {
    block.state == Pending &&
    match why
    case PeerLeft(addr) => block.peer == addr
    case Stale(now, timeout) => now - block.sent > timeout
  }

  function TakeBack(block: Block): Block {
    block.(state := Unrequested, peer := "")
  }

  function ReclaimBlock(block: Block, why: Reason): Block {
    if Reclaimable(block, why) then TakeBack(block) else block
  }

  /** The first n blocks reclaimed, the others as they were. */
  function ReclaimBlocks(bs: seq<Block>, why: Reason, n: nat): (r: seq<Block>)
    requires n <= |bs|
    ensures |r| == |bs|
  {
    seq(|bs|, b requires 0 <= b < |bs| => if b < n then ReclaimBlock(bs[b], why) else bs[b])
  }

  function ReclaimPiece(p: Piece, why: Reason): Piece {
    if p.done then p else p.(blocks := ReclaimBlocks(p.blocks, why, |p.blocks|))
  }

  function ReclaimPieces(ps: seq<Piece>, why: Reason, n: nat): (r: seq<Piece>)
    requires n <= |ps|
    ensures |r| == |ps|
  {
    seq(|ps|, i requires 0 <= i < |ps| => if i < n then ReclaimPiece(ps[i], why) else ps[i])
  }

  /** Replaces the pieces and lowers the pending counter by the Pending blocks lost. */
  function WithPieces(s: Picker, ps: seq<Piece>): Picker {
    s.(pieces := ps, pendingCount := s.pendingCount - (Tally(s.pieces, {Pending}) - Tally(ps, {Pending})))
  }

  function Reclaim(s: Picker, why: Reason): Picker {
    WithPieces(s, ReclaimPieces(s.pieces, why, |s.pieces|))
  }

  function Unregister(s: Picker, addr: Addr): (r: Picker)
    requires Sized(s)
    ensures Sized(r)
  {
    var gone :=
      if addr !in s.peerPieces then s
      else s.(peerPieces := s.peerPieces - {addr},
              availability := Shifted(s.availability, s.peerPieces[addr], seq(|s.pieces|, _ => false)));
    Reclaim(gone, PeerLeft(addr))
  }

  /** Index of the first block at offset `begin`, or the number of blocks. */
  function FindBlock(bs: seq<Block>, begin: int): (k: nat)
    ensures k <= |bs|
    ensures forall j :: 0 <= j < k ==> bs[j].begin != begin
    ensures k < |bs| ==> bs[k].begin == begin
  {
    if bs == [] || bs[0].begin == begin then 0 else 1 + FindBlock(bs[1..], begin)
  }

  function SetBlock(ps: seq<Piece>, i: nat, b: nat, block: Block): (r: seq<Piece>)
    requires i < |ps| && b < |ps[i].blocks|
    ensures |r| == |ps|
  {
    ps[i := ps[i].(blocks := ps[i].blocks[b := block])]
  }

  /** The block a (piece, offset) pair names, if there is one. */
  predicate Names(s: Picker, i: int, begin: int) {
    0 <= i < |s.pieces| && FindBlock(s.pieces[i].blocks, begin) < |s.pieces[i].blocks|
  }

  function Named(s: Picker, i: int, begin: int): (b: nat)
    requires Names(s, i, begin)
    ensures b < |s.pieces[i].blocks| && s.pieces[i].blocks[b].begin == begin
  {
    FindBlock(s.pieces[i].blocks, begin)
  }

  function Fail(s: Picker, i: int, begin: int): Picker {
    if !Names(s, i, begin) || s.pieces[i].blocks[Named(s, i, begin)].state != Pending then s
    else
      var b := Named(s, i, begin);
      s.(pieces := SetBlock(s.pieces, i, b, TakeBack(s.pieces[i].blocks[b])), pendingCount := s.pendingCount - 1)
  }

  // ----- Completing blocks

  datatype Completion = Completion(picker: Picker, index: int, pieceDone: bool, torrentDone: bool)

  predicate AllCompleted(bs: seq<Block>) {
    forall b :: 0 <= b < |bs| ==> bs[b].state == Completed
  }

  /** A piece message for (i, begin) counts: it names a block that is not Completed yet. */
  predicate Accepts(s: Picker, i: int, begin: int) {
    && Names(s, i, begin)
    && !s.pieces[i].done
    && s.pieces[i].blocks[Named(s, i, begin)].state != Completed
  }

  function Complete(s: Picker, i: int, begin: int, addr: Addr): Completion {
    if !Accepts(s, i, begin) then Completion(s, -1, false, false)
    else
      var b := Named(s, i, begin);
      var block := s.pieces[i].blocks[b];
      var ps := SetBlock(s.pieces, i, b, block.(state := Completed, peer := addr));
      var pieceDone := AllCompleted(ps[i].blocks);
      var s' := s.(
        pieces := ps[i := ps[i].(done := pieceDone)],
        pendingCount := s.pendingCount - (if block.state == Pending then 1 else 0),
        completed := s.completed + 1);
      Completion(s', i, pieceDone, s'.completed == s'.totalBlocks)
  }

  // ----- Choosing the next block

  /** Index of the first block in state st, or the number of blocks. */
  function FirstIn(bs: seq<Block>, st: BlockState): (k: nat)
    ensures k <= |bs|
    ensures forall j :: 0 <= j < k ==> bs[j].state != st
    ensures k < |bs| ==> bs[k].state == st
  {
    if bs == [] || bs[0].state == st then 0 else 1 + FirstIn(bs[1..], st)
  }

  predicate HasBlock(p: Piece, st: BlockState) {
    FirstIn(p.blocks, st) < |p.blocks|
  }

  /** Piece i is incomplete and the peer has it. */
  predicate IsCandidate(s: Picker, addr: Addr, i: nat)
    requires Sized(s)
  {
    i < |s.pieces| && !s.pieces[i].done && addr in s.peerPieces && s.peerPieces[addr][i]
  }

  /** Piece i is a candidate with a block in state st. */
  predicate Offers(s: Picker, addr: Addr, st: BlockState, i: nat)
    requires Sized(s)
  {
    IsCandidate(s, addr, i) && HasBlock(s.pieces[i], st)
  }

  /** End-game after the call: already on, or the peer's incomplete pieces have nothing unrequested. */
  ghost predicate EndGameAfter(s: Picker, addr: Addr)
    requires Sized(s)
  {
    s.endGame ||
    ((exists i :: IsCandidate(s, addr, i)) && (forall i :: !Offers(s, addr, Unrequested, i)) &&
      s.completed < s.totalBlocks)
  }

  /** Piece i offers a block in state st and no piece that does is rarer. Ties are left open, as by sort.Slice. */
  ghost predicate Rarest(s: Picker, addr: Addr, st: BlockState, i: nat)
    requires Sized(s)
  {
    Offers(s, addr, st, i) && forall j: nat :: Offers(s, addr, st, j) ==> s.availability[i] <= s.availability[j]
  }

  /** The state after granting the first suitable block of piece i; in end-game only its time stamp moves. */
  function Granted(s: Picker, addr: Addr, now: int, i: nat): Picker
    requires i < |s.pieces| && HasBlock(s.pieces[i], if s.endGame then Pending else Unrequested)
  {
    if s.endGame then
      var b := FirstIn(s.pieces[i].blocks, Pending);
      s.(pieces := SetBlock(s.pieces, i, b, s.pieces[i].blocks[b].(sent := now)))
    else
      var b := FirstIn(s.pieces[i].blocks, Unrequested);
      s.(pieces := SetBlock(s.pieces, i, b, s.pieces[i].blocks[b].(state := Pending, peer := addr, sent := now)),
         pendingCount := s.pendingCount + 1)
  }

  /** A call of NextBlock may take s to s' and return r. */
  ghost predicate NextBlock(s: Picker, addr: Addr, now: int, s': Picker, r: Option<Block>)
    requires Sized(s)
  {
    var mid := s.(endGame := EndGameAfter(s, addr));
    var want := if mid.endGame then Pending else Unrequested;
    match r
    case None => (forall i :: !Offers(s, addr, want, i)) && s' == mid
    case Some(block) =>
      && Rarest(s, addr, want, block.index)
      && s' == Granted(mid, addr, now, block.index)
      && block == s'.pieces[block.index].blocks[FirstIn(s.pieces[block.index].blocks, want)]
  }

  // ----- Runs

  datatype Op =
    | RegisterPeer(addr: Addr)
    | UnregisterPeer(addr: Addr)
    | PeerBitfield(addr: Addr, bits: Bytes)
    | PeerHave(addr: Addr, index: int)
    | Next(addr: Addr, now: int, granted: Option<Block>)
    | MarkCompleted(index: int, begin: int, addr: Addr)
    | MarkFailed(index: int, begin: int)
    | ReclaimStalled(now: int, timeout: int)

  ghost predicate Step(s: Picker, op: Op, s': Picker)
    requires Sized(s)
  {
    match op
    case RegisterPeer(a) => s' == Register(s, a)
    case UnregisterPeer(a) => s' == Unregister(s, a)
    case PeerBitfield(a, bits) => s' == Bitfield(s, a, bits)
    case PeerHave(a, i) => s' == Have(s, a, i)
    case Next(a, now, r) => NextBlock(s, a, now, s', r)
    case MarkCompleted(i, begin, a) => s' == Complete(s, i, begin, a).picker
    case MarkFailed(i, begin) => s' == Fail(s, i, begin)
    case ReclaimStalled(now, timeout) => s' == Reclaim(s, Stale(now, timeout))
  }

  ghost predicate StepAt(ss: seq<Picker>, ops: seq<Op>, k: nat)
    requires k < |ops| && k + 1 < |ss|
  {
    Sized(ss[k]) && Step(ss[k], ops[k], ss[k + 1])
  }

  /** States before, between and after the operations, each joined to the next by its step. */
  ghost predicate Path(ss: seq<Picker>, ops: seq<Op>) {
    && |ss| == |ops| + 1
    && forall k :: 0 <= k < |ops| ==> StepAt(ss, ops, k)
  }

  /** A path that starts from a new picker. */
  ghost predicate Run(total: nat, pieceLen: nat, ss: seq<Picker>, ops: seq<Op>)
    requires pieceLen > 0
  {
    Path(ss, ops) && ss[0] == Fresh(total, pieceLen)
  }
}
