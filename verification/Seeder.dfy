/** The serving side: loading pieces, advertising them, answering requests. */
module Seeder {
  import opened Arith
  import opened Bytes
  import opened Layout
  import opened Wire
  import opened PickerModel

  // ----- Loading

  /** The data has the torrent's length and every piece has the digest the torrent lists. */
  ghost predicate Holds(t: Torrent, data: Bytes)
    requires t.Valid()
  {
    |data| == t.length && forall i :: 0 <= i < t.Count() ==> t.sha1(PieceBytes(data, t.pieceLength, i)) == t.Hash(i)
  }

  /** LoadPieces, from the bytes read: the pieces in order, or nothing when length or a digest is wrong. */
  method LoadPieces(t: Torrent, rawData: Bytes) returns (r: Option<seq<Bytes>>)
    requires t.Valid()
    ensures r.Some? <==> Holds(t, rawData)
    ensures r.Some? ==> |r.value| == t.Count() && forall i :: 0 <= i < t.Count() ==>
            r.value[i] == PieceBytes(rawData, t.pieceLength, i)
  {
    if |rawData| != t.length {
      return None;
    }
    var pieces: seq<Bytes> := [];
    for i := 0 to t.Count()
      invariant |pieces| == i
      invariant forall j :: 0 <= j < i ==>
                pieces[j] == PieceBytes(rawData, t.pieceLength, j) && t.sha1(pieces[j]) == t.Hash(j)
    {
      PieceCountBounds(t.length, t.pieceLength, i);
      var start := i * t.pieceLength;
      var end := start + t.pieceLength;
      if end > |rawData| {
        end := |rawData|;
      }
      var piece := rawData[start..end];
      assert piece == PieceBytes(rawData, t.pieceLength, i);
      if t.sha1(piece) != t.Hash(i) {
        return None;
      }
      pieces := pieces + [piece];
    }
    r := Some(pieces);
  }

  // ----- Advertising

  /** x | (1 << j), for a bit that is clear. */
  lemma SetBitEffect(x: byte, j: nat, k: nat)
    requires j < 8 && k < 8 && !HasBit(x, j)
    ensures x as int + Bit(j) < 0x100
    ensures HasBit((x as int + Bit(j)) as byte, k) <==> k == j || HasBit(x, k)
  {
    SetBitBound(x, j);
    var y := x as int + Bit(j);
    if j < k {
      HigherBit(x as int, j, k);
    } else if k < j {
      LowerBit(x as int, j, k);
    }
  }

  lemma SetBitBound(x: byte, j: nat)
    requires j < 8 && !HasBit(x, j)
    ensures x as int + Bit(j) < 0x100
    ensures (x as int + Bit(j)) / Bit(j) % 2 == 1
  {
    match j
    case 0 => Set1(x as int);
    case 1 => Set2(x as int);
    case 2 => Set4(x as int);
    case 3 => Set8(x as int);
    case 4 => Set16(x as int);
    case 5 => Set32(x as int);
    case 6 => Set64(x as int);
    case 7 => Set128(x as int);
  }

  lemma Set1(x: nat)
    requires x < 0x100 && x / 1 % 2 == 0
    ensures x + 1 < 0x100 && (x + 1) / 1 % 2 == 1
  {
  }

  lemma Set2(x: nat)
    requires x < 0x100 && x / 2 % 2 == 0
    ensures x + 2 < 0x100 && (x + 2) / 2 % 2 == 1
  {
  }

  lemma Set4(x: nat)
    requires x < 0x100 && x / 4 % 2 == 0
    ensures x + 4 < 0x100 && (x + 4) / 4 % 2 == 1
  {
  }

  lemma Set8(x: nat)
    requires x < 0x100 && x / 8 % 2 == 0
    ensures x + 8 < 0x100 && (x + 8) / 8 % 2 == 1
  {
  }

  lemma Set16(x: nat)
    requires x < 0x100 && x / 16 % 2 == 0
    ensures x + 16 < 0x100 && (x + 16) / 16 % 2 == 1
  {
  }

  lemma Set32(x: nat)
    requires x < 0x100 && x / 32 % 2 == 0
    ensures x + 32 < 0x100 && (x + 32) / 32 % 2 == 1
  {
  }

  lemma Set64(x: nat)
    requires x < 0x100 && x / 64 % 2 == 0
    ensures x + 64 < 0x100 && (x + 64) / 64 % 2 == 1
  {
  }

  lemma Set128(x: nat)
    requires x < 0x100 && x / 128 % 2 == 0
    ensures x + 128 < 0x100 && (x + 128) / 128 % 2 == 1
  {
  }

  lemma HigherBit(x: nat, j: nat, k: nat)
    requires j < k < 8 && x / Bit(j) % 2 == 0
    ensures (x + Bit(j)) / Bit(k) == x / Bit(k)
  {
    assert Bit(k) == 2 * Bit(j) * Bit(k - j - 1);
    CarryStops(x, Bit(j), Bit(k - j - 1));
  }

  lemma CarryStops(x: nat, m: nat, c: nat)
    requires m > 0 && c > 0 && x / m % 2 == 0
    ensures (x + m) / (2 * m * c) == x / (2 * m * c)
  {
    var g, l := x / m / 2, x % m;
    assert x == x / m * m + l;
    assert x / m * m == g * (2 * m);
    QuotientUnique(x, g, 2 * m);
    QuotientUnique(x + m, g, 2 * m);
    DivDiv(x, 2 * m, c);
    DivDiv(x + m, 2 * m, c);
  }

  lemma LowerBit(x: nat, j: nat, k: nat)
    requires k < j < 8
    ensures (x + Bit(j)) / Bit(k) % 2 == x / Bit(k) % 2
  {
    BitIsMultiple(j, k);
    EvenMultiple(x, Bit(k), Bit(j - k - 1));
  }

  lemma BitIsMultiple(j: nat, k: nat)
    requires k < j < 8
    ensures Bit(j) == 2 * Bit(j - k - 1) * Bit(k)
  {
  }

  lemma EvenMultiple(x: nat, m: nat, c: nat)
    requires m > 0
    ensures (x + 2 * c * m) / m % 2 == x / m % 2
  {
    var q := x / m;
    assert x == q * m + x % m;
    assert (q + 2 * c) * m == q * m + 2 * c * m;
    QuotientUnique(x + 2 * c * m, q + 2 * c, m);
  }

  /** BuildBitfield: the first numPieces bits set, the padding clear. */
  method BuildBitfield(numPieces: nat) returns (bits: Bytes)
    ensures |bits| == (numPieces + 7) / 8
    ensures forall i :: 0 <= i < 8 * |bits| ==> (BitSet(bits, i) <==> i < numPieces)
  {
    var field := new byte[(numPieces + 7) / 8](_ => 0);
    for i := 0 to numPieces
      invariant forall k :: 0 <= k < 8 * field.Length ==> (BitSet(field[..], k) <==> k < i)
    {
      var b, j := i / 8, 7 - i % 8;
      ghost var before := field[..];
      assert !BitSet(before, i);
      SetBitBound(field[b], j);
      field[b] := field[b] + Bit(j) as byte;
      forall k | 0 <= k < 8 * field.Length
        ensures BitSet(field[..], k) <==> k < i + 1
      {
        assert BitSet(before, k) <==> k < i;
        if k / 8 == b {
          SetBitEffect(before[b], j, 7 - k % 8);
        }
      }
    }
    bits := field[..];
  }

  /** A peer that sent the seeder's bitfield is recorded as having every piece. */
  lemma SeederHasAll(s: Picker, a: Addr, bits: Bytes)
    requires Sized(s) && a in s.peerPieces
    requires |bits| == (|s.pieces| + 7) / 8
    requires forall i :: 0 <= i < 8 * |bits| ==> (BitSet(bits, i) <==> i < |s.pieces|)
    ensures forall i :: 0 <= i < |s.pieces| ==> Bitfield(s, a, bits).peerPieces[a][i]
  {
    forall i | 0 <= i < |s.pieces|
      ensures Merged(s.peerPieces[a], bits)[i]
    {
      assert BitSet(bits, i);
    }
  }

  // ----- Serving

  /** What the handler does with one message: nothing, a reply, or a slice out of range. */
  datatype Answer = Silent | Send(message: Message) | Panics

  /** The request branch of handlePeer. The bound is computed in 32 bits. */
  function Serve(pieces: seq<Bytes>, payload: Bytes): Answer {
    if |payload| < 12 then Silent
    else
      var index, begin, length := Uint32(payload, 0), Uint32(payload, 4), Uint32(payload, 8);
      var end := (begin + length) % WORD;
      if index >= |pieces| || end > |pieces[index]| then Silent
      else if begin > end then Panics
      else Send(Message(PIECE, PiecePayload(index, begin, pieces[index][begin..end])))
  }

  datatype Handled = Handled(interested: bool, answer: Answer)

  function Handle(pieces: seq<Bytes>, interested: bool, m: Message): Handled {
    if m.KeepAlive? then Handled(interested, Silent)
    else if m.id == INTERESTED then Handled(true, Send(Message(UNCHOKE, [])))
    else if m.id == NOT_INTERESTED then Handled(false, Send(Message(CHOKE, [])))
    else if m.id == REQUEST && interested then Handled(true, Serve(pieces, m.payload))
    else Handled(interested, Silent)
  }

  /** Everything sent in answer to a sequence of messages. */
  function Conversation(pieces: seq<Bytes>, interested: bool, ms: seq<Message>): seq<Message>
    decreases |ms|
  {
    if ms == [] then []
    else
      var h := Handle(pieces, interested, ms[0]);
      match h.answer
      case Silent => Conversation(pieces, h.interested, ms[1..])
      case Send(r) => [r] + Conversation(pieces, h.interested, ms[1..])
      case Panics => []
  }

  /** The message loop of handlePeer after the handshake. */
  method HandlePeer(pieces: seq<Bytes>, ms: seq<Message>) returns (sent: seq<Message>)
    ensures sent == Conversation(pieces, false, ms)
  {
    sent := [];
    var peerInterested := false;
    for k := 0 to |ms|
      invariant Conversation(pieces, false, ms) == sent + Conversation(pieces, peerInterested, ms[k..])
    {
      assert ms[k..][1..] == ms[k + 1..];
      var h := Handle(pieces, peerInterested, ms[k]);
      peerInterested := h.interested;
      match h.answer
      case Silent =>
      case Send(r) => sent := sent + [r];
      case Panics => return;
    }
  }

  /** The peer is unchoked at the end of ms if its last change of interest was to interested. */
  function InterestedAfter(ms: seq<Message>): bool {
    if ms == [] then false
    else
      var m := ms[|ms| - 1];
      if m.Message? && m.id == INTERESTED then true
      else if m.Message? && m.id == NOT_INTERESTED then false
      else InterestedAfter(ms[..|ms| - 1])
  }

  /** m is a request that a run of messages ms made the peer eligible to ask, and p answers it truly. */
  predicate Answers(pieces: seq<Bytes>, ms: seq<Message>, k: nat, p: Bytes)
    requires k < |ms|
  {
    && ms[k].Message? && ms[k].id == REQUEST && |ms[k].payload| >= 12 && InterestedAfter(ms[..k])
    && var index, begin, length := Uint32(ms[k].payload, 0), Uint32(ms[k].payload, 4), Uint32(ms[k].payload, 8);
    && index < |pieces| && begin + length <= |pieces[index]|
    && p == PiecePayload(index, begin, pieces[index][begin..begin + length])
  }

  /** Every piece message the seeder sends answers an earlier request with the bytes asked for. */
  lemma {:induction false} SentPiecesAreTrue(pieces: seq<Bytes>, ms: seq<Message>, n: nat, sent: Message)
    requires forall p :: p in pieces ==> |p| < WORD
    requires n <= |ms| && sent.Message? && sent.id == PIECE
    requires sent in Conversation(pieces, InterestedAfter(ms[..n]), ms[n..])
    ensures exists k :: n <= k < |ms| && Answers(pieces, ms, k, sent.payload)
    decreases |ms| - n
  {
    var h := Handle(pieces, InterestedAfter(ms[..n]), ms[n]);
    assert ms[n..][0] == ms[n] && ms[n..][1..] == ms[n + 1..];
    assert ms[..n + 1][..n] == ms[..n];
    assert h.interested == InterestedAfter(ms[..n + 1]);
    if h.answer == Send(sent) {
      SentIsTrue(pieces, ms, n, sent);
    } else {
      SentPiecesAreTrue(pieces, ms, n + 1, sent);
    }
  }

  lemma SentIsTrue(pieces: seq<Bytes>, ms: seq<Message>, n: nat, sent: Message)
    requires forall p :: p in pieces ==> |p| < WORD
    requires n < |ms| && sent.Message? && sent.id == PIECE &&
             Handle(pieces, InterestedAfter(ms[..n]), ms[n]).answer == Send(sent)
    ensures Answers(pieces, ms, n, sent.payload)
  {
    var p := ms[n].payload;
    assert pieces[Uint32(p, 0)] in pieces;
    WrappedSum(Uint32(p, 4), Uint32(p, 8));
  }

  /** A request for a block inside a piece gets exactly that block. */
  lemma ServesBlock(pieces: seq<Bytes>, index: nat, begin: nat, length: nat)
    requires index < |pieces| && index < WORD && |pieces[index]| < WORD && begin + length <= |pieces[index]|
    ensures Serve(pieces, RequestPayload(index, begin, length)) ==
            Send(Message(PIECE, PiecePayload(index, begin, pieces[index][begin..begin + length])))
  {
    var p := RequestPayload(index, begin, length);
    RequestIs(index, begin, length);
    ServesInside(pieces, p);
  }

  lemma RequestIs(index: nat, begin: nat, length: nat)
    requires index < WORD && begin < WORD && length < WORD
    ensures var p := RequestPayload(index, begin, length);
            Uint32(p, 0) == index && Uint32(p, 4) == begin && Uint32(p, 8) == length
  {
    RequestParses(index, begin, length);
    WrappedSum(index, 0);
    WrappedSum(begin, 0);
    WrappedSum(length, 0);
  }

  lemma ServesInside(pieces: seq<Bytes>, p: Bytes)
    requires |p| >= 12 && Uint32(p, 0) < |pieces| && |pieces[Uint32(p, 0)]| < WORD
    requires Uint32(p, 4) + Uint32(p, 8) <= |pieces[Uint32(p, 0)]|
    ensures var index, begin, length := Uint32(p, 0), Uint32(p, 4), Uint32(p, 8);
            Serve(pieces, p) == Send(Message(PIECE, PiecePayload(index, begin, pieces[index][begin..begin + length])))
  {
    WrappedSum(Uint32(p, 4), Uint32(p, 8));
  }

  /** The slice is out of range exactly when the 32-bit sum of offset and length wraps to an offset inside the piece. */
  lemma PanicsIff(pieces: seq<Bytes>, payload: Bytes)
    requires |payload| >= 12
    ensures var index, begin, length := Uint32(payload, 0), Uint32(payload, 4), Uint32(payload, 8);
            Serve(pieces, payload) == Panics <==>
              index < |pieces| && begin + length >= WORD && begin + length - WORD <= |pieces[index]|
  {
    var begin, length := Uint32(payload, 4), Uint32(payload, 8);
    WrappedSum(begin, length);
  }

  lemma WrappedSum(x: nat, y: nat)
    requires x < WORD && y < WORD
    ensures (x + y) % WORD == if x + y < WORD then x + y else x + y - WORD
  {
  }

  /** A request inside a piece never does that. */
  lemma InsideNeverPanics(pieces: seq<Bytes>, payload: Bytes)
    requires |payload| >= 12 && Uint32(payload, 0) < |pieces| && |pieces[Uint32(payload, 0)]| < WORD
    requires Uint32(payload, 4) + Uint32(payload, 8) <= |pieces[Uint32(payload, 0)]|
    ensures Serve(pieces, payload) != Panics
  {
    ServesInside(pieces, payload);
  }
}
