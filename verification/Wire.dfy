/** Peer wire messages: identifiers, length-prefixed frames and request payloads. */
module Wire {
  import opened Bytes

  const CHOKE: byte := 0
  const UNCHOKE: byte := 1
  const INTERESTED: byte := 2
  const NOT_INTERESTED: byte := 3
  const HAVE: byte := 4
  const BITFIELD: byte := 5
  const REQUEST: byte := 6
  const PIECE: byte := 7
  const CANCEL: byte := 8
  const EXTENSION: byte := 20

  datatype Message = KeepAlive | Message(id: byte, payload: Bytes)

  /** The length of a message fits its 32-bit prefix. */
  predicate Fits(m: Message) {
    m.Message? ==> 1 + |m.payload| < WORD
  }

  /** WriteMessage and QueueKeepalive: the length, the identifier, the payload. */
  function Frame(m: Message): Bytes {
    match m
    case KeepAlive => PutUint32(0)
    case Message(id, payload) => PutUint32(1 + |payload|) + [id] + payload
  }

  /** On the wire: the length, most significant byte first, the identifier, the payload; four zeros for a keep-alive. */
  lemma FrameBytes(m: Message)
    requires Fits(m)
    ensures m.KeepAlive? ==> |Frame(m)| == 4 && Uint32(Frame(m), 0) == 0
    ensures m.Message? ==>
              && |Frame(m)| == 5 + |m.payload| && Uint32(Frame(m), 0) == 1 + |m.payload|
              && Frame(m)[4] == m.id && Frame(m)[5..] == m.payload
  {
    match m
    case KeepAlive =>
      FrontWord(0, []);
      assert PutUint32(0) + [] == Frame(m);
    case Message(id, payload) =>
      FrontWord(1 + |payload|, [id] + payload);
      assert PutUint32(1 + |payload|) + ([id] + payload) == Frame(m);
  }

  datatype Reading = Truncated | Read(message: Message, rest: Bytes)

  /** readMessage: one message off the front of the stream, or not enough bytes. */
  function ReadMessage(s: Bytes): Reading {
    if |s| < 4 then Truncated
    else
      var n := Uint32(s, 0);
      if n == 0 then Read(KeepAlive, s[4..])
      else if |s| < 4 + n then Truncated
      else Read(Message(s[4], s[5..4 + n]), s[4 + n..])
  }

  /** A message is read exactly if all its bytes are there, and what was read is the frame that was there. */
  lemma ReadIff(s: Bytes)
    ensures ReadMessage(s).Read? <==> |s| >= 4 && 4 + Uint32(s, 0) <= |s|
    ensures ReadMessage(s).Read? ==> s == Frame(ReadMessage(s).message) + ReadMessage(s).rest
  {
    if |s| >= 4 {
      FrontBytes(s);
      if 0 < Uint32(s, 0) <= |s| - 4 {
        BodyBytes(s, Uint32(s, 0));
      }
    }
  }

  lemma FrontBytes(s: Bytes)
    requires |s| >= 4
    ensures s == PutUint32(Uint32(s, 0)) + s[4..]
  {
    BytesRoundTrip(s[0..4]);
  }

  lemma BodyBytes(s: Bytes, n: nat)
    requires 0 < n && 4 + n <= |s|
    ensures s[4..] == [s[4]] + s[5..4 + n] + s[4 + n..]
  {
  }

  function Frames(ms: seq<Message>): Bytes {
    if ms == [] then [] else Frame(ms[0]) + Frames(ms[1..])
  }

  /** The next n messages of the stream and what follows them. */
  function ReadMany(s: Bytes, n: nat): Option<(seq<Message>, Bytes)> {
    if n == 0 then Some(([], s))
    else match ReadMessage(s)
      case Truncated => None
      case Read(m, rest) =>
        match ReadMany(rest, n - 1)
        case None => None
        case Some(more) => Some(([m] + more.0, more.1))
  }

  lemma FrameReads(m: Message, rest: Bytes)
    requires Fits(m)
    ensures ReadMessage(Frame(m) + rest) == Read(m, rest)
  {
    match m
    case KeepAlive =>
      FrontWord(0, rest);
    case Message(id, payload) =>
      var body := [id] + payload + rest;
      FrontWord(1 + |payload|, body);
      assert Frame(m) + rest == PutUint32(1 + |payload|) + body;
      assert body[1..1 + |payload|] == payload && body[1 + |payload|..] == rest;
  }

  lemma FrontWord(n: nat, body: Bytes)
    requires n < WORD
    ensures var s := PutUint32(n) + body;
            && Uint32(s, 0) == n
            && s[4..] == body
            && forall i, j :: 0 <= i <= j <= |body| ==> s[4 + i..4 + j] == body[i..j]
    ensures var s := PutUint32(n) + body; forall i :: 0 <= i < |body| ==> s[4 + i] == body[i]
    ensures var s := PutUint32(n) + body; forall i :: 0 <= i <= |body| ==> s[4 + i..] == body[i..]
  {
    WordRoundTrip([], n, body);
    assert [] + PutUint32(n) + body == PutUint32(n) + body;
  }

  lemma FrameThenMany(m: Message, tail: Bytes, n: nat)
    requires Fits(m) && ReadMany(tail, n).Some?
    ensures var more := ReadMany(tail, n).value; ReadMany(Frame(m) + tail, n + 1) == Some(([m] + more.0, more.1))
  {
    FrameReads(m, tail);
  }

  /** Any messages written one after another are read back as written, and the stream is left at what follows. */
  lemma {:induction false} StreamRoundTrip(ms: seq<Message>, rest: Bytes)
    requires forall m :: m in ms ==> Fits(m)
    ensures ReadMany(Frames(ms) + rest, |ms|) == Some((ms, rest))
  {
    if ms == [] {
      assert Frames(ms) + rest == rest;
    } else {
      StreamRoundTrip(ms[1..], rest);
      FrameThenMany(ms[0], Frames(ms[1..]) + rest, |ms| - 1);
      assert Frames(ms) + rest == Frame(ms[0]) + (Frames(ms[1..]) + rest);
      assert [ms[0]] + ms[1..] == ms;
    }
  }

  // ----- Request and piece payloads

  function RequestPayload(index: nat, begin: nat, length: nat): (p: Bytes)
    ensures |p| == 12
  {
    PutUint32(index) + PutUint32(begin) + PutUint32(length)
  }

  function PiecePayload(index: nat, begin: nat, block: Bytes): (p: Bytes)
    ensures |p| == 8 + |block|
  {
    PutUint32(index) + PutUint32(begin) + block
  }

  /** ParseRequest on a request that was built from its three numbers. */
  lemma RequestParses(index: nat, begin: nat, length: nat)
    ensures var p := RequestPayload(index, begin, length);
            Uint32(p, 0) == index % WORD && Uint32(p, 4) == begin % WORD && Uint32(p, 8) == length % WORD
  {
    var p := RequestPayload(index, begin, length);
    WordRoundTrip([], index, PutUint32(begin) + PutUint32(length));
    assert [] + PutUint32(index) + (PutUint32(begin) + PutUint32(length)) == p;
    WordRoundTrip(PutUint32(index), begin, PutUint32(length));
    WordRoundTrip(PutUint32(index) + PutUint32(begin), length, []);
    assert PutUint32(index) + PutUint32(begin) + PutUint32(length) + [] == p;
  }

  lemma PieceParses(index: nat, begin: nat, block: Bytes)
    ensures var p := PiecePayload(index, begin, block);
            Uint32(p, 0) == index % WORD && Uint32(p, 4) == begin % WORD && p[8..] == block
  {
    var p := PiecePayload(index, begin, block);
    WordRoundTrip([], index, PutUint32(begin) + block);
    assert [] + PutUint32(index) + (PutUint32(begin) + block) == p;
    WordRoundTrip(PutUint32(index), begin, block);
  }
}
