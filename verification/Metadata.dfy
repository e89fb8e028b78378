/** Fetching the info dictionary from a peer in 16 KiB pieces. */
module Metadata {
  import opened Bytes
  import opened Layout
  import opened Wire
  import opened Bencode
  import opened BencodeText
  import opened BencodeDecoder

  /** "msg_type", "total_size" and "piece" */
  const MSG_TYPE: Bytes := [109, 115, 103, 95, 116, 121, 112, 101]
  const TOTAL_SIZE: Bytes := [116, 111, 116, 97, 108, 95, 115, 105, 122, 101]
  const PIECE_KEY: Bytes := [112, 105, 101, 99, 101]

  datatype Failure = ReadFailed | EmptyPayload | BadHeader | MissingType | Refused | BadSize

  datatype Outcome<+T> = Got(value: T) | Lost(failure: Failure)

  datatype Reply = Reply(data: Bytes, totalSize: int)

  function IntAt(d: map<Bytes, Value>, key: Bytes): Option<int> {
    if key in d && d[key].Int? then Some(d[key].n) else None
  }

  /** One extension payload: a byte, a dictionary, and the raw piece after it. */
  function ReadReply(payload: Bytes): Outcome<Reply> {
    if payload == [] then Lost(EmptyPayload)
    else match ParseDict(payload[1..])
      case Err(_) => Lost(BadHeader)
      case Ok(es, n) =>
        var d := Values(es);
        match IntAt(d, MSG_TYPE)
        case None => Lost(MissingType)
        case Some(2) => Lost(Refused)
        case Some(_) =>
          var total := IntAt(d, TOTAL_SIZE);
          Got(Reply(payload[1 + n..], if total.Some? then total.value else 0))
  }

  /** What the extension messages of a stream read as; everything else is skipped. */
  function Replies(ms: seq<Message>): seq<Outcome<Reply>> {
    if ms == [] then []
    else (if ms[0].Message? && ms[0].id == EXTENSION then [ReadReply(ms[0].payload)] else []) + Replies(ms[1..])
  }

  /** Pieces p and up copied into place. */
  function Fill(replies: seq<Outcome<Reply>>, buf: Bytes, p: nat): Outcome<Bytes>
    decreases BlockCount(|buf|) - p
  {
    if p >= BlockCount(|buf|) then Got(buf)
    else if p >= |replies| then Lost(ReadFailed)
    else match replies[p]
      case Lost(f) => Lost(f)
      case Got(reply) => Fill(replies, Overlay(buf, p * BLOCK_SIZE, reply.data), p + 1)
  }

  /** RequestMetadata over the answers to its requests, in order. */
  function Fetch(replies: seq<Outcome<Reply>>): Outcome<Bytes> {
    if replies == [] then Lost(ReadFailed)
    else match replies[0]
      case Lost(f) => Lost(f)
      case Got(first) =>
        if first.totalSize <= 0 then Lost(BadSize)
        else if |first.data| >= first.totalSize then Got(first.data[..first.totalSize])
        else Fill(replies, Overlay(seq(first.totalSize, _ => 0), 0, first.data), 1)
  }

  // ----- The client's loops

  /** The read loop of requestMetadataPiece, from position k of the stream. */
  method NextReply(ms: seq<Message>, k0: nat) returns (r: Outcome<Reply>, k: nat)
    requires k0 <= |ms|
    ensures k0 <= k <= |ms|
    ensures var es := Replies(ms[k0..]);
            if es == [] then r == Lost(ReadFailed) else r == es[0] && Replies(ms[k..]) == es[1..]
  {
    k := k0;
    while k < |ms|
      invariant k0 <= k <= |ms| && Replies(ms[k0..]) == Replies(ms[k..])
    {
      assert ms[k..][1..] == ms[k + 1..];
      var m := ms[k];
      k := k + 1;
      if m.Message? && m.id == EXTENSION {
        r := DecodeReply(m.payload);
        return;
      }
    }
    r := Lost(ReadFailed);
  }

  method DecodeReply(payload: Bytes) returns (r: Outcome<Reply>)
    ensures r == ReadReply(payload)
  {
    if payload == [] {
      return Lost(EmptyPayload);
    }
    var dictStr := payload[1..];
    var d, raw, pos := DecodeDict(dictStr, 0);
    assert dictStr[0..] == dictStr;
    if d.Failed? {
      return Lost(BadHeader);
    }
    var msgType := IntAt(d.value, MSG_TYPE);
    if msgType.None? {
      return Lost(MissingType);
    }
    if msgType.value == 2 {
      return Lost(Refused);
    }
    var total := IntAt(d.value, TOTAL_SIZE);
    r := Got(Reply(payload[1 + pos..], if total.Some? then total.value else 0));
  }

  /** Requests the pieces one by one; the stream holds whatever the peer sends. */
  method RequestMetadata(ms: seq<Message>) returns (r: Outcome<Bytes>)
    ensures r == Fetch(Replies(ms))
  {
    ghost var es := Replies(ms);
    assert ms[0..] == ms;
    var first, k := NextReply(ms, 0);
    if first.Lost? {
      return Lost(first.failure);
    }
    var totalSize := first.value.totalSize;
    if totalSize <= 0 {
      return Lost(BadSize);
    }
    if |first.value.data| >= totalSize {
      return Got(first.value.data[..totalSize]);
    }
    var metadata := new byte[totalSize](_ => 0);
    assert metadata[..] == seq(totalSize, _ => 0);
    CopyInto(metadata, 0, first.value.data);
    r := RequestRest(ms, k, metadata, es);
  }

  /** The loop over the pieces after the first. */
  method RequestRest(ms: seq<Message>, k0: nat, metadata: array<byte>, ghost es: seq<Outcome<Reply>>)
    returns (r: Outcome<Bytes>)
    requires k0 <= |ms| && es != [] && Replies(ms[k0..]) == es[1..] && metadata.Length > 0
    modifies metadata
    ensures r == Fill(es, old(metadata[..]), 1)
  {
    var k: nat := k0;
    var totalSize := metadata.Length;
    var numPieces := (totalSize + BLOCK_SIZE - 1) / BLOCK_SIZE;
    for p := 1 to numPieces
      invariant k <= |ms| && 1 <= p <= |es| && Replies(ms[k..]) == es[p..]
      invariant Fill(es, old(metadata[..]), 1) == Fill(es, metadata[..], p)
    {
      var piece;
      piece, k := NextReply(ms, k);
      if piece.Lost? {
        return Lost(piece.failure);
      }
      CopyPiece(metadata, p, piece.value.data);
      assert es[p..][1..] == es[p + 1..];
    }
    r := Got(metadata[..]);
  }

  /** What fits of the data is copied to its place. */
  method CopyPiece(metadata: array<byte>, p: nat, data: Bytes)
    requires p < BlockCount(metadata.Length)
    modifies metadata
    ensures metadata[..] == Overlay(old(metadata[..]), p * BLOCK_SIZE, data)
  {
    var totalSize, offset := metadata.Length, p * BLOCK_SIZE;
    if offset + |data| > totalSize {
      CopyInto(metadata, offset, data[..totalSize - offset]);
    } else {
      CopyInto(metadata, offset, data);
    }
  }

  // ----- Honest peers

  /** Piece p of the metadata. */
  function Slice(md: Bytes, p: nat): (s: Bytes)
    requires p < BlockCount(|md|)
  {
    md[p * BLOCK_SIZE..p * BLOCK_SIZE + BlockLength(|md|, p)]
  }

  /** A dictionary, with nothing after it, whose msg_type is a number other than 2. */
  ghost predicate DataHeader(h: Bytes) {
    && ParseDict(h).Ok? && ParseDict(h).used == |h|
    && var t := IntAt(Values(ParseDict(h).value), MSG_TYPE); t.Some? && t.value != 2
  }

  ghost predicate Announces(h: Bytes, total: nat)
    requires DataHeader(h)
  {
    IntAt(Values(ParseDict(h).value), TOTAL_SIZE) == Some(total)
  }

  /** payload answers piece p: any first byte, a data header, the slice. */
  ghost predicate Delivers(payload: Bytes, md: Bytes, p: nat)
    requires p < BlockCount(|md|)
  {
    exists id: byte, h: Bytes ::
      payload == [id] + (h + Slice(md, p)) && DataHeader(h) && (p == 0 ==> Announces(h, |md|))
  }

  /** r is piece p; the first piece comes with the size of the whole. */
  predicate IsSlice(r: Outcome<Reply>, md: Bytes, p: nat)
    requires p < BlockCount(|md|)
  {
    r.Got? && r.value.data == Slice(md, p) && (p == 0 ==> r.value.totalSize == |md|)
  }

  /** The header is found again in front of the raw bytes: decoding does not look past it. */
  lemma ReplySplits(payload: Bytes, md: Bytes, p: nat)
    requires p < BlockCount(|md|) && Delivers(payload, md, p)
    ensures IsSlice(ReadReply(payload), md, p)
  {
    var id: byte, h: Bytes :| payload == [id] + (h + Slice(md, p)) && DataHeader(h) && (p == 0 ==> Announces(h, |md|));
    var s := h + Slice(md, p);
    assert payload[1..] == s;
    assert s[..|h|] == h[..|h|];
    DictLocal(h, s);
    assert payload[1 + |h|..] == Slice(md, p);
  }

  /** buf agrees with md on its first n bytes. */
  predicate Upto(buf: Bytes, md: Bytes, n: nat) {
    |buf| == |md| && forall x :: 0 <= x < |md| && x < n ==> buf[x] == md[x]
  }

  lemma SliceLands(buf: Bytes, md: Bytes, p: nat)
    requires p < BlockCount(|md|) && Upto(buf, md, p * BLOCK_SIZE)
    ensures Upto(Overlay(buf, p * BLOCK_SIZE, Slice(md, p)), md, (p + 1) * BLOCK_SIZE)
  {
    var begin := p * BLOCK_SIZE;
    forall x | begin <= x < |md| && x < begin + BLOCK_SIZE
      ensures Overlay(buf, begin, Slice(md, p))[x] == md[x]
    {
      assert Slice(md, p)[x - begin] == md[x];
    }
  }

  lemma {:induction false} FillCompletes(replies: seq<Outcome<Reply>>, md: Bytes, buf: Bytes, p: nat)
    requires BlockCount(|md|) <= |replies| && p <= BlockCount(|md|)
    requires forall q :: 0 <= q < BlockCount(|md|) ==> IsSlice(replies[q], md, q)
    requires Upto(buf, md, p * BLOCK_SIZE)
    ensures Fill(replies, buf, p) == Got(md)
    decreases BlockCount(|md|) - p
  {
    if p == BlockCount(|md|) {
      assert buf == md;
    } else {
      SliceLands(buf, md, p);
      assert IsSlice(replies[p], md, p);
      FillCompletes(replies, md, Overlay(buf, p * BLOCK_SIZE, Slice(md, p)), p + 1);
    }
  }

  lemma SlicesComplete(replies: seq<Outcome<Reply>>, md: Bytes)
    requires md != [] && BlockCount(|md|) <= |replies|
    requires forall q :: 0 <= q < BlockCount(|md|) ==> IsSlice(replies[q], md, q)
    ensures Fetch(replies) == Got(md)
  {
    assert IsSlice(replies[0], md, 0);
    var first := Slice(md, 0);
    if |first| >= |md| {
      assert first == md;
      assert first[..|md|] == md;
    } else {
      var zeros: Bytes := seq(|md|, _ => 0);
      SliceLands(zeros, md, 0);
      FillCompletes(replies, md, Overlay(zeros, 0, first), 1);
    }
  }

  /** The payloads of the extension messages, whose identifier is 20. */
  function Extensions(ms: seq<Message>): seq<Bytes> {
    if ms == [] then []
    else (if ms[0].Message? && ms[0].id == 20 then [ms[0].payload] else []) + Extensions(ms[1..])
  }

  lemma {:induction false} RepliesRead(ms: seq<Message>)
    ensures |Replies(ms)| == |Extensions(ms)|
    ensures forall i :: 0 <= i < |Replies(ms)| ==> Replies(ms)[i] == ReadReply(Extensions(ms)[i])
  {
    if ms != [] {
      RepliesRead(ms[1..]);
    }
  }

  /**
   * If the extension messages of the stream answer the piece requests in order, whatever else is mixed in
   * and whatever comes after, the metadata is returned exactly.
   */
  lemma FetchesMetadata(ms: seq<Message>, md: Bytes)
    requires md != []
    requires BlockCount(|md|) <= |Extensions(ms)|
    requires forall p :: 0 <= p < BlockCount(|md|) ==> Delivers(Extensions(ms)[p], md, p)
    ensures Fetch(Replies(ms)) == Got(md)
  {
    RepliesRead(ms);
    forall p | 0 <= p < BlockCount(|md|)
      ensures IsSlice(Replies(ms)[p], md, p)
    {
      ReplySplits(Extensions(ms)[p], md, p);
    }
    SlicesComplete(Replies(ms), md);
  }

  /** The header that BEP 9 prescribes for piece p. */
  function StandardHeader(p: nat, total: nat): Value {
    Dict(map[MSG_TYPE := Int(1), PIECE_KEY := Int(p), TOTAL_SIZE := Int(total)])
  }

  lemma StandardHeaderReads(p: nat, total: nat)
    requires p <= MAX_INT && total <= MAX_INT
    ensures var v := StandardHeader(p, total); ParseValue(Encode(v)) == Ok(v, |Encode(v)|)
  {
    var v := StandardHeader(p, total);
    assert forall k :: k in v.entries ==> v.entries[k].Int? && Machine(v.entries[k]);
    RoundTrip(v, []);
    assert Encode(v) + [] == Encode(v);
  }

  lemma DictOfValue(s: Bytes, d: map<Bytes, Value>, n: nat)
    requires ParseValue(s) == Ok(Dict(d), n)
    ensures ParseDict(s).Ok? && ParseDict(s).used == n && Values(ParseDict(s).value) == d
  {
  }

  lemma StandardFields(p: nat, total: nat)
    ensures var d := StandardHeader(p, total).entries;
            IntAt(d, MSG_TYPE) == Some(1) && IntAt(d, TOTAL_SIZE) == Some(total)
  {
    assert |MSG_TYPE| == 8 && |TOTAL_SIZE| == 10 && |PIECE_KEY| == 5;
  }

  lemma HeaderByFields(h: Bytes, d: map<Bytes, Value>, total: nat)
    requires ParseDict(h).Ok? && ParseDict(h).used == |h| && Values(ParseDict(h).value) == d
    requires IntAt(d, MSG_TYPE) == Some(1) && IntAt(d, TOTAL_SIZE) == Some(total)
    ensures DataHeader(h) && Announces(h, total)
  {
  }

  /** It is such a data header once encoded. */
  lemma StandardHeaderDelivers(id: byte, md: Bytes, p: nat)
    requires |md| <= MAX_INT && p < BlockCount(|md|)
    ensures Delivers([id] + (Encode(StandardHeader(p, |md|)) + Slice(md, p)), md, p)
  {
    var d := StandardHeader(p, |md|).entries;
    var h := Encode(StandardHeader(p, |md|));
    StandardHeaderReads(p, |md|);
    DictOfValue(h, d, |h|);
    StandardFields(p, |md|);
    HeaderByFields(h, d, |md|);
  }
}
