/** When fetching the metadata succeeds, what it then returns, and how it fails. */
module MetadataResult {
  import opened Bytes
  import opened Layout
  import opened Wire
  import opened Bencode
  import opened Metadata

  // ----- One reply

  /** The type of a reply, if there is a header with one: 1 is data, 2 is a refusal. */
  function TypeOf(payload: Bytes): Option<int> {
    if payload == [] || ParseDict(payload[1..]).Err? then None
    else IntAt(Values(ParseDict(payload[1..]).value), MSG_TYPE)
  }

  /** The reply has a header with a type, and the type is not 2. */
  predicate Usable(payload: Bytes) {
    TypeOf(payload).Some? && TypeOf(payload).value != 2
  }

  /** What follows the header. */
  function DataOf(payload: Bytes): Bytes
    requires Usable(payload)
  {
    payload[1 + ParseDict(payload[1..]).used..]
  }

  function SizeOf(payload: Bytes): int
    requires Usable(payload)
  {
    var total := IntAt(Values(ParseDict(payload[1..]).value), TOTAL_SIZE);
    if total.Some? then total.value else 0
  }

  lemma ReadReplyIff(payload: Bytes)
    ensures Usable(payload) ==> ReadReply(payload) == Got(Reply(DataOf(payload), SizeOf(payload)))
    ensures !Usable(payload) ==> ReadReply(payload).Lost?
    ensures TypeOf(payload) == Some(2) ==> ReadReply(payload) == Lost(Refused)
  {
  }

  /** Every extension message is read as a reply, in order. */
  lemma RepliesIff(ms: seq<Message>, p: nat)
    requires p < |Extensions(ms)|
    ensures var payload, rs := Extensions(ms)[p], Replies(ms);
            && |rs| == |Extensions(ms)|
            && (rs[p].Got? <==> Usable(payload))
            && (Usable(payload) ==> rs[p].value == Reply(DataOf(payload), SizeOf(payload)))
            && (TypeOf(payload) == Some(2) ==> rs[p] == Lost(Refused))
  {
    RepliesRead(ms);
    ReadReplyIff(Extensions(ms)[p]);
  }

  // ----- All of them

  /** How many replies are needed. */
  function Needed(first: Reply): nat
    requires first.totalSize > 0
  {
    if |first.data| >= first.totalSize then 1 else BlockCount(first.totalSize)
  }

  /** Replies p and up to n are there and good. */
  predicate AllGot(rs: seq<Outcome<Reply>>, p: nat, n: nat) {
    n <= |rs| && forall q :: p <= q < n ==> rs[q].Got?
  }

  /** The first gives a positive size, and all that are needed are there and good. */
  predicate Suffices(rs: seq<Outcome<Reply>>) {
    rs != [] && rs[0].Got? && rs[0].value.totalSize > 0 && AllGot(rs, 0, Needed(rs[0].value))
  }

  /** Reply p has byte x of the metadata. */
  predicate Covers(rs: seq<Outcome<Reply>>, p: nat, x: nat) {
    p < |rs| && rs[p].Got? && p * BLOCK_SIZE <= x < p * BLOCK_SIZE + |rs[p].value.data|
  }

  /** Byte x is what the last of the first n replies that has it says, or 0 if none has. */
  predicate ByteIs(rs: seq<Outcome<Reply>>, n: nat, x: nat, y: byte) {
    if n == 0 then y == 0
    else if Covers(rs, n - 1, x) then y == rs[n - 1].value.data[x - (n - 1) * BLOCK_SIZE]
    else ByteIs(rs, n - 1, x, y)
  }

  ghost predicate Filled(rs: seq<Outcome<Reply>>, n: nat, buf: Bytes) {
    forall x :: 0 <= x < |buf| ==> ByteIs(rs, n, x, buf[x])
  }

  lemma OverlayFills(rs: seq<Outcome<Reply>>, n: nat, buf: Bytes)
    requires n < |rs| && rs[n].Got? && Filled(rs, n, buf) && n * BLOCK_SIZE <= |buf|
    ensures Filled(rs, n + 1, Overlay(buf, n * BLOCK_SIZE, rs[n].value.data))
  {
    var r := Overlay(buf, n * BLOCK_SIZE, rs[n].value.data);
    forall x | 0 <= x < |r|
      ensures ByteIs(rs, n + 1, x, r[x])
    {
      assert ByteIs(rs, n, x, buf[x]);
    }
  }

  /** What the loop over the replies from p on returns. */
  ghost predicate FillsTo(rs: seq<Outcome<Reply>>, p: nat, n: nat, size: nat, r: Outcome<Bytes>) {
    && (r.Got? <==> AllGot(rs, p, n))
    && (r.Got? ==> |r.value| == size && Filled(rs, n, r.value))
  }

  lemma {:induction false} FillIs(rs: seq<Outcome<Reply>>, buf: Bytes, p: nat, n: nat)
    requires n == BlockCount(|buf|) && p <= |rs| && p <= n && Filled(rs, p, buf)
    ensures FillsTo(rs, p, n, |buf|, Fill(rs, buf, p))
    decreases n - p
  {
    if p < n && p < |rs| && rs[p].Got? {
      OverlayFills(rs, p, buf);
      FillIs(rs, Overlay(buf, p * BLOCK_SIZE, rs[p].value.data), p + 1, n);
    }
  }

  /**
   * The metadata is returned if and only if the replies that are needed are there and good; it then has the size
   * that the first gives, and every byte from the reply that has it.
   */
  lemma FetchIff(rs: seq<Outcome<Reply>>)
    ensures Fetch(rs).Got? <==> Suffices(rs)
    ensures Suffices(rs) ==>
              var md := Fetch(rs).value;
              |md| == rs[0].value.totalSize && Filled(rs, Needed(rs[0].value), md)
  {
    if rs != [] && rs[0].Got? && rs[0].value.totalSize > 0 {
      var first := rs[0].value;
      if |first.data| >= first.totalSize {
        FetchOne(rs);
      } else {
        var zeros: Bytes := seq(first.totalSize, _ => 0);
        OverlayFills(rs, 0, zeros);
        FillIs(rs, Overlay(zeros, 0, first.data), 1, BlockCount(first.totalSize));
      }
    }
  }

  /** The first reply has it all. */
  lemma FetchOne(rs: seq<Outcome<Reply>>)
    requires rs != [] && rs[0].Got? && 0 < rs[0].value.totalSize <= |rs[0].value.data|
    ensures Filled(rs, 1, rs[0].value.data[..rs[0].value.totalSize])
  {
    forall x | 0 <= x < rs[0].value.totalSize
      ensures ByteIs(rs, 1, x, rs[0].value.data[..rs[0].value.totalSize][x])
    {
      assert Covers(rs, 0, x);
    }
  }

  /** The first bad reply that is needed makes the whole fail, for its reason. */
  lemma {:induction false} FillStops(rs: seq<Outcome<Reply>>, buf: Bytes, k: nat, p: nat)
    requires k <= p < |rs| && p < BlockCount(|buf|) && rs[p].Lost?
    requires forall q :: k <= q < p ==> rs[q].Got?
    ensures Fill(rs, buf, k) == Lost(rs[p].failure)
    decreases p - k
  {
    if k < p {
      FillStops(rs, Overlay(buf, k * BLOCK_SIZE, rs[k].value.data), k + 1, p);
    }
  }

  lemma BadReplyFails(rs: seq<Outcome<Reply>>, p: nat)
    requires p < |rs| && rs[p].Lost? && forall q :: 0 <= q < p ==> rs[q].Got?
    requires p > 0 ==> rs[0].value.totalSize > 0 && p < Needed(rs[0].value)
    ensures Fetch(rs) == Lost(rs[p].failure)
  {
    if p > 0 {
      FillStops(rs, Overlay(seq(rs[0].value.totalSize, _ => 0), 0, rs[0].value.data), 1, p);
    }
  }

  /** A refusal of a piece that is needed makes the whole fail, with that reason if no earlier reply was bad. */
  lemma RefusalFails(ms: seq<Message>, p: nat)
    requires p < |Extensions(ms)| && TypeOf(Extensions(ms)[p]) == Some(2)
    requires forall q :: 0 <= q < p ==> Usable(Extensions(ms)[q])
    requires p > 0 ==> SizeOf(Extensions(ms)[0]) > 0
    requires p > 0 ==> p < Needed(Reply(DataOf(Extensions(ms)[0]), SizeOf(Extensions(ms)[0])))
    ensures Fetch(Replies(ms)) == Lost(Refused)
  {
    RepliesIff(ms, p);
    forall q | 0 <= q < p
      ensures Replies(ms)[q] == Got(Reply(DataOf(Extensions(ms)[q]), SizeOf(Extensions(ms)[q])))
    {
      RepliesIff(ms, q);
    }
    BadReplyFails(Replies(ms), p);
  }
}
