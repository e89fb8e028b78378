/** What the seeder answers, message by message, with the identifiers of the protocol as numbers. */
module SeederReplies {
  import opened Bytes
  import opened Wire
  import opened Seeder

  /** Message k has the identifier. */
  predicate Is(ms: seq<Message>, k: nat, id: byte) {
    k < |ms| && ms[k].Message? && ms[k].id == id
  }

  /** Some message before k is interested (2), and no not-interested (3) came after it. */
  predicate Wants(ms: seq<Message>, k: nat) {
    exists j :: 0 <= j < k && Is(ms, j, 2) && forall i :: j < i < k ==> !Is(ms, i, 3)
  }

  /** Message k is a request (6) that is listened to. */
  predicate Asks(ms: seq<Message>, k: nat) {
    Is(ms, k, 6) && Wants(ms, k) && |ms[k].payload| >= 12
  }

  /** It asks for bytes inside a piece. */
  predicate Inside(pieces: seq<Bytes>, p: Bytes)
    requires |p| >= 12
  {
    Uint32(p, 0) < |pieces| && Uint32(p, 4) + Uint32(p, 8) <= |pieces[Uint32(p, 0)]|
  }

  /** It makes the slice fail: the end wraps to an offset inside the piece. */
  predicate Crashes(pieces: seq<Bytes>, ms: seq<Message>, k: nat) {
    Asks(ms, k) &&
    var p := ms[k].payload;
    Uint32(p, 0) < |pieces| && 0 <= Uint32(p, 4) + Uint32(p, 8) - 0x1_0000_0000 <= |pieces[Uint32(p, 0)]|
  }

  /** Interested is answered by unchoke (1), not interested by choke (0), a request inside a piece by the piece (7). */
  predicate RepliesTo(pieces: seq<Bytes>, ms: seq<Message>, k: nat, replies: seq<Message>) {
    if Is(ms, k, 2) then replies == [Message(1, [])]
    else if Is(ms, k, 3) then replies == [Message(0, [])]
    else if Asks(ms, k) && Inside(pieces, ms[k].payload) then
      var p := ms[k].payload;
      var index, begin, length := Uint32(p, 0), Uint32(p, 4), Uint32(p, 8);
      replies == [Message(7, PiecePayload(index, begin, pieces[index][begin..begin + length]))]
    else replies == []
  }

  /** One after the other. */
  function Flat(replies: seq<seq<Message>>): seq<Message> {
    if replies == [] then [] else replies[0] + Flat(replies[1..])
  }

  lemma {:induction false} InterestedIff(ms: seq<Message>, k: nat)
    requires k <= |ms|
    ensures InterestedAfter(ms[..k]) <==> Wants(ms, k)
  {
    if k > 0 {
      InterestedIff(ms, k - 1);
      assert ms[..k][..k - 1] == ms[..k - 1];
      if Is(ms, k - 1, 2) {
        assert Wants(ms, k);
      } else if Wants(ms, k - 1) && !Is(ms, k - 1, 3) {
        var j :| 0 <= j < k - 1 && Is(ms, j, 2) && forall i :: j < i < k - 1 ==> !Is(ms, i, 3);
        assert Wants(ms, k);
      }
    }
  }

  lemma ServesOrCrashes(pieces: seq<Bytes>, p: Bytes)
    requires |p| >= 12 && forall piece :: piece in pieces ==> |piece| < WORD
    ensures var index, begin, length := Uint32(p, 0), Uint32(p, 4), Uint32(p, 8);
            if Inside(pieces, p) then
              Serve(pieces, p) == Send(Message(PIECE, PiecePayload(index, begin, pieces[index][begin..begin + length])))
            else if index < |pieces| && 0 <= begin + length - WORD <= |pieces[index]| then Serve(pieces, p) == Panics
            else Serve(pieces, p) == Silent
  {
    if Inside(pieces, p) {
      assert pieces[Uint32(p, 0)] in pieces;
      ServesInside(pieces, p);
    } else {
      PanicsIff(pieces, p);
      WrappedSum(Uint32(p, 4), Uint32(p, 8));
      assert Uint32(p, 0) < |pieces| ==> pieces[Uint32(p, 0)] in pieces;
    }
  }

  /** The replies to messages n and up, to the end or to the first that makes the handler crash. */
  ghost predicate RepliesUp(pieces: seq<Bytes>, ms: seq<Message>, n: nat, replies: seq<seq<Message>>)
    decreases |replies|
  {
    if replies == [] then n == |ms| || Crashes(pieces, ms, n)
    else
      && n < |ms| && !Crashes(pieces, ms, n) && RepliesTo(pieces, ms, n, replies[0])
      && RepliesUp(pieces, ms, n + 1, replies[1..])
  }

  lemma OneMore(pieces: seq<Bytes>, ms: seq<Message>, n: nat, first: seq<Message>, rest: seq<seq<Message>>)
    requires n < |ms| && RepliesTo(pieces, ms, n, first) && !Crashes(pieces, ms, n) &&
             RepliesUp(pieces, ms, n + 1, rest)
    ensures RepliesUp(pieces, ms, n, [first] + rest)
  {
    assert ([first] + rest)[1..] == rest;
  }

  lemma {:induction false} ReplyAt(pieces: seq<Bytes>, ms: seq<Message>, n: nat, replies: seq<seq<Message>>, j: nat)
    requires RepliesUp(pieces, ms, n, replies) && j < |replies|
    ensures n + j < |ms| && !Crashes(pieces, ms, n + j) && RepliesTo(pieces, ms, n + j, replies[j])
    decreases j
  {
    if j > 0 {
      ReplyAt(pieces, ms, n + 1, replies[1..], j - 1);
    }
  }

  lemma {:induction false} RepliesEnd(pieces: seq<Bytes>, ms: seq<Message>, n: nat, replies: seq<seq<Message>>)
    requires RepliesUp(pieces, ms, n, replies) && n <= |ms|
    ensures n + |replies| == |ms| || (n + |replies| < |ms| && Crashes(pieces, ms, n + |replies|))
    decreases |replies|
  {
    if replies != [] {
      RepliesEnd(pieces, ms, n + 1, replies[1..]);
    }
  }

  lemma FlatCons(first: seq<Message>, rest: seq<seq<Message>>)
    ensures Flat([first] + rest) == first + Flat(rest)
  {
    assert ([first] + rest)[1..] == rest;
  }

  lemma ConversationNext(pieces: seq<Bytes>, interested: bool, ms: seq<Message>, n: nat)
    requires n < |ms|
    ensures var h := Handle(pieces, interested, ms[n]);
            Conversation(pieces, interested, ms[n..]) ==
            match h.answer
            case Silent => Conversation(pieces, h.interested, ms[n + 1..])
            case Send(r) => [r] + Conversation(pieces, h.interested, ms[n + 1..])
            case Panics => []
  {
    assert ms[n..][0] == ms[n] && ms[n..][1..] == ms[n + 1..];
  }

  lemma {:induction false} RepliesFrom(pieces: seq<Bytes>, ms: seq<Message>, n: nat)
    returns (replies: seq<seq<Message>>)
    requires n <= |ms| && forall piece :: piece in pieces ==> |piece| < WORD
    ensures RepliesUp(pieces, ms, n, replies)
    ensures Conversation(pieces, InterestedAfter(ms[..n]), ms[n..]) == Flat(replies)
    decreases |ms| - n
  {
    replies := [];
    if n < |ms| {
      ConversationNext(pieces, InterestedAfter(ms[..n]), ms, n);
      OneReply(pieces, ms, n);
      var h := Handle(pieces, InterestedAfter(ms[..n]), ms[n]);
      if h.answer != Panics {
        var rest := RepliesFrom(pieces, ms, n + 1);
        var first := if h.answer.Send? then [h.answer.message] else [];
        OneMore(pieces, ms, n, first, rest);
        FlatCons(first, rest);
        replies := [first] + rest;
      }
    }
  }

  /** What the handler does with message n. */
  lemma OneReply(pieces: seq<Bytes>, ms: seq<Message>, n: nat)
    requires n < |ms| && forall piece :: piece in pieces ==> |piece| < WORD
    ensures var h := Handle(pieces, InterestedAfter(ms[..n]), ms[n]);
            && (h.answer == Panics <==> Crashes(pieces, ms, n))
            && (h.answer != Panics ==>
                  RepliesTo(pieces, ms, n, if h.answer.Send? then [h.answer.message] else []))
            && h.interested == InterestedAfter(ms[..n + 1])
  {
    InterestedIff(ms, n);
    assert ms[..n + 1][..n] == ms[..n];
    if Asks(ms, n) {
      ServesOrCrashes(pieces, ms[n].payload);
    }
  }

  /**
   * The conversation is the replies to the messages, in order and with nothing else in between, up to the end or
   * to the first request that makes the handler crash.
   */
  lemma ConversationReplies(pieces: seq<Bytes>, ms: seq<Message>) returns (replies: seq<seq<Message>>)
    requires forall piece :: piece in pieces ==> |piece| < WORD
    ensures Conversation(pieces, false, ms) == Flat(replies) && |replies| <= |ms|
    ensures forall k :: 0 <= k < |replies| ==> RepliesTo(pieces, ms, k, replies[k]) && !Crashes(pieces, ms, k)
    ensures |replies| < |ms| ==> Crashes(pieces, ms, |replies|)
  {
    replies := RepliesFrom(pieces, ms, 0);
    assert ms[0..] == ms && !InterestedAfter(ms[..0]);
    RepliesEnd(pieces, ms, 0, replies);
    EveryReply(pieces, ms, replies);
  }

  lemma EveryReply(pieces: seq<Bytes>, ms: seq<Message>, replies: seq<seq<Message>>)
    requires RepliesUp(pieces, ms, 0, replies) && |replies| <= |ms|
    ensures forall k :: 0 <= k < |replies| ==> RepliesTo(pieces, ms, k, replies[k]) && !Crashes(pieces, ms, k)
  {
    forall k | 0 <= k < |replies|
      ensures RepliesTo(pieces, ms, k, replies[k]) && !Crashes(pieces, ms, k)
    {
      ReplyAt(pieces, ms, 0, replies, k);
    }
  }
}
