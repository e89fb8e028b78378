/** The connection and manager objects, updated in place, proved against the manager model. */
module TorrentManagerClass {
  import opened Bytes
  import opened Layout
  import opened Wire
  import opened PickerModel
  import opened PickerAccounting
  import opened PickerChoice
  import opened PiecePickerClass
  import opened ManagerModel
  import opened EventLoop

  // ----- One connection

  class PeerClient {
    const address: Addr
    var choked: bool
    var outstanding: map<(nat, nat), Tracked>
    var stallScore: nat
    var sent: seq<Message>
    ghost var unanswered: multiset<Request>

    ghost function View(): Client
      reads this
    {
      Client(choked, outstanding, unanswered)
    }

    /** StartLoop: nothing tracked, choked. */
    constructor (addr: Addr)
      ensures address == addr && View() == NEW_CLIENT && stallScore == 0 && sent == []
      ensures choked && outstanding == map[]
    {
      address := addr;
      choked, outstanding, stallScore, sent, unanswered := true, map[], 0, [], multiset{};
    }

    method QueueMessage(m: Message)
      modifies this`sent
      ensures sent == old(sent) + [m]
    {
      sent := sent + [m];
    }

    method QueueRequest(index: nat, begin: nat, length: nat, now: int)
      modifies this`outstanding, this`sent, this`unanswered
      ensures View() == Posted(old(View()), Request(address, index, begin, length), now)
      ensures outstanding == old(outstanding)[(index, begin) := Tracked(length, now)]
      ensures sent == old(sent) + [Message(REQUEST, RequestPayload(index, begin, length))]
      ensures Says(sent[|old(sent)|], 6, index, begin, length)
    {
      RequestParses(index, begin, length);
      outstanding := outstanding[(index, begin) := Tracked(length, now)];
      unanswered := unanswered + multiset{Request(address, index, begin, length)};
      QueueMessage(Message(REQUEST, RequestPayload(index, begin, length)));
    }

    /** The bookkeeping of readLoop for one message. */
    method NoteRead(m: Message)
      modifies this`choked, this`outstanding, this`unanswered
      ensures m.KeepAlive? || m.id !in {CHOKE, UNCHOKE, PIECE} ==> View() == old(View())
      ensures m.Message? && m.id in {CHOKE, UNCHOKE} ==> View() == old(View()).(choked := m.id == CHOKE)
      ensures m.Message? && m.id == PIECE ==>
                View() == if |m.payload| >= 8 then Heard(old(View()), address, m.payload) else old(View())
      ensures choked == if m.Message? && m.id == 0 then true else if m.Message? && m.id == 1 then false else old(choked)
      ensures outstanding == if m.Message? && m.id == 7 && |m.payload| >= 8
                             then old(outstanding) - {(Uint32(m.payload, 0), Uint32(m.payload, 4))}
                               else old(outstanding)
    {
      if m.KeepAlive? {
        return;
      }
      if m.id == CHOKE {
        choked := true;
      } else if m.id == UNCHOKE {
        choked := false;
      } else if m.id == PIECE && |m.payload| >= 8 {
        outstanding := outstanding - {(Uint32(m.payload, 0), Uint32(m.payload, 4))};
        unanswered := unanswered - multiset{ReplyTo(address, m.payload)};
      }
    }

    /**
     * The stall monitor of tickerLoop: expired requests are dropped and counted; for each a cancel message is
     * queued and a notice sent to the manager; and the peer is given up above 3.
     */
    method Sweep(now: int) returns (stalled: seq<Stalled>, notices: seq<Bytes>, drop: bool)
      modifies this`outstanding, this`stallScore, this`sent
      ensures View() == Swept(old(View()), now)
      ensures Expired(old(outstanding), old(outstanding).Keys, now, stalled)
      ensures stallScore == old(stallScore) + |stalled|
      ensures drop <==> stalled != [] && stallScore > 3
      ensures forall k :: k in outstanding <==>
                (k in old(outstanding) && now - old(outstanding)[k].sent <= 15_000_000_000)
      ensures forall k :: k in outstanding ==> outstanding[k] == old(outstanding)[k]
      ensures |sent| == |old(sent)| + |stalled| && sent[..|old(sent)|] == old(sent) && |notices| == |stalled|
      ensures forall i :: 0 <= i < |stalled| ==>
                CancelsAt(stalled, sent[|old(sent)|..], i) && Notifies(notices[i], stalled[i].key.0, stalled[i].key.1)
    {
      stalled, notices, drop := StallMonitor(now);
      SweptIs(old(View()), now);
      assert sent[|old(sent)|..] == Cancels(stalled);
      CancelsSay(stalled);
      NoticesSay(stalled);
    }

    method StallMonitor(now: int) returns (stalled: seq<Stalled>, notices: seq<Bytes>, drop: bool)
      modifies this`outstanding, this`stallScore, this`sent
      ensures View() == Swept(old(View()), now)
      ensures Expired(old(outstanding), old(outstanding).Keys, now, stalled)
      ensures stallScore == old(stallScore) + |stalled|
      ensures drop <==> stalled != [] && stallScore > 3
      ensures sent == old(sent) + Cancels(stalled) && notices == Notices(stalled)
    {
      stalled := CollectStalled(now);
      notices, drop := [], false;
      if stalled != [] {
        stallScore := stallScore + |stalled|;
        drop := stallScore > 3;
        notices := CancelAll(stalled);
      }
    }

    /** The loop over the tracked requests. */
    method CollectStalled(now: int) returns (stalled: seq<Stalled>)
      modifies this`outstanding
      ensures outstanding == Swept(old(View()), now).outstanding
      ensures Expired(old(outstanding), old(outstanding).Keys, now, stalled)
    {
      stalled := [];
      var left := outstanding.Keys;
      ghost var all := outstanding;
      while left != {}
        invariant Collecting(all, left, now, outstanding, stalled)
        decreases |left|
      {
        var k :| k in left;
        CollectNext(all, left, now, outstanding, stalled, k);
        stalled := CheckOne(k, now, stalled);
        left := left - {k};
      }
      assert all.Keys - {} == all.Keys;
      SweptRemains(all, now, outstanding, old(View()));
    }

    method CheckOne(k: Key, now: int, stalled0: seq<Stalled>) returns (stalled: seq<Stalled>)
      requires k in outstanding
      modifies this`outstanding
      ensures var r := old(outstanding)[k];
              if now - r.sent > TIMEOUT
              then stalled == stalled0 + [Stalled(k, r.length)] && outstanding == old(outstanding) - {k}
              else stalled == stalled0 && outstanding == old(outstanding)
    {
      stalled := stalled0;
      if now - outstanding[k].sent > TIMEOUT {
        stalled := stalled + [Stalled(k, outstanding[k].length)];
        outstanding := outstanding - {k};
      }
    }

    /** The loop over the expired ones. */
    method CancelAll(stalled: seq<Stalled>) returns (notices: seq<Bytes>)
      modifies this`sent
      ensures sent == old(sent) + Cancels(stalled) && notices == Notices(stalled)
    {
      notices := [];
      for i := 0 to |stalled|
        invariant sent == old(sent) + Cancels(stalled[..i]) && notices == Notices(stalled[..i])
      {
        var r := stalled[i];
        assert stalled[..i + 1][..i] == stalled[..i];
        QueueMessage(Message(CANCEL, RequestPayload(r.key.0, r.key.1, r.length)));
        notices := notices + [PutUint32(r.key.0) + PutUint32(r.key.1)];
      }
      assert stalled[..|stalled|] == stalled;
    }
  }

  /** The message that a grant sends. */
  function RequestFor(granted: Option<Block>): seq<Message> {
    match granted
    case None => []
    case Some(block) => [Message(REQUEST, RequestPayload(block.index, block.begin, block.length))]
  }

  /** A request that expired. */
  datatype Stalled = Stalled(key: Key, length: nat)

  /** stalled lists those of the given keys whose requests are older than the timeout, each once. */
  ghost predicate Expired(all: map<Key, Tracked>, keys: set<Key>, now: int, stalled: seq<Stalled>) {
    && (forall i :: 0 <= i < |stalled| ==> IsStalled(all, keys, now, stalled[i]))
    && (forall k :: k in keys && k in all && now - all[k].sent > TIMEOUT ==> Stalled(k, all[k].length) in stalled)
    && (forall i, j :: 0 <= i < j < |stalled| ==> stalled[i].key != stalled[j].key)
  }

  predicate IsStalled(all: map<Key, Tracked>, keys: set<Key>, now: int, r: Stalled) {
    r.key in keys && r.key in all && r.length == all[r.key].length && now - all[r.key].sent > 15_000_000_000
  }

  /** The keys in `left` and those that did not expire are still tracked. */
  ghost predicate Remains(all: map<Key, Tracked>, left: set<Key>, now: int, tracked: map<Key, Tracked>) {
    && (forall k :: k in all && (k in left || now - all[k].sent <= TIMEOUT) ==> k in tracked)
    && (forall k :: k in tracked ==> k in all && tracked[k] == all[k] && (k in left || now - all[k].sent <= TIMEOUT))
  }

  lemma RemainsNext(all: map<Key, Tracked>, left: set<Key>, now: int, tracked: map<Key, Tracked>, k: Key)
    requires Remains(all, left, now, tracked) && k in left && k in all
    ensures k in tracked && tracked[k] == all[k]
    ensures Remains(all, left - {k}, now, if now - all[k].sent > TIMEOUT then tracked - {k} else tracked)
  {
  }

  lemma SweptRemains(all: map<Key, Tracked>, now: int, tracked: map<Key, Tracked>, client: Client)
    requires Remains(all, {}, now, tracked) && client.outstanding == all
    ensures tracked == Swept(client, now).outstanding
  {
  }

  lemma SweptIs(client: Client, now: int)
    ensures var left := Swept(client, now).outstanding;
            && (forall k :: k in left <==>
                  (k in client.outstanding && now - client.outstanding[k].sent <= 15_000_000_000))
            && (forall k :: k in left ==> left[k] == client.outstanding[k])
  {
  }

  lemma ExpiredNext(all: map<Key, Tracked>, keys: set<Key>, now: int, stalled: seq<Stalled>, k: Key)
    requires Expired(all, keys, now, stalled) && k in all && k !in keys
    ensures var more := if now - all[k].sent > TIMEOUT then [Stalled(k, all[k].length)] else [];
            Expired(all, keys + {k}, now, stalled + more)
  {
  }

  /** Between two turns of the loop over the tracked requests: the keys in `left` are still to be looked at. */
  ghost predicate Collecting(all: map<Key, Tracked>, left: set<Key>, now: int, tracked: map<Key, Tracked>,
                             stalled: seq<Stalled>) {
    left <= all.Keys && Remains(all, left, now, tracked) && Expired(all, all.Keys - left, now, stalled)
  }

  lemma CollectNext(all: map<Key, Tracked>, left: set<Key>, now: int, tracked: map<Key, Tracked>,
                    stalled: seq<Stalled>, k: Key)
    requires Collecting(all, left, now, tracked, stalled) && k in left
    ensures k in tracked && tracked[k] == all[k]
    ensures if now - tracked[k].sent > TIMEOUT
            then Collecting(all, left - {k}, now, tracked - {k}, stalled + [Stalled(k, tracked[k].length)])
            else Collecting(all, left - {k}, now, tracked, stalled)
  {
    ExpiredNext(all, all.Keys - left, now, stalled, k);
    RemainsNext(all, left, now, tracked, k);
    assert all.Keys - left + {k} == all.Keys - (left - {k});
  }

  /** The message has the identifier, and names a piece, an offset and a length, modulo 2^32. */
  predicate Says(m: Message, id: byte, index: nat, begin: nat, length: nat) {
    && m.Message? && m.id == id && |m.payload| == 12
    && Uint32(m.payload, 0) == index % WORD && Uint32(m.payload, 4) == begin % WORD &&
      Uint32(m.payload, 8) == length % WORD
  }

  /** The time-out message names a piece and an offset. */
  predicate Notifies(notice: Bytes, index: nat, begin: nat) {
    |notice| == 8 && Uint32(notice, 0) == index % WORD && Uint32(notice, 4) == begin % WORD
  }

  lemma CancelSays(r: Stalled)
    ensures Says(Message(CANCEL, RequestPayload(r.key.0, r.key.1, r.length)), 8, r.key.0, r.key.1, r.length)
  {
    RequestParses(r.key.0, r.key.1, r.length);
  }

  /** Message i cancels request i. */
  predicate CancelsAt(stalled: seq<Stalled>, ms: seq<Message>, i: nat)
    requires i < |stalled| && i < |ms|
  {
    Says(ms[i], 8, stalled[i].key.0, stalled[i].key.1, stalled[i].length)
  }

  lemma {:induction false} CancelsSay(stalled: seq<Stalled>)
    ensures |Cancels(stalled)| == |stalled| && forall i :: 0 <= i < |stalled| ==>
            CancelsAt(stalled, Cancels(stalled), i)
  {
    if stalled != [] {
      var init, r := stalled[..|stalled| - 1], stalled[|stalled| - 1];
      CancelsSay(init);
      CancelSays(r);
      forall i | 0 <= i < |stalled|
        ensures CancelsAt(stalled, Cancels(stalled), i)
      {
        assert i < |init| ==> CancelsAt(init, Cancels(init), i);
      }
    }
  }

  lemma NoticeSays(index: nat, begin: nat)
    ensures Notifies(PutUint32(index) + PutUint32(begin), index, begin)
  {
    PieceParses(index, begin, []);
    assert PiecePayload(index, begin, []) == PutUint32(index) + PutUint32(begin);
  }

  lemma {:induction false} NoticesSay(stalled: seq<Stalled>)
    ensures |Notices(stalled)| == |stalled|
    ensures forall i :: 0 <= i < |stalled| ==> Notifies(Notices(stalled)[i], stalled[i].key.0, stalled[i].key.1)
  {
    if stalled != [] {
      var r := stalled[|stalled| - 1];
      NoticesSay(stalled[..|stalled| - 1]);
      NoticeSays(r.key.0, r.key.1);
    }
  }

  function Cancels(stalled: seq<Stalled>): seq<Message> {
    if stalled == [] then []
    else
      var r := stalled[|stalled| - 1];
      Cancels(stalled[..|stalled| - 1]) + [Message(CANCEL, RequestPayload(r.key.0, r.key.1, r.length))]
  }

  /** What the manager is told: piece and offset of each. */
  function Notices(stalled: seq<Stalled>): seq<Bytes> {
    if stalled == [] then []
    else
      var r := stalled[|stalled| - 1];
      Notices(stalled[..|stalled| - 1]) + [PutUint32(r.key.0) + PutUint32(r.key.1)]
  }

  // ----- The manager

  ghost function ClientViews(peers: map<Addr, PeerClient>): map<Addr, Client>
    reads peers.Values
  {
    map a | a in peers :: peers[a].View()
  }

  lemma ViewKeys(peers: map<Addr, PeerClient>)
    ensures ClientViews(peers).Keys == peers.Keys
  {
  }

  /** What RemovePeer does in all: both of its steps, if the address is active. */
  function Removed(m: Manager, addr: Addr): Manager
    requires Sized(m.picker)
  {
    if addr in m.clients then m.(clients := m.clients - {addr}, picker := Unregister(m.picker, addr)) else m
  }

  const DISCONNECTED: byte := 0xFF
  const TIMED_OUT: byte := 0xFE

  function EventOf(addr: Addr, id: byte, payload: Bytes): Event {
    if id == TIMED_OUT then TimeoutMessage(payload)
    else if id == BITFIELD then BitfieldMessage(addr, payload)
    else if id == HAVE then HaveMessage(addr, payload)
    else if id == PIECE then PieceMessage(addr, payload)
    else OtherMessage(addr)
  }

  /** handleMessage as a whole. */
  function Handled(t: Torrent, m: Manager, addr: Addr, id: byte, p: Bytes): Manager
    requires t.Valid() && |m.picker.pieces| == t.Count() && Sized(m.picker)
  {
    if id == DISCONNECTED then Removed(m, addr)
    else if id == TIMED_OUT then (if |p| >= 8 then m.(picker := Fail(m.picker, Uint32(p, 0), Uint32(p, 4))) else m)
    else if id == BITFIELD then m.(picker := Bitfield(m.picker, addr, p))
    else if id == HAVE then (if |p| >= 4 then m.(picker := Have(m.picker, addr, Uint32(p, 0))) else m)
    else if id == PIECE then PieceArrived(t, m, addr, p)
    else m
  }

  /** A disconnect is the two steps of removing a peer; any other message is one step. */
  lemma HandledIsStep(t: Torrent, m: Manager, addr: Addr, id: byte, p: Bytes)
    requires t.Valid() && |m.picker.pieces| == t.Count() && Sized(m.picker)
    ensures id != DISCONNECTED ==> ManagerStep(t, m, EventOf(addr, id, p), Handled(t, m, addr, id, p))
    ensures id == DISCONNECTED && addr in m.clients ==>
              var mid := m.(clients := m.clients - {addr});
              ManagerStep(t, m, PeerDropped(addr), mid) &&
              ManagerStep(t, mid, PeerUnregistered(addr), Handled(t, m, addr, id, p))
  {
  }

  /** The loop of verifyAndWritePiece that copies the blocks into place. */
  method AssemblePiece(blocks: map<nat, Bytes>, pieceLen: nat) returns (r: Option<Bytes>)
    ensures r == Assembled(blocks, pieceLen, BlockCount(pieceLen))
  {
    var pieceData := new byte[pieceLen](_ => 0);
    var numBlocks := BlockCount(pieceLen);
    assert pieceData[..] == seq(pieceLen, _ => 0);
    for b := 0 to numBlocks
      invariant Assembled(blocks, pieceLen, b) == Some(pieceData[..])
      invariant fresh(pieceData)
    {
      var begin := b * BLOCK_SIZE;
      if begin !in blocks {
        MissingBlock(blocks, pieceLen, b + 1, numBlocks);
        return None;
      }
      CopyInto(pieceData, begin, blocks[begin]);
    }
    r := Some(pieceData[..]);
  }

  lemma {:induction false} MissingBlock(blocks: map<nat, Bytes>, len: nat, k: nat, n: nat)
    requires k <= n <= BlockCount(len) && Assembled(blocks, len, k) == None
    ensures Assembled(blocks, len, n) == None
  {
    if k < n {
      MissingBlock(blocks, len, k, n - 1);
    }
  }

  class TorrentManager {
    const t: Torrent
    const picker: PiecePicker
    var activePeers: map<Addr, PeerClient>
    var pieceBufs: PieceBufs
    var storage: seq<PieceWrite>
    var doneCloses: nat
    ghost var log: seq<Verdict>
    ghost var requests: set<Request>

    ghost function View(): Manager
      reads this, picker, activePeers.Values
    {
      Manager(picker.Model(), pieceBufs, ClientViews(activePeers), log, doneCloses, requests)
    }

    /** The view without the connections, which the piece handling does not touch. */
    ghost function Core(): Manager
      reads this, picker
    {
      Manager(picker.Model(), pieceBufs, map[], log, doneCloses, requests)
    }

    /** The picker is for this torrent, and storage was sent exactly the writes of the log. */
    ghost predicate Valid()
      reads this, picker
    {
      && t.Valid()
      && picker.Valid() && picker.pieceLen == t.pieceLength && picker.total == t.length
      && storage == Writes(log)
    }

    constructor (torrent: Torrent)
      requires torrent.Valid()
      ensures t == torrent && Valid() && Injective() && View() == Start(torrent)
    {
      t := torrent;
      picker := new PiecePicker(torrent.length, torrent.pieceLength);
      activePeers, pieceBufs, storage, doneCloses, log, requests := map[], map[], [], 0, [], {};
    }

    method AddPeer(client: PeerClient)
      requires Valid() && client.View() == NEW_CLIENT
      modifies this`activePeers, picker, client`sent
      ensures Valid()
      ensures View() == old(View()).(clients := old(View()).clients[client.address := NEW_CLIENT],
                                     picker := Register(old(View()).picker, client.address))
      ensures old(Injective()) ==> Injective()
      ensures client.sent == old(client.sent) + [Message(2, [])]
    {
      Enter(client);
      Welcome(client);
    }

    /** The peer is registered and told that we are interested. */
    method Welcome(client: PeerClient)
      requires Valid()
      modifies picker, client`sent
      ensures Valid() && picker.Model() == Register(old(picker.Model()), client.address)
      ensures ClientViews(activePeers) == old(ClientViews(activePeers))
      ensures client.sent == old(client.sent) + [Message(2, [])]
    {
      picker.RegisterPeer(client.address);
      assert ClientViews(activePeers) == old(ClientViews(activePeers));
      Greet(client);
    }

    method Greet(client: PeerClient)
      requires Valid()
      modifies client`sent
      ensures Valid() && picker.Model() == old(picker.Model())
      ensures ClientViews(activePeers) == old(ClientViews(activePeers))
      ensures client.sent == old(client.sent) + [Message(2, [])]
    {
      client.QueueMessage(Message(INTERESTED, []));
    }

    method Enter(client: PeerClient)
      modifies this`activePeers
      ensures activePeers == old(activePeers)[client.address := client]
      ensures ClientViews(activePeers) == old(ClientViews(activePeers))[client.address := client.View()]
    {
      activePeers := activePeers[client.address := client];
    }

    method RemovePeer(addr: Addr)
      requires Valid()
      modifies this`activePeers, picker
      ensures Valid() && View() == Removed(old(View()), addr)
      ensures old(Injective()) ==> Injective()
    {
      if addr in activePeers {
        Leave(addr);
        ghost var views := ClientViews(activePeers);
        picker.UnregisterPeer(addr);
        assert ClientViews(activePeers) == views;
      }
    }

    method Leave(addr: Addr)
      modifies this`activePeers
      ensures activePeers == old(activePeers) - {addr}
      ensures ClientViews(activePeers) == old(ClientViews(activePeers)) - {addr}
    {
      activePeers := activePeers - {addr};
    }

    method HandleMessage(addr: Addr, id: byte, payload: Bytes)
      requires Valid()
      modifies this, picker
      ensures Valid() && View() == Handled(t, old(View()), addr, id, payload)
      ensures match id as int
              case 4 => |payload| >= 4 ==> picker.Model() == Have(old(picker.Model()), addr, Uint32(payload, 0))
              case 5 => picker.Model() == Bitfield(old(picker.Model()), addr, payload)
              case 7 => View() == PieceArrived(t, old(View()), addr, payload)
              case 0xFE =>
                |payload| >= 8 ==> picker.Model() == Fail(old(picker.Model()), Uint32(payload, 0), Uint32(payload, 4))
              case 0xFF => addr !in activePeers && (addr in old(activePeers) ==> addr !in picker.peerPieces)
              case _ => View() == old(View())
      ensures old(Injective()) ==> Injective()
    {
      if id == DISCONNECTED {
        RemovePeer(addr);
      } else if id == PIECE {
        TakePiece(addr, payload);
      } else {
        TellPicker(addr, id, payload);
      }
    }

    /** Handling a piece message does not concern the connections. */
    method TakePiece(addr: Addr, payload: Bytes)
      requires Valid()
      modifies this`pieceBufs, this`storage, this`log, this`doneCloses, picker
      ensures Valid() && View() == PieceArrived(t, old(View()), addr, payload)
    {
      ClientsApart(t, Core(), ClientViews(activePeers), addr, payload);
      HandlePiece(addr, payload);
      assert ClientViews(activePeers) == old(ClientViews(activePeers));
    }

    method TellPicker(addr: Addr, id: byte, payload: Bytes)
      requires Valid() && id != DISCONNECTED && id != PIECE
      modifies picker
      ensures Valid() && View() == Handled(t, old(View()), addr, id, payload)
    {
      InformPicker(addr, id, payload);
      assert ClientViews(activePeers) == old(ClientViews(activePeers));
    }

    /** The cases of handleMessage that only concern the picker. */
    method InformPicker(addr: Addr, id: byte, payload: Bytes)
      requires Valid() && id != DISCONNECTED && id != PIECE
      modifies picker
      ensures Valid() && Core() == Handled(t, old(Core()), addr, id, payload)
    {
      if id == TIMED_OUT {
        if |payload| >= 8 {
          picker.MarkFailed(Uint32(payload, 0), Uint32(payload, 4));
        }
      } else if id == BITFIELD {
        picker.UpdatePeerBitfield(addr, payload);
      } else if id == HAVE {
        if |payload| >= 4 {
          picker.UpdatePeerHave(addr, Uint32(payload, 0));
        }
      }
    }

    method HandlePiece(addr: Addr, payload: Bytes)
      requires Valid()
      modifies this`pieceBufs, this`storage, this`log, this`doneCloses, picker
      ensures Valid() && Core() == PieceArrived(t, old(Core()), addr, payload)
    {
      if |payload| < 8 {
        return;
      }
      var index, begin := Uint32(payload, 0), Uint32(payload, 4);
      BufferBlock(index, begin, payload[8..]);
      var _, pieceDone, torrentDone := picker.MarkCompleted(index, begin, addr);
      if pieceDone {
        VerifyAndWritePiece(index);
      }
      if torrentDone {
        doneCloses := doneCloses + 1;
      }
    }

    method BufferBlock(index: nat, begin: nat, block: Bytes)
      modifies this`pieceBufs
      ensures pieceBufs == Buffered(old(pieceBufs), index, begin, block)
    {
      if index !in pieceBufs {
        pieceBufs := pieceBufs[index := map[]];
      }
      var blocks: map<nat, Bytes> := pieceBufs[index];
      pieceBufs := pieceBufs[index := blocks[begin := block]];
    }

    method VerifyAndWritePiece(index: nat)
      requires Valid() && index < t.Count()
      modifies this`pieceBufs, this`storage, this`log, picker
      ensures Valid() && Core() == VerifyAndWrite(t, old(Core()), index)
    {
      if index !in pieceBufs {
        return;
      }
      var pieceLen := PieceLength(t.length, t.pieceLength, index);
      var data := AssemblePiece(pieceBufs[index], pieceLen);
      if data.None? {
        RevertPiece(index);
      } else if t.sha1(data.value) != t.Hash(index) {
        RevertPiece(index);
        Refuse(index);
      } else {
        SendToStorage(index, data.value);
        pieceBufs := pieceBufs - {index};
      }
    }

    ghost method Refuse(index: nat)
      requires Valid()
      modifies this`log
      ensures Valid() && log == old(log) + [Rejected(index)]
    {
      WritesAppend(log, Rejected(index));
      log := log + [Rejected(index)];
    }

    method SendToStorage(index: nat, data: Bytes)
      requires Valid()
      modifies this`storage, this`log
      ensures Valid() && log == old(log) + [Wrote(index, data)]
    {
      WritesAppend(log, Wrote(index, data));
      storage := storage + [PieceWrite(index, data)];
      log := log + [Wrote(index, data)];
    }

    method RevertPiece(index: nat)
      requires Valid() && index < t.Count()
      modifies this`pieceBufs, picker
      ensures Valid() && Core() == Revert(t, old(Core()), index)
    {
      pieceBufs := pieceBufs - {index};
      MarkAllFailed(index, BlockCount(PieceLength(t.length, t.pieceLength, index)));
    }

    method MarkAllFailed(index: nat, numBlocks: nat)
      requires picker.Valid()
      modifies picker
      ensures picker.Valid() && picker.Model() == FailMany(old(picker.Model()), index, numBlocks)
    {
      for b := 0 to numBlocks
        invariant picker.Valid() && picker.Model() == FailMany(old(picker.Model()), index, b)
      {
        picker.MarkFailed(index, b * BLOCK_SIZE);
      }
    }

    /** The ticker case of the event loop, before the requests. */
    method ReclaimStalled(now: int)
      requires Valid()
      modifies picker
      ensures Valid() && View() == old(View()).(picker := Reclaim(old(View()).picker, Stale(now, 15_000_000_000)))
    {
      var _ := picker.GetStalledRequests(now, TIMEOUT);
    }

    /** NextBlock does not concern the connections. */
    method AskPicker(addr: Addr, now: int) returns (granted: Option<Block>)
      requires Valid()
      modifies picker
      ensures Valid() && NextBlock(old(picker.Model()), addr, now, picker.Model(), granted)
      ensures View() == old(View()).(picker := picker.Model())
      ensures StaysEmpty(old(picker.Model()), picker.Model()) && (granted.None? ==> NothingFor(picker.Model(), addr))
    {
      granted := picker.NextBlock(addr, now);
      assert ClientViews(activePeers) == old(ClientViews(activePeers));
      AskedLeaves(old(picker.Model()), addr, now, picker.Model(), granted, picker.total, picker.pieceLen);
    }

    /** One turn of the request loop for a peer below the bound. */
    method RequestOne(addr: Addr, client: PeerClient, now: int) returns (granted: Option<Block>)
      requires Valid() && Injective() && addr in activePeers && activePeers[addr] == client
      modifies this`requests, picker, client`outstanding, client`sent, client`unanswered
      ensures Valid() && Injective()
      ensures NextBlock(old(picker.Model()), addr, now, picker.Model(), granted)
      ensures var m := if granted.Some? then Queued(old(View()), addr, granted.value, now) else old(View());
              View() == m.(picker := picker.Model())
      ensures StaysEmpty(old(picker.Model()), picker.Model()) && (granted.None? ==> NothingFor(picker.Model(), addr))
      ensures client.sent == old(client.sent) + RequestFor(granted)
    {
      granted := AskPicker(addr, now);
      if granted.Some? {
        SendRequest(addr, client, granted.value, now);
      }
    }

    method SendRequest(addr: Addr, client: PeerClient, block: Block, now: int)
      requires Valid() && Injective() && addr in activePeers && activePeers[addr] == client
      modifies this`requests, client`outstanding, client`sent, client`unanswered
      ensures Valid() && Injective() && View() == Queued(old(View()), addr, block, now)
      ensures client.sent == old(client.sent) + RequestFor(Some(block))
    {
      ghost var views := ClientViews(activePeers);
      assert views[addr] == client.View();
      Track(addr, client, block, now);
      Record(Request(addr, block.index, block.begin, block.length));
      assert ClientViews(activePeers) == views[addr := client.View()];
    }

    method Record(r: Request)
      requires Valid()
      modifies this`requests
      ensures Valid() && Core() == old(Core()).(requests := old(requests) + {r})
      ensures ClientViews(activePeers) == old(ClientViews(activePeers))
    {
      requests := requests + {r};
    }

    method Track(addr: Addr, client: PeerClient, block: Block, now: int)
      requires Valid() && Injective() && addr in activePeers && activePeers[addr] == client
      modifies client`outstanding, client`sent, client`unanswered
      ensures Valid() && Core() == old(Core())
      ensures client.View() == Posted(old(client.View()), Request(addr, block.index, block.begin, block.length), now)
      ensures ClientViews(activePeers) == old(ClientViews(activePeers))[addr := client.View()]
      ensures client.sent == old(client.sent) + RequestFor(Some(block))
    {
      client.QueueRequest(block.index, block.begin, block.length, now);
    }

    /** Different addresses have different connections. */
    ghost predicate Injective()
      reads this
    {
      forall a :: a in activePeers ==> activePeers[a].address == a
    }

    /** Where the event loop is, with this manager; `base` gives what filling the pipelines does not touch. */
    ghost function At(phase: Phase, clock: int, base: Loop): Loop
      reads this, picker, activePeers.Values
    {
      Standing(View(), phase, clock, base)
    }

    /** The connection is choked, or its pipeline is full, or there is nothing for it. */
    ghost predicate Filled(addr: Addr)
      requires addr in activePeers
      reads this, picker, activePeers.Values
    {
      activePeers[addr].choked || |activePeers[addr].outstanding| >= PIPELINE || NothingFor(picker.Model(), addr)
    }

    /** Since it had sent that many messages the connection was sent one more each turn. */
    ghost predicate TookTurns(addr: Addr, before: nat, turns: nat)
      requires addr in activePeers
      reads this, activePeers[addr]
    {
      |activePeers[addr].sent| == before + turns
    }

    /** One turn of the request loop: a step of the event loop, which leaves the peer when nothing was granted. */
    method TakeTurn(addr: Addr, client: PeerClient, now: int,
                    ghost l0: Loop, ghost left: set<Addr>, ghost clock: int, ghost base: Loop)
      returns (granted: Option<Block>)
      requires Valid() && Injective() && addr in activePeers && activePeers[addr] == client
      requires |client.outstanding| < PIPELINE && clock <= now
      requires Reaches(t, [], l0, At(Asking(addr, left), clock, base))
      modifies this`requests, picker, client`outstanding, client`sent, client`unanswered
      ensures Valid() && Injective()
      ensures Reaches(t, [], l0, At(if granted.None? then Filling(left) else Asking(addr, left), now, base))
      ensures StaysEmpty(old(picker.Model()), picker.Model()) && (granted.None? ==> NothingFor(picker.Model(), addr))
      ensures client.sent == old(client.sent) + RequestFor(granted)
    {
      ghost var m := View();
      assert m.clients[addr] == client.View();
      granted := RequestOne(addr, client, now);
      TurnIsStep(t, l0, m, addr, left, clock, base, now, granted, View());
    }

    /**
     * The request loop for one peer, cut off after a number of turns: outside this bound the loop of the
     * program has no measure once end-game is set. `finished` says that it came to its own end: the pipeline
     * is full, or there is nothing for the peer, and the event loop has left it; otherwise every one of the
     * turns sent a request.
     */
    method FillPipeline(addr: Addr, client: PeerClient, now: int, turns: nat,
                        ghost l0: Loop, ghost left: set<Addr>, ghost clock0: int, ghost base: Loop)
      returns (finished: bool, ghost clock: int)
      requires Valid() && Injective() && addr in activePeers && activePeers[addr] == client && clock0 <= now
      requires Reaches(t, [], l0, At(Asking(addr, left), clock0, base))
      modifies this`requests, picker, client`outstanding, client`sent, client`unanswered
      ensures Valid() && Injective() && clock <= now
      ensures Reaches(t, [], l0, At(if finished then Filling(left) else Asking(addr, left), clock, base))
      ensures StaysEmpty(old(picker.Model()), picker.Model())
      ensures finished ==> |client.outstanding| >= PIPELINE || NothingFor(picker.Model(), addr)
      ensures if finished then |client.sent| <= |old(client.sent)| + turns
              else |client.sent| == |old(client.sent)| + turns
    {
      finished, clock := false, clock0;
      var n := turns;
      while n > 0
        invariant Valid() && Injective() && clock <= now
        invariant Reaches(t, [], l0, At(Asking(addr, left), clock, base))
        invariant |client.sent| == |old(client.sent)| + turns - n
        invariant StaysEmpty(old(picker.Model()), picker.Model())
      {
        if |client.outstanding| >= PIPELINE {
          assert View().clients[addr] == client.View();
          FullIsStep(t, l0, View(), addr, left, clock, base);
          return true, clock;
        }
        var granted := TakeTurn(addr, client, now, l0, left, clock, base);
        clock := now;
        if granted.None? {
          return true, clock;
        }
        n := n - 1;
      }
    }

    /** The loop's turn for one connection: skipped if it is choked, filled otherwise. */
    method ServePeer(addr: Addr, now: int, turns: nat,
                     ghost l0: Loop, ghost left: set<Addr>, ghost clock0: int, ghost base: Loop)
      returns (finished: bool, ghost clock: int, ghost phase: Phase)
      requires Valid() && Injective() && addr in activePeers && addr in left && clock0 <= now
      requires Reaches(t, [], l0, At(Filling(left), clock0, base))
      modifies this`requests, picker, activePeers[addr]
      ensures Valid() && Injective() && activePeers == old(activePeers) && clock <= now
      ensures Reaches(t, [], l0, At(phase, clock, base)) && (finished ==> phase == Filling(left - {addr}))
      ensures finished ==> Filled(addr)
      ensures forall a :: a in activePeers && a != addr ==> activePeers[a].sent == old(activePeers[a].sent)
      ensures !finished ==> |activePeers[addr].sent| == |old(activePeers[addr].sent)| + turns
      ensures forall a :: a in activePeers && a != addr && old(Filled(a)) ==> Filled(a)
    {
      var client := activePeers[addr];
      assert View().clients[addr] == client.View();
      PickIsStep(t, l0, View(), addr, left, clock0, base);
      if client.choked {
        return true, clock0, Filling(left - {addr});
      }
      finished, clock := FillPipeline(addr, client, now, turns, l0, left - {addr}, clock0, base);
      phase := if finished then Filling(left - {addr}) else Asking(addr, left - {addr});
    }

    /** The connections in `left` were sent nothing since they had sent so many messages; the others are filled. */
    ghost predicate Serving(left: set<Addr>, sizes: map<Addr, nat>)
      reads this, picker, activePeers.Values
    {
      && left <= activePeers.Keys == sizes.Keys
      && forall a :: a in activePeers ==> ServedOr(a, a in left, sizes[a])
    }

    ghost predicate ServedOr(addr: Addr, waits: bool, size: nat)
      requires addr in activePeers
      reads this, picker, activePeers.Values
    {
      if waits then |activePeers[addr].sent| == size else Filled(addr)
    }

    method ServeNext(addr: Addr, now: int, turns: nat, ghost l0: Loop, ghost left: set<Addr>, ghost clock0: int,
                     ghost base: Loop, ghost sizes: map<Addr, nat>)
      returns (finished: bool, ghost clock: int, ghost phase: Phase)
      requires Valid() && Injective() && addr in activePeers && addr in left && clock0 <= now && Serving(left, sizes)
      requires Reaches(t, [], l0, At(Filling(left), clock0, base))
      modifies this`requests, picker, activePeers[addr]
      ensures Valid() && Injective() && activePeers == old(activePeers) && clock <= now
      ensures Reaches(t, [], l0, At(phase, clock, base))
      ensures if finished then phase == Filling(left - {addr}) && Serving(left - {addr}, sizes)
              else sizes.Keys == activePeers.Keys && TookTurns(addr, sizes[addr], turns)
    {
      assert ServedOr(addr, true, sizes[addr]);
      finished, clock, phase := ServePeer(addr, now, turns, l0, left, clock0, base);
      if finished {
        forall a | a in activePeers
          ensures ServedOr(a, a in left - {addr}, sizes[a])
        {
          assert old(ServedOr(a, a in left, sizes[a]));
        }
      }
    }

    /** The loop over the connections, in any order. */
    method ServeAll(now: int, turns: nat, ghost l0: Loop, ghost clock0: int, ghost base: Loop, ghost sizes: map<Addr,
                    nat>)
      returns (finished: bool, ghost clock: int, ghost phase: Phase)
      requires Valid() && Injective() && clock0 <= now && Serving(activePeers.Keys, sizes)
      requires Reaches(t, [], l0, At(Filling(activePeers.Keys), clock0, base))
      modifies this`requests, picker, activePeers.Values
      ensures Valid() && Injective() && activePeers == old(activePeers) && clock <= now
      ensures Reaches(t, [], l0, At(phase, clock, base))
      ensures finished ==> phase == Filling({}) && Serving({}, sizes)
      ensures sizes.Keys == activePeers.Keys
      ensures !finished ==> exists a :: a in activePeers && TookTurns(a, sizes[a], turns)
    {
      var left := activePeers.Keys;
      finished, clock, phase := true, clock0, Filling(left);
      while left != {}
        invariant activePeers == old(activePeers) && Valid() && Injective() && clock <= now && finished
        invariant Reaches(t, [], l0, At(phase, clock, base)) && phase == Filling(left) && Serving(left, sizes)
        decreases |left|
      {
        var addr :| addr in left;
        assert activePeers[addr] in old(activePeers.Values);
        finished, clock, phase := ServeNext(addr, now, turns, l0, left, clock, base, sizes);
        if !finished {
          assert TookTurns(addr, sizes[addr], turns);
          return;
        }
        left := left - {addr};
      }
    }

    /**
     * pipelineRequests. If it finishes, it is a complete fill of the event loop, from just before it to the
     * next wait, and afterwards every connection is choked, or has its pipeline full, or there is nothing
     * for it.
     */
    method PipelineRequests(now: int, turns: nat, ghost clock0: int, ghost base: Loop)
      returns (finished: bool, ghost clock: int, ghost phase: Phase)
      requires Valid() && Injective() && clock0 <= now
      modifies this`requests, picker, activePeers.Values
      ensures Valid() && Injective() && activePeers == old(activePeers) && clock <= now
      ensures Reaches(t, [], old(At(Ready, clock0, base)), At(phase, clock, base))
      ensures finished ==> phase == Waiting && forall a :: a in activePeers ==> Filled(a)
      ensures !finished ==> exists a :: a in activePeers && TookTurns(a, |old(activePeers[a].sent)|, turns)
    {
      ghost var l0 := At(Ready, clock0, base);
      ViewKeys(activePeers);
      BeginIsStep(t, l0);
      ghost var sizes := map a | a in activePeers :: |activePeers[a].sent|;
      finished, clock, phase := ServeAll(now, turns, l0, clock0, base, sizes);
      if finished {
        RestIsStep(t, l0, At(phase, clock, base));
        phase := Waiting;
      }
    }
  }

  /** Handling a piece does not depend on the connections. */
  lemma ClientsApart(t: Torrent, m: Manager, clients: map<Addr, Client>, addr: Addr, payload: Bytes)
    requires t.Valid() && |m.picker.pieces| == t.Count()
    ensures PieceArrived(t, m.(clients := clients), addr, payload) ==
            PieceArrived(t, m, addr, payload).(clients := clients)
  {
    if |payload| >= 8 {
      var index, begin := Uint32(payload, 0), Uint32(payload, 4);
      var c := Complete(m.picker, index, begin, addr);
      if c.pieceDone {
        VerifyApart(t, m.(pieceBufs := Buffered(m.pieceBufs, index, begin, payload[8..]), picker := c.picker),
          clients, index);
      }
    }
  }

  lemma VerifyApart(t: Torrent, m: Manager, clients: map<Addr, Client>, index: nat)
    requires t.Valid() && index < t.Count()
    ensures VerifyAndWrite(t, m.(clients := clients), index) == VerifyAndWrite(t, m, index).(clients := clients)
  {
  }

  lemma WritesAppend(log: seq<Verdict>, v: Verdict)
    ensures Writes(log + [v]) == Writes(log) + if v.Wrote? then [PieceWrite(v.index, v.data)] else []
  {
    assert (log + [v])[..|log|] == log;
  }

  // ----- The request loop as steps of the event loop

  /** Whoever there was nothing for, there is still nothing for. */
  ghost predicate StaysEmpty(s: Picker, s': Picker) {
    forall a :: NothingFor(s, a) ==> NothingFor(s', a)
  }

  lemma AskedLeaves(s: Picker, addr: Addr, now: int, s': Picker, r: Option<Block>, total: nat, pieceLen: nat)
    requires pieceLen > 0 && Inv(s, total, pieceLen) && NextBlock(s, addr, now, s', r)
    ensures StaysEmpty(s, s') && (r.None? ==> NothingFor(s', addr))
  {
    forall a | NothingFor(s, a)
      ensures NothingFor(s', a)
    {
      NothingStays(s, a, addr, now, s', r);
    }
    if r.None? {
      NothingGranted(s, addr, now, s', total, pieceLen);
    }
  }

  ghost function Standing(m: Manager, phase: Phase, clock: int, base: Loop): Loop {
    base.(m := m, phase := phase, clock := clock)
  }

  lemma BeginIsStep(t: Torrent, l: Loop)
    requires l.phase.Ready?
    ensures Reaches(t, [], l, l.(phase := Filling(l.m.clients.Keys)))
  {
    ReachesSelf(t, [], l);
    assert LoopStep(t, [], l, Begin, l.(phase := Filling(l.m.clients.Keys)));
    ReachesStep(t, [], l, l, Begin, l.(phase := Filling(l.m.clients.Keys)));
  }

  lemma RestIsStep(t: Torrent, l0: Loop, l: Loop)
    requires Reaches(t, [], l0, l) && l.phase == Filling({})
    ensures Reaches(t, [], l0, l.(phase := Waiting))
  {
    assert LoopStep(t, [], l, Rest, l.(phase := Waiting));
    ReachesStep(t, [], l0, l, Rest, l.(phase := Waiting));
  }

  lemma PickIsStep(t: Torrent, l0: Loop, m: Manager, addr: Addr, left: set<Addr>, clock: int, base: Loop)
    requires Reaches(t, [], l0, Standing(m, Filling(left), clock, base)) && addr in left && addr in m.clients
    ensures var phase := if m.clients[addr].choked then Filling(left - {addr}) else Asking(addr, left - {addr});
            Reaches(t, [], l0, Standing(m, phase, clock, base))
  {
    var l := Standing(m, Filling(left), clock, base);
    var l' := l.(phase := if m.clients[addr].choked then Filling(left - {addr}) else Asking(addr, left - {addr}));
    assert LoopStep(t, [], l, Pick(addr), l');
    ReachesStep(t, [], l0, l, Pick(addr), l');
  }

  lemma FullIsStep(t: Torrent, l0: Loop, m: Manager, addr: Addr, left: set<Addr>, clock: int, base: Loop)
    requires Reaches(t, [], l0, Standing(m, Asking(addr, left), clock, base))
    requires addr in m.clients && |m.clients[addr].outstanding| >= PIPELINE
    ensures Reaches(t, [], l0, Standing(m, Filling(left), clock, base))
  {
    var l := Standing(m, Asking(addr, left), clock, base);
    assert LoopStep(t, [], l, Full, l.(phase := Filling(left)));
    ReachesStep(t, [], l0, l, Full, l.(phase := Filling(left)));
  }

  lemma TurnIsStep(t: Torrent, l0: Loop, m: Manager, addr: Addr, left: set<Addr>, clock: int, base: Loop,
                   now: int, granted: Option<Block>, m': Manager)
    requires t.Valid() && |m.picker.pieces| == t.Count() && Sized(m.picker) && clock <= now
    requires Reaches(t, [], l0, Standing(m, Asking(addr, left), clock, base))
    requires addr in m.clients && |m.clients[addr].outstanding| < PIPELINE
    requires NextBlock(m.picker, addr, now, m'.picker, granted)
    requires m' == (if granted.Some? then Queued(m, addr, granted.value, now) else m).(picker := m'.picker)
    ensures Reaches(t, [], l0, Standing(m', if granted.None? then Filling(left) else Asking(addr, left), now, base))
  {
    var l, e := Standing(m, Asking(addr, left), clock, base), GrantTurn(addr, now, granted);
    assert ManagerStep(t, m, e, m');
    assert LoopStep(t, [], l, Does(e), After(l, e, m'));
    ReachesStep(t, [], l0, l, Does(e), After(l, e, m'));
  }
}
