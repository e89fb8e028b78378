/** The torrent manager and its peer pipelines as a value, and the atomic steps they interleave. */
module ManagerModel {
  import opened Bytes
  import opened Layout
  import opened PickerModel

  /** Requests kept in flight per peer. */
  const PIPELINE: nat := 5

  /** 15 seconds, in nanoseconds. */
  const TIMEOUT: int := 15_000_000_000

  /** A tracked request is filed under piece and offset. */
  type Key = (nat, nat)

  datatype Tracked = Tracked(length: nat, sent: int)

  /** A request message and the peer it was sent to. */
  datatype Request = Request(peer: Addr, index: nat, begin: nat, length: nat)

  /**
   * One connection: whether we are choked, the outstanding requests by (piece, offset), and the request messages
   * that were sent over it and not answered. The last is history; a request that timed out stays in it, since
   * the peer may still answer.
   */
  datatype Client = Client(choked: bool, outstanding: map<Key, Tracked>, unanswered: multiset<Request>)

  const NEW_CLIENT: Client := Client(true, map[], multiset{})

  /** How a complete piece ended: sent to storage, or refused for its digest. */
  datatype Verdict = Wrote(index: nat, data: Bytes) | Rejected(index: nat)

  datatype PieceWrite = PieceWrite(index: nat, data: Bytes)

  /** What was sent to the storage thread, in order. */
  function Writes(log: seq<Verdict>): seq<PieceWrite> {
    if log == [] then []
    else
      var v := log[|log| - 1];
      Writes(log[..|log| - 1]) + if v.Wrote? then [PieceWrite(v.index, v.data)] else []
  }

  type PieceBufs = map<nat, map<nat, Bytes>>

  /**
   * `log` lists the verdicts in order; `doneCloses` counts closes of the done channel (a second one would
   * panic); `requests` remembers every request ever sent.
   */
  datatype Manager = Manager(
    picker: Picker,
    pieceBufs: PieceBufs,
    clients: map<Addr, Client>,
    log: seq<Verdict>,
    doneCloses: nat,
    requests: set<Request>)

  function Start(t: Torrent): Manager
    requires t.pieceLength > 0
  {
    Manager(Fresh(t.length, t.pieceLength), map[], map[], [], 0, {})
  }

  // ----- Piece messages

  function Buffered(bufs: PieceBufs, index: nat, begin: nat, block: Bytes): PieceBufs {
    bufs[index := (if index in bufs then bufs[index] else map[])[begin := block]]
  }

  /** The first n blocks copied into a zeroed buffer, or None at the first one that is missing. */
  function Assembled(blocks: map<nat, Bytes>, len: nat, n: nat): (r: Option<Bytes>)
    requires n <= BlockCount(len)
    ensures r.Some? ==> |r.value| == len
  {
    if n == 0 then Some(seq(len, _ => 0))
    else
      var begin := (n - 1) * BLOCK_SIZE;
      match Assembled(blocks, len, n - 1)
      case None => None
      case Some(buf) => if begin in blocks then Some(Overlay(buf, begin, blocks[begin])) else None
  }

  /** MarkFailed on the first n blocks of a piece. */
  function FailMany(s: Picker, index: nat, n: nat): Picker {
    if n == 0 then s else Fail(FailMany(s, index, n - 1), index, (n - 1) * BLOCK_SIZE)
  }

  function Revert(t: Torrent, m: Manager, index: nat): Manager
    requires t.Valid() && index < t.Count()
  {
    m.(pieceBufs := m.pieceBufs - {index},
       picker := FailMany(m.picker, index, BlockCount(PieceLength(t.length, t.pieceLength, index))))
  }

  /** verifyAndWritePiece: the three ways out, and the log of which one was taken. */
  function VerifyAndWrite(t: Torrent, m: Manager, index: nat): Manager
    requires t.Valid() && index < t.Count()
  {
    if index !in m.pieceBufs then m
    else
      var len := PieceLength(t.length, t.pieceLength, index);
      match Assembled(m.pieceBufs[index], len, BlockCount(len))
      case None => Revert(t, m, index)
      case Some(data) =>
        if t.sha1(data) != t.Hash(index) then
          Revert(t, m, index).(log := m.log + [Rejected(index)])
        else
          m.(log := m.log + [Wrote(index, data)], pieceBufs := m.pieceBufs - {index})
  }

  function PieceArrived(t: Torrent, m: Manager, addr: Addr, payload: Bytes): Manager
    requires t.Valid() && |m.picker.pieces| == t.Count()
  {
    if |payload| < 8 then m
    else
      var index, begin := Uint32(payload, 0), Uint32(payload, 4);
      var c := Complete(m.picker, index, begin, addr);
      var m1 := m.(pieceBufs := Buffered(m.pieceBufs, index, begin, payload[8..]), picker := c.picker);
      var m2 := if c.pieceDone then VerifyAndWrite(t, m1, index) else m1;
      if c.torrentDone then m2.(doneCloses := m2.doneCloses + 1) else m2
  }

  // ----- Requests

  /** QueueRequest: the request is tracked under its place, replacing what was tracked there. */
  function Queued(m: Manager, addr: Addr, block: Block, now: int): Manager
    requires addr in m.clients
  {
    var r := Request(addr, block.index, block.begin, block.length);
    m.(clients := m.clients[addr := Posted(m.clients[addr], r, now)], requests := m.requests + {r})
  }

  function Posted(client: Client, r: Request, now: int): Client {
    client.(outstanding := client.outstanding[(r.index, r.begin) := Tracked(r.length, now)],
            unanswered := client.unanswered + multiset{r})
  }

  /** The request that a piece message answers. */
  function ReplyTo(addr: Addr, payload: Bytes): Request
    requires |payload| >= 8
  {
    Request(addr, Uint32(payload, 0), Uint32(payload, 4), |payload| - 8)
  }

  /** readLoop with a piece message: its place is no longer tracked. */
  function Heard(client: Client, addr: Addr, payload: Bytes): Client
    requires |payload| >= 8
  {
    var r := ReplyTo(addr, payload);
    client.(outstanding := client.outstanding - {(r.index, r.begin)}, unanswered := client.unanswered - multiset{r})
  }

  /** The stall sweep of tickerLoop: requests older than the timeout are forgotten. */
  function Swept(client: Client, now: int): Client {
    client.(outstanding := map k | k in client.outstanding && now - client.outstanding[k].sent <= TIMEOUT
                           :: client.outstanding[k])
  }

  // ----- Steps

  /**
   * The atomic steps. A message may carry anything. Removing a peer is two steps, since the table of
   * clients and the picker have their own locks. `GrantTurn` is one turn of the request loop; it is taken
   * only below the pipeline bound, and nothing but this step adds tracked requests.
   */
  datatype Event =
    | PeerAdded(addr: Addr)
    | PeerDropped(addr: Addr)
    | PeerUnregistered(addr: Addr)
    | TimeoutMessage(payload: Bytes)
    | BitfieldMessage(addr: Addr, payload: Bytes)
    | HaveMessage(addr: Addr, payload: Bytes)
    | PieceMessage(addr: Addr, payload: Bytes)
    | OtherMessage(addr: Addr)
    | Tick(now: int)
    | GrantTurn(addr: Addr, now: int, granted: Option<Block>)
    | PieceRead(addr: Addr, payload: Bytes)
    | ChokeRead(addr: Addr, choked: bool)
    | StallSweep(addr: Addr, now: int)

  /** The picker operation inside an event, if it is not a piece message. */
  function PickerOp(e: Event): Option<Op> {
    match e
    case PeerAdded(a) => Some(RegisterPeer(a))
    case PeerUnregistered(a) => Some(UnregisterPeer(a))
    case TimeoutMessage(p) => if |p| >= 8 then Some(MarkFailed(Uint32(p, 0), Uint32(p, 4))) else None
    case BitfieldMessage(a, p) => Some(PeerBitfield(a, p))
    case HaveMessage(a, p) => if |p| >= 4 then Some(PeerHave(a, Uint32(p, 0))) else None
    case Tick(now) => Some(ReclaimStalled(now, TIMEOUT))
    case GrantTurn(a, now, r) => Some(Next(a, now, r))
    case _ => None
  }

  /** What an event that is not a piece message does to the connections and the request history. */
  ghost predicate ClientsStep(m: Manager, e: Event, m': Manager) {
    match e
    case PeerAdded(a) => m'.clients == m.clients[a := NEW_CLIENT] && m'.requests == m.requests
    case PeerDropped(a) => m'.clients == m.clients - {a} && m'.requests == m.requests
    case GrantTurn(a, now, r) =>
      && a in m.clients && |m.clients[a].outstanding| < PIPELINE
      && m'.clients == (if r.Some? then Queued(m, a, r.value, now).clients else m.clients)
      && m'.requests == (if r.Some? then Queued(m, a, r.value, now).requests else m.requests)
    case PieceRead(a, p) =>
      && a in m.clients && m'.requests == m.requests
      && m'.clients == (if |p| >= 8 then m.clients[a := Heard(m.clients[a], a, p)] else m.clients)
    case ChokeRead(a, choked) =>
      a in m.clients && m'.clients == m.clients[a := m.clients[a].(choked := choked)] && m'.requests == m.requests
    case StallSweep(a, now) =>
      a in m.clients && m'.clients == m.clients[a := Swept(m.clients[a], now)] && m'.requests == m.requests
    case _ => m'.clients == m.clients && m'.requests == m.requests
  }

  ghost predicate ManagerStep(t: Torrent, m: Manager, e: Event, m': Manager)
    requires t.Valid() && |m.picker.pieces| == t.Count() && Sized(m.picker)
  {
    if e.PieceMessage? then m' == PieceArrived(t, m, e.addr, e.payload)
    else
      && ClientsStep(m, e, m')
      && m' == m.(picker := m'.picker, clients := m'.clients, requests := m'.requests)
      && match PickerOp(e)
         case None => m'.picker == m.picker
         case Some(op) => Step(m.picker, op, m'.picker)
  }

  ghost predicate ManagerStepAt(t: Torrent, ms: seq<Manager>, es: seq<Event>, k: nat)
    requires t.Valid() && k < |es| && k + 1 < |ms|
  {
    |ms[k].picker.pieces| == t.Count() && Sized(ms[k].picker) && ManagerStep(t, ms[k], es[k], ms[k + 1])
  }

  /** A run: any interleaving of steps from the new manager. */
  ghost predicate ManagerRun(t: Torrent, ms: seq<Manager>, es: seq<Event>)
    requires t.Valid()
  {
    && |ms| == |es| + 1
    && ms[0] == Start(t)
    && forall k :: 0 <= k < |es| ==> ManagerStepAt(t, ms, es, k)
  }
}
