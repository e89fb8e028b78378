/** The concurrent download: a work queue, workers that retry, and a collector, as interleaved atomic steps. */
module WorkerPool {
  import opened Bytes
  import opened Layout

  const MAX_RETRIES: nat := 3

  datatype Work = Work(index: nat, length: nat, hash: Bytes, retries: nat)

  datatype Result = Result(index: nat, data: Bytes)

  /** What a worker is doing; Requeue, Deliver and Report are about to send on a channel. */
  datatype Worker =
    | Starting
    | Idle
    | Busy(work: Work)
    | Requeue(again: Work)
    | Deliver(result: Result)
    | Report(piece: nat)
    | Exited

  datatype Collector = Collecting | Failed | Complete

  /** `attempts` remembers how often the download of each piece was begun. */
  datatype Pool = Pool(
    queue: seq<Work>,
    workers: seq<Worker>,
    results: seq<Result>,
    errors: seq<nat>,
    pieceMap: map<nat, Bytes>,
    collector: Collector,
    attempts: seq<nat>)

  function FirstWork(t: Torrent, i: nat): Work
    requires t.Valid() && i < t.Count()
  {
    Work(i, PieceLength(t.length, t.pieceLength, i), t.Hash(i), 0)
  }

  /** Every piece queued, `n` workers about to connect. */
  ghost function Start(t: Torrent, n: nat): Pool
    requires t.Valid()
  {
    Pool(seq(t.Count(), i requires 0 <= i < t.Count() => FirstWork(t, i)), seq(n, _ => Starting), [], [], map[],
      Collecting,
         seq(t.Count(), _ => 0))
  }

  // ----- Steps

  datatype Action =
    | Connect(w: nat, ok: bool)
    | Take(w: nat)
    | Download(w: nat, got: Option<Bytes>)
    | Send(w: nat)
    | Collect
    | CollectError
    | CollectGone
    | Finish

  /** The worker after DownloadPiece failed (None) or returned data. */
  function Downloaded(t: Torrent, work: Work, got: Option<Bytes>): Worker {
    if got.Some? && t.sha1(got.value) == work.hash then Deliver(Result(work.index, got.value))
    else if work.retries < MAX_RETRIES then Requeue(work.(retries := work.retries + 1))
    else Report(work.index)
  }

  predicate Sending(w: Worker) {
    w.Requeue? || w.Deliver? || w.Report?
  }

  /** There is room in the channel the worker sends on. */
  predicate Room(t: Torrent, p: Pool, w: Worker)
    requires t.pieceLength > 0
  {
    match w
    case Requeue(_) => |p.queue| < 4 * t.Count()
    case Deliver(_) => |p.results| < t.Count()
    case Report(_) => |p.errors| < |p.workers|
    case _ => true
  }

  predicate Enabled(t: Torrent, p: Pool, a: Action)
    requires t.pieceLength > 0
  {
    p.collector.Collecting? &&
    match a
    case Connect(w, _) => w < |p.workers| && p.workers[w].Starting?
    case Take(w) => w < |p.workers| && p.workers[w].Idle? && p.queue != []
    case Download(w, got) =>
      w < |p.workers| && p.workers[w].Busy? && (got.Some? ==> |got.value| == p.workers[w].work.length)
    case Send(w) => w < |p.workers| && Sending(p.workers[w]) && Room(t, p, p.workers[w])
    case Collect => |p.pieceMap| < t.Count() && p.results != []
    case CollectError => |p.pieceMap| < t.Count() && p.errors != []
    case CollectGone => |p.pieceMap| < t.Count() && forall w :: 0 <= w < |p.workers| ==> p.workers[w].Exited?
    case Finish => |p.pieceMap| >= t.Count()
  }

  function Sent(p: Pool, w: nat): Pool
    requires w < |p.workers| && Sending(p.workers[w])
  {
    match p.workers[w]
    case Requeue(work) => p.(queue := p.queue + [work], workers := p.workers[w := Idle])
    case Deliver(result) => p.(results := p.results + [result], workers := p.workers[w := Idle])
    case Report(piece) => p.(errors := p.errors + [piece], workers := p.workers[w := Exited])
  }

  function Collected(p: Pool): Pool
    requires p.results != []
  {
    p.(results := p.results[1..], pieceMap := p.pieceMap[p.results[0].index := p.results[0].data])
  }

  function Begun(attempts: seq<nat>, i: nat): seq<nat> {
    if i < |attempts| then attempts[i := attempts[i] + 1] else attempts
  }

  function Step(t: Torrent, p: Pool, a: Action): Pool
    requires t.pieceLength > 0 && Enabled(t, p, a)
  {
    match a
    case Connect(w, ok) => p.(workers := p.workers[w := if ok then Idle else Exited])
    case Take(w) =>
      p.(queue := p.queue[1..], workers := p.workers[w := Busy(p.queue[0])],
        attempts := Begun(p.attempts, p.queue[0].index))
    case Download(w, got) => p.(workers := p.workers[w := Downloaded(t, p.workers[w].work, got)])
    case Send(w) => Sent(p, w)
    case Collect => Collected(p)
    case CollectError => p.(collector := Failed)
    case CollectGone => p.(collector := Failed)
    case Finish => p.(collector := Complete)
  }

  // ----- Where the pieces are

  /** How often piece i is in the queue. */
  function Queued(q: seq<Work>, i: nat): nat {
    if q == [] then 0 else (if q[0].index == i then 1 else 0) + Queued(q[1..], i)
  }

  predicate Holds(w: Worker, i: nat) {
    match w
    case Busy(work) => work.index == i
    case Requeue(work) => work.index == i
    case Deliver(result) => result.index == i
    case Report(piece) => piece == i
    case _ => false
  }

  /** How many workers hold it. */
  function Held(ws: seq<Worker>, i: nat): nat {
    if ws == [] then 0 else (if Holds(ws[0], i) then 1 else 0) + Held(ws[1..], i)
  }

  /** How often it is in the result channel. */
  function Waiting(rs: seq<Result>, i: nat): nat {
    if rs == [] then 0 else (if rs[0].index == i then 1 else 0) + Waiting(rs[1..], i)
  }

  /** How often it is in the error channel. */
  function Lost(errors: seq<nat>, i: nat): nat {
    if errors == [] then 0 else (if errors[0] == i then 1 else 0) + Lost(errors[1..], i)
  }

  /** The number of places that piece i is in. */
  function Places(p: Pool, i: nat): nat {
    Queued(p.queue, i) + Held(p.workers, i) + Waiting(p.results, i) + Lost(p.errors, i) +
      if i in p.pieceMap then 1 else 0
  }

  /** Every piece is in exactly one place. */
  ghost predicate Conserved(t: Torrent, p: Pool)
    requires t.pieceLength > 0
  {
    forall i: nat :: Places(p, i) == if i < t.Count() then 1 else 0
  }

  lemma {:induction false} QueuedAppend(q: seq<Work>, x: Work, i: nat)
    ensures Queued(q + [x], i) == Queued(q, i) + if x.index == i then 1 else 0
  {
    if q != [] {
      QueuedAppend(q[1..], x, i);
      assert (q + [x])[1..] == q[1..] + [x];
    }
  }

  lemma {:induction false} WaitingAppend(rs: seq<Result>, x: Result, i: nat)
    ensures Waiting(rs + [x], i) == Waiting(rs, i) + if x.index == i then 1 else 0
  {
    if rs != [] {
      WaitingAppend(rs[1..], x, i);
      assert (rs + [x])[1..] == rs[1..] + [x];
    }
  }

  lemma {:induction false} LostAppend(errors: seq<nat>, x: nat, i: nat)
    ensures Lost(errors + [x], i) == Lost(errors, i) + if x == i then 1 else 0
  {
    if errors != [] {
      LostAppend(errors[1..], x, i);
      assert (errors + [x])[1..] == errors[1..] + [x];
    }
  }

  lemma {:induction false} HeldUpdate(ws: seq<Worker>, w: nat, x: Worker, i: nat)
    requires w < |ws|
    ensures Held(ws[w := x], i) == Held(ws, i) - (if Holds(ws[w], i) then 1 else 0) + (if Holds(x, i) then 1 else 0)
  {
    if w == 0 {
      assert ws[0 := x][1..] == ws[1..];
    } else {
      HeldUpdate(ws[1..], w - 1, x, i);
      assert ws[w := x][1..] == ws[1..][w - 1 := x];
    }
  }

  lemma SendMoves(p: Pool, w: nat, i: nat)
    requires w < |p.workers| && Sending(p.workers[w])
    ensures Places(Sent(p, w), i) == Places(p, i)
  {
    match p.workers[w]
    case Requeue(work) =>
      HeldUpdate(p.workers, w, Idle, i);
      QueuedAppend(p.queue, work, i);
    case Deliver(result) =>
      HeldUpdate(p.workers, w, Idle, i);
      WaitingAppend(p.results, result, i);
    case Report(piece) =>
      HeldUpdate(p.workers, w, Exited, i);
      LostAppend(p.errors, piece, i);
  }

  /** A result that is collected was not collected before. */
  lemma CollectMoves(p: Pool, i: nat)
    requires p.results != [] && Places(p, p.results[0].index) <= 1
    ensures Places(Collected(p), i) == Places(p, i)
  {
  }

  lemma StepMoves(t: Torrent, p: Pool, a: Action, i: nat)
    requires t.pieceLength > 0 && Enabled(t, p, a) && (a.Collect? ==> Places(p, p.results[0].index) <= 1)
    ensures Places(Step(t, p, a), i) == Places(p, i)
  {
    match a
    case Connect(w, ok) => HeldUpdate(p.workers, w, if ok then Idle else Exited, i);
    case Take(w) => HeldUpdate(p.workers, w, Busy(p.queue[0]), i);
    case Download(w, got) => HeldUpdate(p.workers, w, Downloaded(t, p.workers[w].work, got), i);
    case Send(w) => SendMoves(p, w, i);
    case Collect => CollectMoves(p, i);
    case _ =>
  }

  /** No step loses or duplicates a piece. */
  lemma StepConserves(t: Torrent, p: Pool, a: Action)
    requires t.pieceLength > 0 && Enabled(t, p, a) && Conserved(t, p)
    ensures Conserved(t, Step(t, p, a))
  {
    var next := Step(t, p, a);
    forall i: nat
      ensures Places(next, i) == if i < t.Count() then 1 else 0
    {
      StepMoves(t, p, a, i);
    }
  }

  lemma {:induction false} StartQueued(t: Torrent, k: nat, i: nat)
    requires t.Valid() && k <= t.Count()
    ensures Queued(Start(t, 0).queue[k..], i) == if k <= i < t.Count() then 1 else 0
    decreases t.Count() - k
  {
    var q := Start(t, 0).queue;
    if k < t.Count() {
      StartQueued(t, k + 1, i);
      assert q[k..][1..] == q[k + 1..];
    }
  }

  lemma {:induction false} NobodyHolds(ws: seq<Worker>, i: nat)
    requires forall w :: 0 <= w < |ws| ==> ws[w].Starting?
    ensures Held(ws, i) == 0
  {
    if ws != [] {
      NobodyHolds(ws[1..], i);
    }
  }

  lemma StartConserved(t: Torrent, n: nat)
    requires t.Valid()
    ensures Conserved(t, Start(t, n))
  {
    var p := Start(t, n);
    forall i: nat
      ensures Places(p, i) == if i < t.Count() then 1 else 0
    {
      StartQueued(t, 0, i);
      assert p.queue == Start(t, 0).queue[0..];
      NobodyHolds(p.workers, i);
    }
  }
}
