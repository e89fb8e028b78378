/** What holds in every interleaving of the worker pool. */
module PoolRuns {
  import opened Arith
  import opened Bytes
  import opened Layout
  import opened Closest
  import opened WorkerPool

  // ----- What travels through the channels

  /** data has the length and the digest of piece i. */
  ghost predicate Verified(t: Torrent, i: nat, data: Bytes)
    requires t.Valid()
  {
    i < t.Count() && |data| == PieceLength(t.length, t.pieceLength, i) && t.sha1(data) == t.Hash(i)
  }

  /** The fields of the piece, whatever the number of retries. */
  ghost predicate WorkOk(t: Torrent, work: Work)
    requires t.Valid()
  {
    work.index < t.Count() && work.retries <= MAX_RETRIES && work == FirstWork(t, work.index).(retries := work.retries)
  }

  ghost predicate QueuedOk(t: Torrent, attempts: seq<nat>, work: Work)
    requires t.Valid() && |attempts| == t.Count()
  {
    WorkOk(t, work) && attempts[work.index] == work.retries
  }

  ghost predicate WorkerOk(t: Torrent, attempts: seq<nat>, w: Worker)
    requires t.Valid() && |attempts| == t.Count()
  {
    match w
    case Busy(work) => WorkOk(t, work) && attempts[work.index] == work.retries + 1
    case Requeue(work) => QueuedOk(t, attempts, work)
    case Deliver(result) => Verified(t, result.index, result.data)
    case Report(piece) => piece < t.Count() && attempts[piece] == MAX_RETRIES + 1
    case _ => true
  }

  ghost predicate QueueOk(t: Torrent, attempts: seq<nat>, queue: seq<Work>)
    requires t.Valid() && |attempts| == t.Count()
  {
    forall k :: 0 <= k < |queue| ==> QueuedOk(t, attempts, queue[k])
  }

  ghost predicate WorkersOk(t: Torrent, attempts: seq<nat>, workers: seq<Worker>)
    requires t.Valid() && |attempts| == t.Count()
  {
    forall w :: 0 <= w < |workers| ==> WorkerOk(t, attempts, workers[w])
  }

  ghost predicate ErrorsOk(t: Torrent, attempts: seq<nat>, errors: seq<nat>)
    requires t.Valid() && |attempts| == t.Count()
  {
    forall k :: 0 <= k < |errors| ==> errors[k] < t.Count() && attempts[errors[k]] == MAX_RETRIES + 1
  }

  ghost predicate DataOk(t: Torrent, p: Pool)
    requires t.Valid()
  {
    && (forall k :: 0 <= k < |p.results| ==> Verified(t, p.results[k].index, p.results[k].data))
    && (forall i :: i in p.pieceMap ==> Verified(t, i, p.pieceMap[i]))
  }

  ghost predicate ItemsOk(t: Torrent, p: Pool)
    requires t.Valid()
  {
    && |p.attempts| == t.Count()
    && (forall i :: 0 <= i < t.Count() ==> p.attempts[i] <= MAX_RETRIES + 1)
    && QueueOk(t, p.attempts, p.queue)
    && WorkersOk(t, p.attempts, p.workers)
    && ErrorsOk(t, p.attempts, p.errors)
    && DataOk(t, p)
  }

  /** The number of workers that have exited. */
  function Gone(ws: seq<Worker>): nat {
    if ws == [] then 0 else (if ws[0].Exited? then 1 else 0) + Gone(ws[1..])
  }

  ghost predicate PoolInv(t: Torrent, p: Pool)
    requires t.Valid()
  {
    Conserved(t, p) && ItemsOk(t, p) && |p.errors| <= Gone(p.workers) &&
      (p.collector.Complete? ==> |p.pieceMap| >= t.Count())
  }

  // ----- Beginning a download

  lemma {:induction false} NotQueued(q: seq<Work>, i: nat)
    requires Queued(q, i) == 0
    ensures forall k :: 0 <= k < |q| ==> q[k].index != i
  {
    if q != [] {
      NotQueued(q[1..], i);
      assert forall k :: 1 <= k < |q| ==> q[k] == q[1..][k - 1];
    }
  }

  lemma {:induction false} NotHeld(ws: seq<Worker>, i: nat)
    requires Held(ws, i) == 0
    ensures forall w :: 0 <= w < |ws| ==> !Holds(ws[w], i)
  {
    if ws != [] {
      NotHeld(ws[1..], i);
      assert forall w :: 1 <= w < |ws| ==> ws[w] == ws[1..][w - 1];
    }
  }

  lemma {:induction false} NotLost(errors: seq<nat>, i: nat)
    requires Lost(errors, i) == 0
    ensures forall k :: 0 <= k < |errors| ==> errors[k] != i
  {
    if errors != [] {
      NotLost(errors[1..], i);
      assert forall k :: 1 <= k < |errors| ==> errors[k] == errors[1..][k - 1];
    }
  }

  /** The piece at the head of the queue is nowhere else. */
  lemma HeadIsAlone(t: Torrent, p: Pool)
    requires t.Valid() && Conserved(t, p) && p.queue != []
    ensures var i := p.queue[0].index;
            Queued(p.queue[1..], i) == 0 && Held(p.workers, i) == 0 && Lost(p.errors, i) == 0
  {
    assert Places(p, p.queue[0].index) <= 1;
  }

  lemma QueueKept(t: Torrent, attempts: seq<nat>, queue: seq<Work>, i: nat)
    requires t.Valid() && |attempts| == t.Count() && QueueOk(t, attempts, queue) && Queued(queue, i) == 0
    ensures QueueOk(t, Begun(attempts, i), queue)
  {
    NotQueued(queue, i);
    forall k | 0 <= k < |queue|
      ensures QueuedOk(t, Begun(attempts, i), queue[k])
    {
      assert QueuedOk(t, attempts, queue[k]);
    }
  }

  lemma WorkersKept(t: Torrent, attempts: seq<nat>, workers: seq<Worker>, i: nat)
    requires t.Valid() && |attempts| == t.Count() && WorkersOk(t, attempts, workers) && Held(workers, i) == 0
    ensures WorkersOk(t, Begun(attempts, i), workers)
  {
    NotHeld(workers, i);
    forall w | 0 <= w < |workers|
      ensures WorkerOk(t, Begun(attempts, i), workers[w])
    {
      assert WorkerOk(t, attempts, workers[w]);
    }
  }

  lemma TakeKeepsItems(t: Torrent, p: Pool, w: nat)
    requires t.Valid() && Conserved(t, p) && ItemsOk(t, p) && Enabled(t, p, Take(w))
    ensures ItemsOk(t, Step(t, p, Take(w)))
  {
    var i, rest := p.queue[0].index, p.queue[1..];
    HeadIsAlone(t, p);
    assert QueuedOk(t, p.attempts, p.queue[0]);
    assert QueueOk(t, p.attempts, rest);
    QueueKept(t, p.attempts, rest, i);
    WorkersKept(t, p.attempts, p.workers, i);
    NotLost(p.errors, i);
  }

  // ----- The other steps

  lemma DownloadOk(t: Torrent, attempts: seq<nat>, work: Work, got: Option<Bytes>)
    requires t.Valid() && |attempts| == t.Count() && WorkerOk(t, attempts, Busy(work))
    requires got.Some? ==> |got.value| == work.length
    ensures WorkerOk(t, attempts, Downloaded(t, work, got))
  {
  }

  lemma WorkerUpdate(t: Torrent, p: Pool, w: nat, x: Worker)
    requires t.Valid() && ItemsOk(t, p) && w < |p.workers| && WorkerOk(t, p.attempts, x)
    ensures ItemsOk(t, p.(workers := p.workers[w := x]))
  {
  }

  lemma SendKeepsItems(t: Torrent, p: Pool, w: nat)
    requires t.Valid() && ItemsOk(t, p) && w < |p.workers| && Sending(p.workers[w])
    ensures ItemsOk(t, Sent(p, w))
  {
    assert WorkerOk(t, p.attempts, p.workers[w]);
    match p.workers[w]
    case Requeue(work) => WorkerUpdate(t, p, w, Idle);
    case Deliver(result) => WorkerUpdate(t, p, w, Idle);
    case Report(piece) => WorkerUpdate(t, p, w, Exited);
  }

  lemma CollectKeepsItems(t: Torrent, p: Pool)
    requires t.Valid() && ItemsOk(t, p) && p.results != []
    ensures ItemsOk(t, Collected(p))
  {
    assert DataOk(t, p);
  }

  lemma StepKeepsItems(t: Torrent, p: Pool, a: Action)
    requires t.Valid() && Conserved(t, p) && ItemsOk(t, p) && Enabled(t, p, a)
    ensures ItemsOk(t, Step(t, p, a))
  {
    match a
    case Connect(w, ok) => WorkerUpdate(t, p, w, if ok then Idle else Exited);
    case Take(w) => TakeKeepsItems(t, p, w);
    case Download(w, got) =>
      assert WorkerOk(t, p.attempts, p.workers[w]);
      DownloadOk(t, p.attempts, p.workers[w].work, got);
      WorkerUpdate(t, p, w, Downloaded(t, p.workers[w].work, got));
    case Send(w) => SendKeepsItems(t, p, w);
    case Collect => CollectKeepsItems(t, p);
    case _ =>
  }

  lemma {:induction false} GoneUpdate(ws: seq<Worker>, w: nat, x: Worker)
    requires w < |ws|
    ensures Gone(ws[w := x]) == Gone(ws) - (if ws[w].Exited? then 1 else 0) + (if x.Exited? then 1 else 0)
  {
    if w == 0 {
      assert ws[0 := x][1..] == ws[1..];
    } else {
      GoneUpdate(ws[1..], w - 1, x);
      assert ws[w := x][1..] == ws[1..][w - 1 := x];
    }
  }

  /** An error is sent by a worker that then exits. */
  lemma StepKeepsGone(t: Torrent, p: Pool, a: Action)
    requires t.pieceLength > 0 && Enabled(t, p, a) && |p.errors| <= Gone(p.workers)
    ensures |Step(t, p, a).errors| <= Gone(Step(t, p, a).workers)
  {
    match a
    case Connect(w, ok) => GoneUpdate(p.workers, w, if ok then Idle else Exited);
    case Take(w) => GoneUpdate(p.workers, w, Busy(p.queue[0]));
    case Download(w, got) => GoneUpdate(p.workers, w, Downloaded(t, p.workers[w].work, got));
    case Send(w) => GoneUpdate(p.workers, w, if p.workers[w].Report? then Exited else Idle);
    case _ =>
  }

  /** Every step of every worker and of the collector keeps the books. */
  lemma StepKeepsInv(t: Torrent, p: Pool, a: Action)
    requires t.Valid() && PoolInv(t, p) && Enabled(t, p, a)
    ensures PoolInv(t, Step(t, p, a))
  {
    StepConserves(t, p, a);
    StepKeepsItems(t, p, a);
    StepKeepsGone(t, p, a);
  }

  // ----- Runs

  ghost predicate StepAt(t: Torrent, states: seq<Pool>, actions: seq<Action>, k: nat)
    requires t.Valid() && |states| == |actions| + 1 && k < |actions|
  {
    Enabled(t, states[k], actions[k]) && states[k + 1] == Step(t, states[k], actions[k])
  }

  /** Any interleaving, from the start of the pool to whatever point it has reached. */
  ghost predicate Run(t: Torrent, n: nat, states: seq<Pool>, actions: seq<Action>)
    requires t.Valid()
  {
    && |states| == |actions| + 1
    && states[0] == Start(t, n)
    && forall k :: 0 <= k < |actions| ==> StepAt(t, states, actions, k)
  }

  lemma {:induction false} NoneGone(ws: seq<Worker>)
    requires forall w :: 0 <= w < |ws| ==> ws[w].Starting?
    ensures Gone(ws) == 0
  {
    if ws != [] {
      NoneGone(ws[1..]);
    }
  }

  lemma StartInv(t: Torrent, n: nat)
    requires t.Valid()
    ensures PoolInv(t, Start(t, n))
  {
    StartConserved(t, n);
    NoneGone(Start(t, n).workers);
  }

  /** Conservation, attempts and verification in every reachable state. */
  lemma {:induction false} RunKeepsInv(t: Torrent, n: nat, states: seq<Pool>, actions: seq<Action>, k: nat)
    requires t.Valid() && Run(t, n, states, actions) && k < |states|
    ensures PoolInv(t, states[k])
  {
    if k == 0 {
      StartInv(t, n);
    } else {
      RunKeepsInv(t, n, states, actions, k - 1);
      assert StepAt(t, states, actions, k - 1);
      StepKeepsInv(t, states[k - 1], actions[k - 1]);
    }
  }

  // ----- Sends never block

  lemma IndicesCount(n: nat) returns (all: set<nat>)
    ensures |all| == n && forall i: nat :: i in all <==> i < n
  {
    all := {};
    for k := 0 to n
      invariant |all| == k && forall i: nat :: i in all <==> i < k
    {
      all := all + {k};
    }
  }

  /** Different indices below n, one of them missing, are fewer than n. */
  lemma Fewer(ids: seq<nat>, n: nat, i: nat)
    requires Distinct(ids) && i < n && forall x :: x in ids ==> x < n && x != i
    ensures |ids| < n
  {
    var all := IndicesCount(n);
    ElementCount(ids);
    SubsetCount(Elements(ids), all - {i});
  }

  lemma {:induction false} QueuedTwice(q: seq<Work>, j: nat, k: nat)
    requires j < k < |q| && q[j].index == q[k].index
    ensures Queued(q, q[k].index) >= 2
  {
    if j == 0 {
      QueuedOnce(q[1..], k - 1);
    } else {
      QueuedTwice(q[1..], j - 1, k - 1);
    }
  }

  lemma {:induction false} QueuedOnce(q: seq<Work>, k: nat)
    requires k < |q|
    ensures Queued(q, q[k].index) >= 1
  {
    if k > 0 {
      QueuedOnce(q[1..], k - 1);
    }
  }

  lemma {:induction false} WaitingTwice(rs: seq<Result>, j: nat, k: nat)
    requires j < k < |rs| && rs[j].index == rs[k].index
    ensures Waiting(rs, rs[k].index) >= 2
  {
    if j == 0 {
      WaitingOnce(rs[1..], k - 1);
    } else {
      WaitingTwice(rs[1..], j - 1, k - 1);
    }
  }

  lemma {:induction false} WaitingOnce(rs: seq<Result>, k: nat)
    requires k < |rs|
    ensures Waiting(rs, rs[k].index) >= 1
  {
    if k > 0 {
      WaitingOnce(rs[1..], k - 1);
    }
  }

  lemma HolderCounts(t: Torrent, p: Pool, w: nat, i: nat)
    requires t.Valid() && Conserved(t, p) && w < |p.workers| && Holds(p.workers[w], i)
    ensures Queued(p.queue, i) == 0 && Waiting(p.results, i) == 0
  {
    assert Places(p, i) <= 1;
    if Held(p.workers, i) == 0 {
      NotHeld(p.workers, i);
    }
  }

  lemma QueueHasRoom(t: Torrent, p: Pool, i: nat)
    requires t.Valid() && Conserved(t, p) && QueueInRange(t, p.queue) && i < t.Count() && Queued(p.queue, i) == 0
    ensures |p.queue| < t.Count()
  {
    var ids := seq(|p.queue|, k requires 0 <= k < |p.queue| => p.queue[k].index);
    NotQueued(p.queue, i);
    forall j, k | 0 <= j < k < |ids|
      ensures ids[j] != ids[k]
    {
      assert Places(p, p.queue[k].index) <= 1;
      if ids[j] == ids[k] {
        QueuedTwice(p.queue, j, k);
      }
    }
    Fewer(ids, t.Count(), i);
  }

  ghost predicate QueueInRange(t: Torrent, q: seq<Work>)
    requires t.Valid()
  {
    forall k :: 0 <= k < |q| ==> q[k].index < t.Count()
  }

  lemma ResultsHaveRoom(t: Torrent, p: Pool, i: nat)
    requires t.Valid() && Conserved(t, p) && i < t.Count() && Waiting(p.results, i) == 0
    requires forall k :: 0 <= k < |p.results| ==> p.results[k].index < t.Count()
    ensures |p.results| < t.Count()
  {
    var ids := seq(|p.results|, k requires 0 <= k < |p.results| => p.results[k].index);
    forall k | 0 <= k < |ids|
      ensures ids[k] != i
    {
      WaitingOnce(p.results, k);
    }
    forall j, k | 0 <= j < k < |ids|
      ensures ids[j] != ids[k]
    {
      assert Places(p, p.results[k].index) <= 1;
      if ids[j] == ids[k] {
        WaitingTwice(p.results, j, k);
      }
    }
    Fewer(ids, t.Count(), i);
  }

  lemma {:induction false} GoneBound(ws: seq<Worker>)
    ensures Gone(ws) <= |ws|
  {
    if ws != [] {
      GoneBound(ws[1..]);
    }
  }

  lemma {:induction false} NotAllGone(ws: seq<Worker>, w: nat)
    requires w < |ws| && !ws[w].Exited?
    ensures Gone(ws) < |ws|
  {
    if w == 0 {
      GoneBound(ws[1..]);
    } else {
      NotAllGone(ws[1..], w - 1);
    }
  }

  /** A worker that has something to send always finds room in the channel. */
  lemma SendsNeverBlock(t: Torrent, p: Pool, w: nat)
    requires t.Valid() && PoolInv(t, p) && w < |p.workers| && Sending(p.workers[w])
    ensures Room(t, p, p.workers[w])
  {
    assert WorkerOk(t, p.attempts, p.workers[w]);
    match p.workers[w]
    case Requeue(work) =>
      HolderCounts(t, p, w, work.index);
      QueueHasRoom(t, p, work.index);
    case Deliver(result) =>
      HolderCounts(t, p, w, result.index);
      ResultsHaveRoom(t, p, result.index);
    case Report(piece) => NotAllGone(p.workers, w);
  }
}
