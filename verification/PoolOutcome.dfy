/** How the worker pool ends: it always does, and what it then returns. */
module PoolOutcome {
  import opened Arith
  import opened Bytes
  import opened Layout
  import opened WorkerPool
  import opened PoolRuns

  // ----- No deadlock

  lemma {:induction false} NoneHeld(ws: seq<Worker>, i: nat)
    requires forall w :: 0 <= w < |ws| ==> ws[w].Idle? || ws[w].Exited?
    ensures Held(ws, i) == 0
  {
    if ws != [] {
      NoneHeld(ws[1..], i);
    }
  }

  /** With nothing under way, every piece has been collected. */
  lemma NothingMissing(t: Torrent, p: Pool)
    requires t.Valid() && Conserved(t, p) && p.queue == [] && p.results == [] && p.errors == []
    requires forall w :: 0 <= w < |p.workers| ==> p.workers[w].Idle? || p.workers[w].Exited?
    ensures |p.pieceMap| >= t.Count()
  {
    var all := IndicesCount(t.Count());
    forall i | i in all
      ensures i in p.pieceMap.Keys
    {
      NoneHeld(p.workers, i);
      assert Places(p, i) == 1;
    }
    SubsetCount(all, p.pieceMap.Keys);
  }

  /** Until the pool shuts down, somebody can always move. */
  lemma NoDeadlock(t: Torrent, p: Pool) returns (a: Action)
    requires t.Valid() && PoolInv(t, p) && p.collector.Collecting?
    ensures Enabled(t, p, a)
  {
    if |p.pieceMap| >= t.Count() {
      a := Finish;
    } else if p.results != [] {
      a := Collect;
    } else if p.errors != [] {
      a := CollectError;
    } else if w :| 0 <= w < |p.workers| && p.workers[w].Starting? {
      a := Connect(w, false);
    } else if w :| 0 <= w < |p.workers| && p.workers[w].Busy? {
      a := Download(w, None);
    } else if w :| 0 <= w < |p.workers| && Sending(p.workers[w]) {
      SendsNeverBlock(t, p, w);
      a := Send(w);
    } else if forall w :: 0 <= w < |p.workers| ==> p.workers[w].Exited? {
      a := CollectGone;
    } else {
      var w :| 0 <= w < |p.workers| && !p.workers[w].Exited?;
      if p.queue == [] {
        NothingMissing(t, p);
      }
      a := Take(w);
    }
  }

  // ----- Termination

  function Rest(retries: nat): nat {
    if retries <= MAX_RETRIES then 4 * (MAX_RETRIES + 1 - retries) else 0
  }

  function QueueCost(q: seq<Work>): nat {
    if q == [] then 0 else Rest(q[0].retries) + 3 + QueueCost(q[1..])
  }

  function WorkerCost(w: Worker): nat {
    match w
    case Starting => 1
    case Busy(work) => Rest(work.retries) + 2
    case Requeue(work) => Rest(work.retries) + 4
    case Deliver(_) => 3
    case Report(_) => 3
    case _ => 0
  }

  function WorkersCost(ws: seq<Worker>): nat {
    if ws == [] then 0 else WorkerCost(ws[0]) + WorkersCost(ws[1..])
  }

  /** A bound on the steps that are left. */
  function Cost(p: Pool): nat {
    QueueCost(p.queue) + WorkersCost(p.workers) + 2 * |p.results| + 2 * |p.errors| +
      if p.collector.Collecting? then 1 else 0
  }

  lemma {:induction false} QueueCostAppend(q: seq<Work>, x: Work)
    ensures QueueCost(q + [x]) == QueueCost(q) + Rest(x.retries) + 3
  {
    if q != [] {
      QueueCostAppend(q[1..], x);
      assert (q + [x])[1..] == q[1..] + [x];
    }
  }

  lemma {:induction false} WorkersCostUpdate(ws: seq<Worker>, w: nat, x: Worker)
    requires w < |ws|
    ensures WorkersCost(ws[w := x]) == WorkersCost(ws) - WorkerCost(ws[w]) + WorkerCost(x)
  {
    if w == 0 {
      assert ws[0 := x][1..] == ws[1..];
    } else {
      WorkersCostUpdate(ws[1..], w - 1, x);
      assert ws[w := x][1..] == ws[1..][w - 1 := x];
    }
  }

  lemma SendCosts(p: Pool, w: nat)
    requires w < |p.workers| && Sending(p.workers[w])
    ensures Cost(Sent(p, w)) < Cost(p)
  {
    match p.workers[w]
    case Requeue(work) =>
      WorkersCostUpdate(p.workers, w, Idle);
      QueueCostAppend(p.queue, work);
    case Deliver(_) => WorkersCostUpdate(p.workers, w, Idle);
    case Report(_) => WorkersCostUpdate(p.workers, w, Exited);
  }

  /** Every step uses up some of it. */
  lemma StepCosts(t: Torrent, p: Pool, a: Action)
    requires t.Valid() && ItemsOk(t, p) && Enabled(t, p, a)
    ensures Cost(Step(t, p, a)) < Cost(p)
  {
    match a
    case Connect(w, ok) => WorkersCostUpdate(p.workers, w, if ok then Idle else Exited);
    case Take(w) => WorkersCostUpdate(p.workers, w, Busy(p.queue[0]));
    case Download(w, got) =>
      assert WorkerOk(t, p.attempts, p.workers[w]);
      WorkersCostUpdate(p.workers, w, Downloaded(t, p.workers[w].work, got));
    case Send(w) => SendCosts(p, w);
    case _ =>
  }

  lemma {:induction false} StartQueueCost(q: seq<Work>)
    requires forall k :: 0 <= k < |q| ==> q[k].retries == 0
    ensures QueueCost(q) == 19 * |q|
  {
    if q != [] {
      StartQueueCost(q[1..]);
    }
  }

  lemma {:induction false} StartWorkersCost(ws: seq<Worker>)
    requires forall w :: 0 <= w < |ws| ==> ws[w].Starting?
    ensures WorkersCost(ws) == |ws|
  {
    if ws != [] {
      StartWorkersCost(ws[1..]);
    }
  }

  lemma {:induction false} RunCosts(t: Torrent, n: nat, states: seq<Pool>, actions: seq<Action>, k: nat)
    requires t.Valid() && Run(t, n, states, actions) && k < |states|
    ensures Cost(states[k]) + k <= 19 * t.Count() + n + 1
  {
    if k == 0 {
      StartQueueCost(states[0].queue);
      StartWorkersCost(states[0].workers);
    } else {
      RunCosts(t, n, states, actions, k - 1);
      RunKeepsInv(t, n, states, actions, k - 1);
      assert StepAt(t, states, actions, k - 1);
      StepCosts(t, states[k - 1], actions[k - 1]);
    }
  }

  /**
   * The pool shuts down in every interleaving: a run has at most this many steps, and only a run that has
   * reached shutdown cannot be continued.
   */
  lemma AlwaysShutsDown(t: Torrent, n: nat, states: seq<Pool>, actions: seq<Action>)
    requires t.Valid() && Run(t, n, states, actions)
    ensures |actions| <= 19 * t.Count() + n + 1
    ensures (forall a :: !Enabled(t, states[|actions|], a)) <==> !states[|actions|].collector.Collecting?
  {
    RunCosts(t, n, states, actions, |actions|);
    RunKeepsInv(t, n, states, actions, |actions|);
    if states[|actions|].collector.Collecting? {
      var a := NoDeadlock(t, states[|actions|]);
    }
  }

  // ----- What is returned

  /** The first k pieces, in order. */
  function Concat(pieces: map<nat, Bytes>, k: nat): Bytes
    requires forall i :: 0 <= i < k ==> i in pieces
  {
    if k == 0 then [] else Concat(pieces, k - 1) + pieces[k - 1]
  }

  lemma {:induction false} ConcatLength(total: nat, pieceLen: nat, pieces: map<nat, Bytes>, k: nat)
    requires pieceLen > 0 && k <= PieceCount(total, pieceLen)
    requires forall i :: 0 <= i < PieceCount(total, pieceLen) ==>
             i in pieces && |pieces[i]| == PieceLength(total, pieceLen, i)
    ensures |Concat(pieces, k)| == if k == PieceCount(total, pieceLen) then total else k * pieceLen
  {
    if k == 0 {
      EmptyCount(total, pieceLen);
    } else {
      ConcatLength(total, pieceLen, pieces, k - 1);
      assert |pieces[k - 1]| == PieceLength(total, pieceLen, k - 1);
      PieceCountBounds(total, pieceLen, k - 1);
    }
  }

  /** Every piece follows those before it. */
  lemma {:induction false} ConcatSits(pieces: map<nat, Bytes>, k: nat, i: nat)
    requires i < k && forall j :: 0 <= j < k ==> j in pieces
    ensures Sits(Concat(pieces, k), |Concat(pieces, i)|, pieces[i])
  {
    if i < k - 1 {
      ConcatSits(pieces, k - 1, i);
    }
  }

  lemma EmptyCount(total: nat, pieceLen: nat)
    requires pieceLen > 0
    ensures PieceCount(total, pieceLen) == 0 <==> total == 0
  {
    if total > 0 {
      PieceOf(total, pieceLen, 0);
    } else if PieceCount(total, pieceLen) > 0 {
      PieceCountBounds(total, pieceLen, 0);
    }
  }

  /** part is found in s at offset `at`. */
  predicate Sits(s: Bytes, at: nat, part: Bytes) {
    at + |part| <= |s| && s[at..at + |part|] == part
  }

  /** The assembly loop. */
  method Assemble(t: Torrent, pieceMap: map<nat, Bytes>) returns (fileData: Bytes)
    requires t.Valid() && forall i :: 0 <= i < t.Count() ==> i in pieceMap
    ensures fileData == Concat(pieceMap, t.Count())
  {
    fileData := [];
    for i := 0 to t.Count()
      invariant fileData == Concat(pieceMap, i)
    {
      fileData := fileData + pieceMap[i];
    }
  }

  /** The loop that fills the work channel; it has room for four times as much. */
  method FillQueue(t: Torrent) returns (queue: seq<Work>)
    requires t.Valid()
    ensures queue == Start(t, 0).queue && |queue| <= 4 * t.Count()
  {
    queue := [];
    var totalPieces := (t.length + t.pieceLength - 1) / t.pieceLength;
    for i := 0 to totalPieces
      invariant |queue| == i && forall k :: 0 <= k < i ==> queue[k] == FirstWork(t, k)
    {
      var pl := t.pieceLength;
      if i == totalPieces - 1 {
        pl := t.length - i * t.pieceLength;
      }
      PieceCountBounds(t.length, t.pieceLength, i);
      queue := queue + [Work(i, pl, t.hashes[i * 20..(i + 1) * 20], 0)];
    }
  }

  lemma AllCollected(t: Torrent, p: Pool)
    requires t.Valid() && Conserved(t, p) && |p.pieceMap| >= t.Count()
    ensures forall i :: i in p.pieceMap <==> 0 <= i < t.Count()
  {
    var all := IndicesCount(t.Count());
    forall i | i in p.pieceMap
      ensures i in all
    {
      assert Places(p, i) >= 1;
    }
    SubsetCount(p.pieceMap.Keys, all);
    assert p.pieceMap.Keys == all;
  }

  /**
   * Success: every piece was collected, and the concatenation has the length of the torrent and, at the
   * place of every piece, bytes with that piece's digest.
   */
  lemma SuccessIsVerified(t: Torrent, n: nat, states: seq<Pool>, actions: seq<Action>)
    requires t.Valid() && Run(t, n, states, actions) && states[|actions|].collector.Complete?
    ensures var pieces := states[|actions|].pieceMap;
            && (forall i :: i in pieces <==> 0 <= i < t.Count())
            && var file := Concat(pieces, t.Count());
            && |file| == t.length
            && forall i :: 0 <= i < t.Count() ==> Verified(t, i, PieceBytes(file, t.pieceLength, i))
  {
    var p := states[|actions|];
    RunKeepsInv(t, n, states, actions, |actions|);
    AllCollected(t, p);
    VerifiedFile(t, p.pieceMap);
  }

  lemma VerifiedFile(t: Torrent, pieces: map<nat, Bytes>)
    requires t.Valid() && forall i :: 0 <= i < t.Count() ==> i in pieces && Verified(t, i, pieces[i])
    ensures |Concat(pieces, t.Count())| == t.length
    ensures forall i :: 0 <= i < t.Count() ==>
              PieceBytes(Concat(pieces, t.Count()), t.pieceLength, i) == pieces[i] && Verified(t, i, pieces[i])
  {
    var file := Concat(pieces, t.Count());
    ConcatLength(t.length, t.pieceLength, pieces, t.Count());
    forall i | 0 <= i < t.Count()
      ensures PieceBytes(file, t.pieceLength, i) == pieces[i]
    {
      assert Verified(t, i, pieces[i]);
      ConcatLength(t.length, t.pieceLength, pieces, i);
      ConcatSits(pieces, t.Count(), i);
    }
  }
}
