/** What downloads bring: right bytes are delivered, and a piece is given up only after four downloads without them. */
module PoolFailures {
  import opened Layout
  import opened WorkerPool
  import opened PoolRuns

  // ----- One download

  /** The action is a download of piece i. */
  predicate Downloads(p: Pool, a: Action, i: nat) {
    a.Download? && a.w < |p.workers| && p.workers[a.w].Busy? && p.workers[a.w].work.index == i
  }

  /** It brings the bytes of piece i. */
  predicate Brings(t: Torrent, a: Action, i: nat)
    requires t.Valid() && i < t.Count()
  {
    a.Download? && a.got.Some? && t.sha1(a.got.value) == t.Hash(i)
  }

  /** A download of piece i that brings nothing, or wrong bytes. */
  predicate Fails(t: Torrent, p: Pool, a: Action, i: nat)
    requires t.Valid() && i < t.Count()
  {
    Downloads(p, a, i) && !Brings(t, a, i)
  }

  /** Bytes with the piece's digest are what the worker delivers next. */
  lemma RightBytesDelivered(t: Torrent, p: Pool, a: Action, i: nat)
    requires t.Valid() && PoolInv(t, p) && Enabled(t, p, a) && i < t.Count() && Downloads(p, a, i) && Brings(t, a, i)
    ensures Step(t, p, a).workers[a.w] == Deliver(Result(i, a.got.value))
  {
    assert WorkerOk(t, p.attempts, p.workers[a.w]);
  }

  /** Then they go to the collector, which keeps them under their piece. */
  lemma DeliveredIsCollected(t: Torrent, p: Pool, w: nat)
    requires t.Valid() && Enabled(t, p, Send(w)) && p.workers[w].Deliver?
    ensures var q := Step(t, p, Send(w)); q.workers[w].Idle? && q.results == p.results + [p.workers[w].result]
  {
  }

  lemma CollectedIsKept(t: Torrent, p: Pool)
    requires t.Valid() && Enabled(t, p, Collect)
    ensures var q := Step(t, p, Collect);
            && q.results == p.results[1..] && p.results[0].index in q.pieceMap
            && q.pieceMap[p.results[0].index] == p.results[0].data
            && forall i :: i in p.pieceMap && i != p.results[0].index ==>
              i in q.pieceMap && q.pieceMap[i] == p.pieceMap[i]
  {
  }

  /** A channel after a step: as it was, without its first item, or with one more at its end. */
  predicate Fifo<T(==)>(before: seq<T>, after: seq<T>) {
    after == before || (before != [] && after == before[1..]) || (after != [] && after[..|after| - 1] == before)
  }

  /** A worker takes the first item of the queue, and every send goes to the end of its channel. */
  lemma StepFifo(t: Torrent, p: Pool, a: Action)
    requires t.Valid() && Enabled(t, p, a)
    ensures var q := Step(t, p, a);
            && Fifo(p.queue, q.queue) && Fifo(p.results, q.results) && Fifo(p.errors, q.errors)
            && (a.Take? ==> q.workers[a.w] == Busy(p.queue[0]) && q.queue == p.queue[1..])
            && (a.Send? && p.workers[a.w].Requeue? ==> q.queue == p.queue + [p.workers[a.w].again])
            && (a.Send? && p.workers[a.w].Report? ==> q.errors == p.errors + [p.workers[a.w].piece])
  {
  }

  // ----- Retries count failed downloads

  ghost predicate WorkerFails(t: Torrent, fails: seq<nat>, w: Worker)
    requires t.Valid() && |fails| == t.Count()
  {
    match w
    case Busy(work) => work.index < t.Count() && fails[work.index] == work.retries
    case Requeue(work) => work.index < t.Count() && fails[work.index] == work.retries
    case Report(piece) => piece < t.Count() && fails[piece] == MAX_RETRIES + 1
    case _ => true
  }

  ghost predicate WorkersFail(t: Torrent, fails: seq<nat>, ws: seq<Worker>)
    requires t.Valid() && |fails| == t.Count()
  {
    forall w :: 0 <= w < |ws| ==> WorkerFails(t, fails, ws[w])
  }

  /** fails[i] is what the items of piece i claim, wherever they are. */
  ghost predicate FailsOk(t: Torrent, p: Pool, fails: seq<nat>)
    requires t.Valid()
  {
    && |fails| == t.Count()
    && QueueOk(t, fails, p.queue) && WorkersFail(t, fails, p.workers) && ErrorsOk(t, fails, p.errors)
  }

  /** The count after an action. */
  function Counted(t: Torrent, p: Pool, a: Action, fails: seq<nat>): seq<nat>
    requires t.Valid() && |fails| == t.Count()
  {
    seq(t.Count(), i requires 0 <= i < t.Count() => if Fails(t, p, a, i) then fails[i] + 1 else fails[i])
  }

  /** A piece that a worker holds is nowhere else. */
  lemma HeldIsAlone(t: Torrent, p: Pool, w: nat, i: nat)
    requires t.Valid() && Conserved(t, p) && w < |p.workers| && Holds(p.workers[w], i)
    ensures Queued(p.queue, i) == 0 && Lost(p.errors, i) == 0 && Held(p.workers[w := Idle], i) == 0
  {
    HeldUpdate(p.workers, w, Idle, i);
    assert Places(p, i) <= 1;
  }

  lemma OthersFail(t: Torrent, p: Pool, w: nat, fails: seq<nat>, i: nat)
    requires t.Valid() && Conserved(t, p) && w < |p.workers| && Holds(p.workers[w], i)
    requires FailsOk(t, p, fails) && i < t.Count()
    ensures var more := Begun(fails, i);
            && QueueOk(t, more, p.queue) && ErrorsOk(t, more, p.errors)
            && forall v :: 0 <= v < |p.workers| && v != w ==> WorkerFails(t, more, p.workers[v])
  {
    HeldIsAlone(t, p, w, i);
    QueueKept(t, fails, p.queue, i);
    NotLost(p.errors, i);
    NotHeld(p.workers[w := Idle], i);
    forall v | 0 <= v < |p.workers| && v != w
      ensures WorkerFails(t, Begun(fails, i), p.workers[v])
    {
      assert WorkerFails(t, fails, p.workers[v]) && !Holds(p.workers[w := Idle][v], i);
    }
  }

  lemma CountedIs(t: Torrent, p: Pool, a: Action, fails: seq<nat>)
    requires t.Valid() && |fails| == t.Count()
    ensures Counted(t, p, a, fails) ==
            if a.Download? && a.w < |p.workers| && p.workers[a.w].Busy? && p.workers[a.w].work.index < t.Count() &&
               !Brings(t, a, p.workers[a.w].work.index)
            then Begun(fails, p.workers[a.w].work.index) else fails
  {
  }

  lemma DownloadFails(t: Torrent, p: Pool, a: Action, fails: seq<nat>)
    requires t.Valid() && PoolInv(t, p) && FailsOk(t, p, fails) && Enabled(t, p, a) && a.Download?
    ensures FailsOk(t, Step(t, p, a), Counted(t, p, a, fails))
  {
    var i := p.workers[a.w].work.index;
    CountedIs(t, p, a, fails);
    assert WorkerOk(t, p.attempts, p.workers[a.w]) && WorkerFails(t, fails, p.workers[a.w]);
    if Fails(t, p, a, i) {
      OthersFail(t, p, a.w, fails, i);
    }
  }

  lemma OtherKeepsFails(t: Torrent, p: Pool, a: Action, fails: seq<nat>)
    requires t.Valid() && PoolInv(t, p) && FailsOk(t, p, fails) && Enabled(t, p, a) && !a.Download?
    ensures FailsOk(t, Step(t, p, a), Counted(t, p, a, fails))
  {
    CountedIs(t, p, a, fails);
    if a.Send? {
      assert WorkerOk(t, p.attempts, p.workers[a.w]) && WorkerFails(t, fails, p.workers[a.w]);
    } else if a.Take? {
      assert QueuedOk(t, fails, p.queue[0]);
    }
  }

  // ----- Over a run

  /** The steps before k that were downloads of piece i without its bytes. */
  ghost function Failures(t: Torrent, states: seq<Pool>, actions: seq<Action>, k: nat, i: nat): set<nat>
    requires t.Valid() && i < t.Count() && k <= |actions| <= |states|
  {
    set j: nat | j < k && Fails(t, states[j], actions[j], i)
  }

  lemma FailuresNext(t: Torrent, states: seq<Pool>, actions: seq<Action>, k: nat, i: nat)
    requires t.Valid() && i < t.Count() && k < |actions| <= |states|
    ensures |Failures(t, states, actions, k + 1, i)| ==
            |Failures(t, states, actions, k, i)| + if Fails(t, states[k], actions[k], i) then 1 else 0
  {
    var was := Failures(t, states, actions, k, i);
    assert Failures(t, states, actions, k + 1, i) == if Fails(t, states[k], actions[k], i) then was + {k} else was;
  }

  ghost function FailCounts(t: Torrent, states: seq<Pool>, actions: seq<Action>, k: nat): seq<nat>
    requires t.Valid() && k <= |actions| <= |states|
  {
    seq(t.Count(), i requires 0 <= i < t.Count() => |Failures(t, states, actions, k, i)|)
  }

  lemma CountsNext(t: Torrent, states: seq<Pool>, actions: seq<Action>, k: nat)
    requires t.Valid() && k < |actions| <= |states|
    ensures FailCounts(t, states, actions, k + 1) ==
            Counted(t, states[k], actions[k], FailCounts(t, states, actions, k))
  {
    forall i | 0 <= i < t.Count()
      ensures FailCounts(t, states, actions, k + 1)[i] ==
              Counted(t, states[k], actions[k], FailCounts(t, states, actions, k))[i]
    {
      FailuresNext(t, states, actions, k, i);
    }
  }

  /** In every run an item has been retried as often as downloads of its piece failed. */
  lemma {:induction false} RunCountsFailures(t: Torrent, n: nat, states: seq<Pool>, actions: seq<Action>, k: nat)
    requires t.Valid() && Run(t, n, states, actions) && k < |states|
    ensures FailsOk(t, states[k], FailCounts(t, states, actions, k))
  {
    if k > 0 {
      RunCountsFailures(t, n, states, actions, k - 1);
      RunKeepsInv(t, n, states, actions, k - 1);
      assert PoolRuns.StepAt(t, states, actions, k - 1);
      CountsNext(t, states, actions, k - 1);
      if actions[k - 1].Download? {
        DownloadFails(t, states[k - 1], actions[k - 1], FailCounts(t, states, actions, k - 1));
      } else {
        OtherKeepsFails(t, states[k - 1], actions[k - 1], FailCounts(t, states, actions, k - 1));
      }
    }
  }

  // ----- Why a worker exits

  /** Step k is a failed connect of worker w, or its report of a piece with four failed downloads. */
  ghost predicate Leaves(t: Torrent, states: seq<Pool>, actions: seq<Action>, k: nat, w: nat)
    requires t.Valid() && k < |actions| <= |states|
  {
    || actions[k] == Connect(w, false)
    || (actions[k] == Send(w) && w < |states[k].workers| && states[k].workers[w].Report? &&
        states[k].workers[w].piece < t.Count() &&
        |Failures(t, states, actions, k, states[k].workers[w].piece)| == 4)
  }

  lemma ExitHasReason(t: Torrent, p: Pool, a: Action, w: nat)
    requires t.Valid() && Enabled(t, p, a) && w < |p.workers|
    requires !p.workers[w].Exited? && Step(t, p, a).workers[w].Exited?
    ensures a == Connect(w, false) || (a == Send(w) && p.workers[w].Report?)
  {
  }

  lemma SameWorkers(t: Torrent, p: Pool, a: Action)
    requires t.Valid() && Enabled(t, p, a)
    ensures |Step(t, p, a).workers| == |p.workers|
  {
  }

  lemma {:induction false} ExitedLeft(t: Torrent, n: nat, states: seq<Pool>, actions: seq<Action>, k: nat, w: nat)
    returns (j: nat)
    requires t.Valid() && Run(t, n, states, actions) && k < |states|
    requires w < |states[k].workers| && states[k].workers[w].Exited?
    ensures j < k && Leaves(t, states, actions, j, w)
  {
    if k == 0 {
      assert false;
    } else {
      assert PoolRuns.StepAt(t, states, actions, k - 1);
      SameWorkers(t, states[k - 1], actions[k - 1]);
      if states[k - 1].workers[w].Exited? {
        j := ExitedLeft(t, n, states, actions, k - 1, w);
      } else {
        ExitHasReason(t, states[k - 1], actions[k - 1], w);
        RunCountsFailures(t, n, states, actions, k - 1);
        assert WorkerFails(t, FailCounts(t, states, actions, k - 1), states[k - 1].workers[w]);
        j := k - 1;
      }
    }
  }

  lemma {:induction false} WorkersStay(t: Torrent, n: nat, states: seq<Pool>, actions: seq<Action>, k: nat)
    requires t.Valid() && Run(t, n, states, actions) && k < |states|
    ensures |states[k].workers| == n
  {
    if k > 0 {
      WorkersStay(t, n, states, actions, k - 1);
      assert PoolRuns.StepAt(t, states, actions, k - 1);
      SameWorkers(t, states[k - 1], actions[k - 1]);
    }
  }

  /** Worker w has exited for one of these reasons. */
  ghost predicate HasLeft(t: Torrent, states: seq<Pool>, actions: seq<Action>, w: nat)
    requires t.Valid() && |actions| < |states|
  {
    && w < |states[|actions|].workers| && states[|actions|].workers[w].Exited?
    && exists k :: 0 <= k < |actions| && Leaves(t, states, actions, k, w)
  }

  // ----- Why a pool fails

  /** Piece i was not obtained after exactly four downloads without its bytes. */
  ghost predicate GaveUp(t: Torrent, states: seq<Pool>, actions: seq<Action>, i: nat)
    requires t.Valid() && |actions| < |states|
  {
    i < t.Count() && |Failures(t, states, actions, |actions|, i)| == 4 && i !in states[|actions|].pieceMap
  }

  lemma FailedBy(t: Torrent, p: Pool, a: Action)
    requires t.Valid() && Enabled(t, p, a) && Step(t, p, a).collector.Failed?
    ensures a.CollectError? || (a.CollectGone? && forall w :: 0 <= w < |p.workers| ==> p.workers[w].Exited?)
    ensures Step(t, p, a).workers == p.workers
  {
  }

  /**
   * Why a download fails: some piece was downloaded four times, each time without its bytes, and was not
   * obtained; or every worker failed to connect or has reported such a piece.
   */
  lemma FailureHasReason(t: Torrent, n: nat, states: seq<Pool>, actions: seq<Action>)
    requires t.Valid() && Run(t, n, states, actions) && states[|actions|].collector.Failed?
    ensures (exists i :: GaveUp(t, states, actions, i)) || forall w: nat :: w < n ==> HasLeft(t, states, actions, w)
  {
    if actions != [] {
      var k := |actions| - 1;
      assert PoolRuns.StepAt(t, states, actions, k);
      FailedBy(t, states[k], actions[k]);
      if actions[k].CollectError? {
        ErrorGaveUp(t, n, states, actions);
      } else {
        AllLeft(t, n, states, actions);
      }
    }
  }

  lemma AllLeft(t: Torrent, n: nat, states: seq<Pool>, actions: seq<Action>)
    requires t.Valid() && Run(t, n, states, actions)
    requires var p := states[|actions|]; forall w :: 0 <= w < |p.workers| ==> p.workers[w].Exited?
    ensures forall w: nat :: w < n ==> HasLeft(t, states, actions, w)
  {
    WorkersStay(t, n, states, actions, |actions|);
    forall w: nat | w < n
      ensures HasLeft(t, states, actions, w)
    {
      var j := ExitedLeft(t, n, states, actions, |actions|, w);
    }
  }

  lemma ErrorGaveUp(t: Torrent, n: nat, states: seq<Pool>, actions: seq<Action>)
    requires t.Valid() && Run(t, n, states, actions) && actions != [] && actions[|actions| - 1].CollectError?
    ensures exists i :: GaveUp(t, states, actions, i)
  {
    var k := |actions| - 1;
    assert PoolRuns.StepAt(t, states, actions, k);
    RunKeepsInv(t, n, states, actions, k);
    RunCountsFailures(t, n, states, actions, k);
    var i := states[k].errors[0];
    assert ErrorsOk(t, FailCounts(t, states, actions, k), states[k].errors);
    FailuresNext(t, states, actions, k, i);
    assert Places(states[k], i) <= 1;
    assert GaveUp(t, states, actions, i);
  }

  /** Every connect succeeds, and every download brings the bytes of its piece. */
  ghost predicate AllGoesWell(t: Torrent, states: seq<Pool>, actions: seq<Action>)
    requires t.Valid() && |actions| <= |states|
  {
    forall k :: 0 <= k < |actions| ==> GoesWell(t, states[k], actions[k])
  }

  ghost predicate GoesWell(t: Torrent, p: Pool, a: Action)
    requires t.Valid()
  {
    (a.Connect? ==> a.ok) && forall i :: 0 <= i < t.Count() && Downloads(p, a, i) ==> Brings(t, a, i)
  }

  lemma NoFailures(t: Torrent, states: seq<Pool>, actions: seq<Action>, k: nat, i: nat)
    requires t.Valid() && i < t.Count() && k <= |actions| <= |states| && AllGoesWell(t, states, actions)
    ensures Failures(t, states, actions, k, i) == {}
  {
    forall j: nat | j < k
      ensures !Fails(t, states[j], actions[j], i)
    {
      assert GoesWell(t, states[j], actions[j]);
    }
  }

  lemma NobodyLeaves(t: Torrent, states: seq<Pool>, actions: seq<Action>, w: nat)
    requires t.Valid() && |actions| < |states| && AllGoesWell(t, states, actions)
    ensures !HasLeft(t, states, actions, w)
  {
    forall k | 0 <= k < |actions|
      ensures !Leaves(t, states, actions, k, w)
    {
      assert GoesWell(t, states[k], actions[k]);
      if actions[k] == Send(w) && w < |states[k].workers| && states[k].workers[w].Report? &&
         states[k].workers[w].piece < t.Count()
      {
        NoFailures(t, states, actions, k, states[k].workers[w].piece);
      }
    }
  }

  /** With a worker, good connections and right bytes, a run that has shut down has succeeded. */
  lemma GoodPeersSucceed(t: Torrent, n: nat, states: seq<Pool>, actions: seq<Action>)
    requires t.Valid() && Run(t, n, states, actions) && n > 0 && AllGoesWell(t, states, actions)
    requires !states[|actions|].collector.Collecting?
    ensures states[|actions|].collector.Complete?
  {
    NobodyLeaves(t, states, actions, 0);
    NothingGivenUp(t, states, actions);
    if states[|actions|].collector.Failed? {
      FailureHasReason(t, n, states, actions);
    }
  }

  lemma NothingGivenUp(t: Torrent, states: seq<Pool>, actions: seq<Action>)
    requires t.Valid() && |actions| < |states| && AllGoesWell(t, states, actions)
    ensures forall i :: !GaveUp(t, states, actions, i)
  {
    forall i: nat | i < t.Count()
      ensures Failures(t, states, actions, |actions|, i) == {}
    {
      NoFailures(t, states, actions, |actions|, i);
    }
  }
}
