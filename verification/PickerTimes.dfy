/**
 * Whom a block was asked from and when, along whole runs: a request is taken back exactly when its last grant is
 * old.
 */
module PickerTimes {
  import opened Bytes
  import opened PickerModel
  import opened PickerAccounting
  import opened PickerRuns

  /**
   * The owner and the time stamp of block (i, b) over a step. Every grant, in either mode, stamps the block with
   * the time of the call; the owner is set by the first grant, cleared when the request is taken back, and is
   * the sender once the block has arrived.
   */
  ghost predicate Stamps(s: Picker, op: Op, s': Picker, i: nat, b: nat)
    requires Exists(s, i, b) && Exists(s', i, b)
  {
    var x, y := s.pieces[i].blocks[b], s'.pieces[i].blocks[b];
    && (if Grants(s, op, i, b) then y.sent == op.now else y.sent == x.sent)
    && (if x.state == Unrequested && y.state == Pending then op.Next? && y.peer == op.addr
        else if x.state == Pending && y.state == Unrequested then y.peer == ""
        else if x.state != Completed && y.state == Completed then op.MarkCompleted? && y.peer == op.addr
        else y.peer == x.peer)
  }

  lemma StampTransition(s: Picker, op: Op, s': Picker, total: nat, pieceLen: nat, i: nat, b: nat)
    requires pieceLen > 0 && Inv(s, total, pieceLen) && Step(s, op, s') && Exists(s, i, b)
    ensures Exists(s', i, b) && Stamps(s, op, s', i, b)
  {
    match op
    case RegisterPeer(a) =>
    case PeerBitfield(a, bits) =>
    case PeerHave(a, index) =>
    case UnregisterPeer(a) => ReclaimStamps(s, op, PeerLeft(a), s', total, pieceLen, i, b);
    case ReclaimStalled(now, timeout) => ReclaimStamps(s, op, Stale(now, timeout), s', total, pieceLen, i, b);
    case Next(a, now, r) => NextStamps(s, a, now, r, s', total, pieceLen, i, b);
    case MarkCompleted(index, begin, a) => CompleteStamps(s, index, begin, a, total, pieceLen, i, b);
    case MarkFailed(index, begin) => FailStamps(s, index, begin, i, b);
  }

  lemma ReclaimStamps(s: Picker, op: Op, why: Reason, s': Picker, total: nat, pieceLen: nat, i: nat, b: nat)
    requires pieceLen > 0 && Inv(s, total, pieceLen) && Exists(s, i, b)
    requires op == match why
                   case PeerLeft(a) => UnregisterPeer(a)
                   case Stale(now, timeout) => ReclaimStalled(now, timeout)
    requires s'.pieces == ReclaimPieces(s.pieces, why, |s.pieces|)
    ensures Exists(s', i, b) && Stamps(s, op, s', i, b)
  {
    ReclaimTransition(s, op, why, s', total, pieceLen, i, b);
    assert s'.pieces[i] == ReclaimPiece(s.pieces[i], why);
  }

  lemma FailStamps(s: Picker, index: int, begin: int, i: nat, b: nat)
    requires Exists(s, i, b)
    ensures Exists(Fail(s, index, begin), i, b) && Stamps(s, MarkFailed(index, begin), Fail(s, index, begin), i, b)
  {
  }

  lemma NextStamps(s: Picker, a: Addr, now: int, r: Option<Block>, s': Picker,
                   total: nat, pieceLen: nat, i: nat, b: nat)
    requires pieceLen > 0 && Inv(s, total, pieceLen) && NextBlock(s, a, now, s', r) && Exists(s, i, b)
    ensures Exists(s', i, b) && Stamps(s, Next(a, now, r), s', i, b)
  {
    if r.Some? {
      var c := GrantPlace(s, a, now, r.value, s', total, pieceLen);
      GrantsOne(s, a, now, r, total, pieceLen, r.value.index, c, i, b);
    }
  }

  lemma CompleteStamps(s: Picker, index: int, begin: int, a: Addr, total: nat, pieceLen: nat, i: nat, b: nat)
    requires pieceLen > 0 && Inv(s, total, pieceLen) && Exists(s, i, b)
    ensures var s' := Complete(s, index, begin, a).picker;
            Exists(s', i, b) && Stamps(s, MarkCompleted(index, begin, a), s', i, b)
  {
    CompleteTransition(s, index, begin, a, total, pieceLen, i, b);
  }

  // ----- Along a run

  /** The call at step k returned block (i, b). */
  ghost predicate GrantAt(ss: seq<Picker>, ops: seq<Op>, k: nat, i: nat, b: nat)
    requires k < |ops| && k < |ss|
  {
    Exists(ss[k], i, b) && Grants(ss[k], ops[k], i, b)
  }

  lemma RunStamps(total: nat, pieceLen: nat, ss: seq<Picker>, ops: seq<Op>, k: nat, i: nat, b: nat)
    requires pieceLen > 0 && Run(total, pieceLen, ss, ops) && k < |ops| && Exists(ss[k + 1], i, b)
    ensures Exists(ss[k], i, b) && Evolves(ss[k], ops[k], ss[k + 1], i, b) && Stamps(ss[k], ops[k], ss[k + 1], i, b)
  {
    RunStep(total, pieceLen, ss, ops, k);
    assert PieceLater(ss[k].pieces[i], ss[k + 1].pieces[i], ss[k].endGame);
    assert StepAt(ss, ops, k);
    StampTransition(ss[k], ops[k], ss[k + 1], total, pieceLen, i, b);
    BlockTransition(ss[k], ops[k], ss[k + 1], total, pieceLen, i, b);
  }

  lemma StartUnrequested(total: nat, pieceLen: nat, i: nat, b: nat)
    requires pieceLen > 0 && Exists(Fresh(total, pieceLen), i, b)
    ensures Fresh(total, pieceLen).pieces[i].blocks[b].state == Unrequested
  {
    assert Fresh(total, pieceLen).pieces[i] == FreshPiece(total, pieceLen, i);
  }

  /** A Pending block carries the time of its last grant. */
  lemma {:induction false} SentIsLastGrant(
    total: nat, pieceLen: nat, ss: seq<Picker>, ops: seq<Op>, k: nat, i: nat, b: nat) returns (j: nat)
    requires pieceLen > 0 && Run(total, pieceLen, ss, ops) && k < |ss|
    requires Exists(ss[k], i, b) && ss[k].pieces[i].blocks[b].state == Pending
    ensures j < k && GrantAt(ss, ops, j, i, b) && ss[k].pieces[i].blocks[b].sent == ops[j].now
    ensures forall m :: j < m < k ==> !GrantAt(ss, ops, m, i, b)
  {
    if k == 0 {
      StartUnrequested(total, pieceLen, i, b);
    } else {
      RunStamps(total, pieceLen, ss, ops, k - 1, i, b);
      if GrantAt(ss, ops, k - 1, i, b) {
        j := k - 1;
      } else {
        j := SentIsLastGrant(total, pieceLen, ss, ops, k - 1, i, b);
      }
    }
  }

  /** The tick at step k takes block (i, b) back. */
  ghost predicate TakenAt(ss: seq<Picker>, ops: seq<Op>, k: nat, i: nat, b: nat)
    requires k < |ops| && k + 1 < |ss| && Exists(ss[k], i, b) && Exists(ss[k + 1], i, b)
  {
    ss[k].pieces[i].blocks[b].state == Pending && ss[k + 1].pieces[i].blocks[b].state == Unrequested
  }

  /** A tick takes a Pending block back if and only if its last grant is older than the timeout. */
  lemma StaleIff(total: nat, pieceLen: nat, ss: seq<Picker>, ops: seq<Op>, k: nat, i: nat, b: nat) returns (j: nat)
    requires pieceLen > 0 && Run(total, pieceLen, ss, ops) && k < |ops| && ops[k].ReclaimStalled?
    requires Exists(ss[k], i, b) && ss[k].pieces[i].blocks[b].state == Pending
    ensures j < k && GrantAt(ss, ops, j, i, b) && forall m :: j < m < k ==> !GrantAt(ss, ops, m, i, b)
    ensures Exists(ss[k + 1], i, b)
    ensures TakenAt(ss, ops, k, i, b) <==> ops[k].now - ops[j].now > ops[k].timeout
  {
    j := SentIsLastGrant(total, pieceLen, ss, ops, k, i, b);
    RunBlock(total, pieceLen, ss, ops, k, i, b);
  }

  /** The clock readings of the calls do not decrease. */
  predicate TimesRise(ops: seq<Op>) {
    forall j, k :: 0 <= j < k < |ops| && ops[j].Next? && ops[k].Next? ==> ops[j].now <= ops[k].now
  }

  /** What a tick takes back was not granted, in either mode, within the timeout. */
  lemma StaleSinceEveryGrant(total: nat, pieceLen: nat, ss: seq<Picker>, ops: seq<Op>, j: nat, k: nat, i: nat, b: nat)
    requires pieceLen > 0 && Run(total, pieceLen, ss, ops) && TimesRise(ops) && j < k < |ops| && ops[k].ReclaimStalled?
    requires Exists(ss[k], i, b) && Exists(ss[k + 1], i, b) && TakenAt(ss, ops, k, i, b)
    requires GrantAt(ss, ops, j, i, b)
    ensures ops[k].now - ops[j].now > ops[k].timeout
  {
    var last := StaleIff(total, pieceLen, ss, ops, k, i, b);
  }
}
