/** What becomes of an answer whose verdict the ledger refuses, over every continuation. */
module GatewayWriteOff {
  import opened Common
  import opened Ledger
  import opened LedgerSafety
  import opened LedgerHistory
  import opened Gateway
  import opened GatewaySafety

  /** The completion a call was answered with, as the ledger will see it. */
  function AnswerOf(call: Call): Completion
    requires call.pc.Answered? && call.pc.outcome.Returned?
  {
    TruthfulCost(call.request.route.provider, call.pc.outcome.completion)
  }

  predicate AnsweredBy(call: Call) {
    call.pc.Answered? && call.pc.outcome.Returned?
  }

  /** No ledger state makes this answer's verdict acceptable. */
  predicate Unacceptable(call: Call) {
    AnsweredBy(call) && (call.request.maxCost < AnswerOf(call).usage.costUsdMicros || !Insertable(AnswerOf(call).modelUsage))
  }

  // ---- One action ------------------------------------------------------------------------------

  /** Every action leaves the ledger alone or runs one transaction on it. */
  lemma ActIsStep(s: System, a: Action) returns (op: Option<Op>)
    ensures Act(s, a).ledger == match op case None => s.ledger case Some(o) => Step(s.ledger, o).0
  {
    op := match a
      case Advance(id, _, _, _) => if id in s.calls then NextOp(s, id, s.calls[id], a) else None
      case Reap(olderThanMs, now) => Some(Reclaim(olderThanMs, now))
      case WriteOff(id, reason, evidence, now) => Some(Reconcile(id, reason, evidence, now))
      case OpenScope(scope, maxCost) => Some(OpenAccount(scope, maxCost))
      case _ => None;
  }

  /** Money once charged stays charged, whatever follows. */
  lemma {:induction false} ChargedForEver(s: System, actions: seq<Action>, id: string)
    requires SystemInv(s) && SettledAt(s.ledger, id) && id in s.ledger.charged
    ensures SettledAt(Play(s, actions).ledger, id) && id in Play(s, actions).ledger.charged
    ensures Play(s, actions).ledger.charged[id] == s.ledger.charged[id]
  {
    if actions != [] {
      var mid := Play(s, actions[..|actions| - 1]);
      ChargedForEver(s, actions[..|actions| - 1], id);
      PlayKept(s, actions[..|actions| - 1]);
      var op := ActIsStep(mid, actions[|actions| - 1]);
      if op.Some? {
        SettledStays(mid.ledger, op.value, id);
      }
    }
  }

  /** What the reaper and the reconciler can do to an unsettled attempt. */
  lemma UnsettledReaped(db: Db, id: string, olderThanMs: int, now: int)
    requires Unsettled(db, id)
    ensures Unsettled(ReclaimStep(db, olderThanMs, now).0, id)
  {
    ReclaimReaps(db, olderThanMs, now);
    var next := ReclaimStep(db, olderThanMs, now).0;
    assert next.attempts[id] == db.attempts[id] || next.attempts[id] == StrandedRow(db.attempts[id], now);
  }

  lemma UnsettledReconciled(db: Db, id: string, op: Op)
    requires Inv(db) && op.Reconcile? && Unsettled(db, id)
    ensures Unsettled(Step(db, op).0, id)
  {
    if op.id != id {
      OtherRowsKept(db, op, id);
    }
  }

  // ---- An answer that cannot be accepted -------------------------------------------------------

  /** A call whose answer can never be charged: still to be refused, being refused, or over without
      having delivered anything. */
  predicate Adrift(call: Call) {
    Unacceptable(call) || call.pc.Refusing? || call.pc.Crashed? || (call.pc.Done? && !call.pc.ending.Delivered?)
  }

  predicate Lost(s: System, id: string) {
    id in s.calls && Adrift(s.calls[id]) && Unsettled(s.ledger, id)
  }

  /** The owner's own step: the verdict is refused, and the failure that follows charges nothing. */
  lemma OwnStepLost(s: System, a: Action)
    requires SystemInv(s) && a.Advance? && Lost(s, a.id)
    ensures Lost(AdvanceCall(s, a), a.id)
  {
    var call := s.calls[a.id];
    assert CallInv(call, s.ledger, a.id) && RowInv(s.ledger, a.id);
    if AnsweredBy(call) {
      VerdictRefused(s, a);
    } else if call.pc.Refusing? {
      FailOutcome(s.ledger, NextOp(s, a.id, call, a).value);
    }
  }

  lemma VerdictRefused(s: System, a: Action)
    requires SystemInv(s) && a.Advance? && a.id in s.calls && AnsweredBy(s.calls[a.id])
    requires !VerdictFits(s.ledger, a.id, AnswerOf(s.calls[a.id]))
    ensures Act(s, a).ledger == s.ledger && Act(s, a).calls[a.id].pc.Refusing?
  {
    var call := s.calls[a.id];
    assert CallInv(call, s.ledger, a.id);
    var op := NextOp(s, a.id, call, a).value;
    VerdictAcceptedIff(s.ledger, op);
    SettleOutcome(s.ledger, op);
  }

  lemma OthersStepLost(s: System, a: Action, id: string)
    requires SystemInv(s) && a.Advance? && a.id in s.calls && a.id != id && Lost(s, id)
    ensures Lost(AdvanceCall(s, a), id)
  {
    var op := NextOp(s, a.id, s.calls[a.id], a);
    if op.Some? {
      AdvanceRefs(s, a);
      OtherRowsKept(s.ledger, op.value, id);
    }
  }

  lemma ActLost(s: System, a: Action, id: string)
    requires SystemInv(s) && Lost(s, id)
    ensures Lost(Act(s, a), id)
  {
    match a
    case Advance(other, _, _, _) =>
      if other == id {
        OwnStepLost(s, a);
      } else if other in s.calls {
        OthersStepLost(s, a, id);
      }
    case Reap(olderThanMs, now) => UnsettledReaped(s.ledger, id, olderThanMs, now);
    case WriteOff(other, reason, evidence, now) => UnsettledReconciled(s.ledger, id, Reconcile(other, reason, evidence, now));
    case _ =>
  }

  lemma {:induction false} PlayLost(s: System, actions: seq<Action>, id: string)
    requires SystemInv(s) && Lost(s, id)
    ensures Lost(Play(s, actions), id) && SystemInv(Play(s, actions))
  {
    if actions != [] {
      PlayLost(s, actions[..|actions| - 1], id);
      PlayKept(s, actions);
      ActLost(Play(s, actions[..|actions| - 1]), actions[|actions| - 1], id);
    }
  }

  /** A completion dearer than its reservation, or one whose slices cannot be recorded: whatever calls,
      crashes, reaping and reconciliation follow, its attempt is never charged and never succeeds, and
      once its call is over it is unknown without a request id, or written off. */
  lemma UnacceptableNeverCharged(s: System, actions: seq<Action>, id: string)
    requires SystemInv(s) && id in s.calls && Unacceptable(s.calls[id])
    ensures var end := Play(s, actions);
      && id in end.calls && id in end.ledger.attempts && id !in end.ledger.charged
      && !HasOutcome(end.ledger, id, Succeeded) && end.ledger.attempts[id].providerRequestId.None?
      && (end.calls[id].pc.Done? ==>
            !end.calls[id].pc.ending.Delivered?
            && (HasOutcome(end.ledger, id, OutcomeUnknown) || HasOutcome(end.ledger, id, Failed)))
  {
    assert CallInv(s.calls[id], s.ledger, id);
    PlayLost(s, actions, id);
    var end := Play(s, actions);
    assert CallInv(end.calls[id], end.ledger, id);
  }

  // ---- Which answers can be written off --------------------------------------------------------

  /** The attempt ended failed although its provider answered, and was charged nothing. */
  predicate FailedUncharged(db: Db, id: string) {
    HasOutcome(db, id, Failed) && id !in db.charged
  }

  const EVIDENCE: string := seq(64, _ => '0')

  lemma PlayOne(s: System, a: Action)
    ensures Play(s, [a]) == Act(s, a)
  {
    assert [a][..0] == [];
    assert Play(s, []) == s;
  }

  lemma PlayTwo(s: System, a: Action, b: Action)
    ensures Play(s, [a, b]) == Act(Act(s, a), b)
  {
    assert [a, b][..1] == [a];
    PlayOne(s, a);
  }

  lemma UnknownIsWrittenOff(s: System, id: string)
    requires SystemInv(s) && HasOutcome(s.ledger, id, OutcomeUnknown) && Unsettled(s.ledger, id)
    ensures FailedUncharged(Act(s, WriteOff(id, "", EVIDENCE, 0)).ledger, id)
  {
    UnbilledUnknownCanBeWrittenOff(s.ledger, id, "", EVIDENCE, 0);
  }

  lemma DispatchedIsReaped(s: System, id: string)
    requires SystemInv(s) && HasOutcome(s.ledger, id, Dispatched) && Unsettled(s.ledger, id)
    ensures s.ledger.attempts[id].dispatchedAt.Some?
    ensures var now := s.ledger.attempts[id].dispatchedAt.value + MINIMUM_HORIZON_MS;
      var next := Act(s, Reap(MINIMUM_HORIZON_MS, now)).ledger;
      HasOutcome(next, id, OutcomeUnknown) && Unsettled(next, id)
  {
    assert RowInv(s.ledger, id);
  }

  /** Until its verdict is accepted, every attempt that was sent to a provider can still end failed and
      uncharged: reaping makes it unknown, and nothing tells the reconciler that it was billed. */
  lemma UnsettledCanBeWrittenOff(s: System, id: string) returns (actions: seq<Action>)
    requires SystemInv(s) && Unsettled(s.ledger, id)
    ensures FailedUncharged(Play(s, actions).ledger, id)
  {
    if HasOutcome(s.ledger, id, OutcomeUnknown) {
      var off := WriteOff(id, "", EVIDENCE, 0);
      UnknownIsWrittenOff(s, id);
      PlayOne(s, off);
      actions := [off];
    } else if HasOutcome(s.ledger, id, Dispatched) {
      var off := WriteOff(id, "", EVIDENCE, 0);
      DispatchedIsReaped(s, id);
      var reap := Reap(MINIMUM_HORIZON_MS, s.ledger.attempts[id].dispatchedAt.value + MINIMUM_HORIZON_MS);
      ActKept(s, reap);
      UnknownIsWrittenOff(Act(s, reap), id);
      PlayTwo(s, reap, off);
      actions := [reap, off];
    } else {
      actions := [];
      assert Play(s, actions) == s;
    }
  }

  lemma AcceptedIsCharged(s: System, a: Action)
    requires SystemInv(s) && a.Advance? && a.id in s.calls && AnsweredBy(s.calls[a.id])
    requires VerdictFits(s.ledger, a.id, AnswerOf(s.calls[a.id]))
    ensures SettledAt(Act(s, a).ledger, a.id) && a.id in Act(s, a).ledger.charged
  {
    var call := s.calls[a.id];
    var op := NextOp(s, a.id, call, a).value;
    VerdictAcceptedIff(s.ledger, op);
    SettleOutcome(s.ledger, op);
    ItemisedIffAccounted(s.ledger, op);
  }

  ghost predicate CanEndUncharged(s: System, id: string) {
    exists actions :: FailedUncharged(Play(s, actions).ledger, id)
  }

  /** Which billed answers can be written off as never charged. Before its verdict lands, every one. Once
      it has landed, exactly those whose verdict did not fit: the attempt was no longer dispatched, the
      cost exceeds the reservation, or a slice repeats a model or holds a negative count. */
  lemma AnswerCanBeWrittenOffIff(s: System, a: Action)
    requires SystemInv(s) && a.Advance? && a.id in s.calls && AnsweredBy(s.calls[a.id])
    ensures CanEndUncharged(s, a.id)
    ensures CanEndUncharged(Act(s, a), a.id) <==> !VerdictFits(s.ledger, a.id, AnswerOf(s.calls[a.id]))
  {
    assert CallInv(s.calls[a.id], s.ledger, a.id);
    var early := UnsettledCanBeWrittenOff(s, a.id);
    ActKept(s, a);
    if VerdictFits(s.ledger, a.id, AnswerOf(s.calls[a.id])) {
      AcceptedIsCharged(s, a);
      forall actions ensures !FailedUncharged(Play(Act(s, a), actions).ledger, a.id) {
        ChargedForEver(Act(s, a), actions, a.id);
      }
    } else {
      VerdictRefused(s, a);
      var late := UnsettledCanBeWrittenOff(Act(s, a), a.id);
    }
  }
}
