/** What every interleaving of execute() calls keeps. */
module GatewaySafety {
  import opened Common
  import opened Routes
  import opened Ledger
  import opened LedgerSafety
  import opened LedgerHistory
  import opened Gateway
  import Text

  predicate Finalized(o: Outcome) {
    o.Succeeded? || o.Failed? || o.OutcomeUnknown?
  }

  /** The attempt as this call reserved it. */
  predicate Owns(call: Call, db: Db, id: string) {
    && id in db.attempts
    && db.attempts[id].key == call.request.key
    && db.attempts[id].scope == call.request.scope
    && db.attempts[id].reservedCost == call.request.maxCost
  }

  /** Dispatched and not settled by its owner: the reaper and the reconciler may have acted, neither of
      which charges anything or learns a provider request id. */
  predicate Unsettled(db: Db, id: string) {
    && id in db.attempts && id !in db.charged && db.attempts[id].providerRequestId.None?
    && (db.attempts[id].outcome.Dispatched? || db.attempts[id].outcome.OutcomeUnknown? || db.attempts[id].outcome.Failed?)
  }

  ghost predicate CallInv(call: Call, db: Db, id: string) {
    && (call.created <==> id in db.attempts)
    && (call.created ==> Owns(call, db, id))
    && (call.invoked ==> call.created)
    && match call.pc
       case Prepared => !call.created
       case AfterReserve => !call.invoked && HasOutcome(db, id, Reserved)
       case AfterDispatch => !call.invoked && Unsettled(db, id)
       case Answered(_) => call.invoked && Unsettled(db, id)
       case Refusing(_) => call.invoked && Unsettled(db, id)
       case Crashed => true
       case Done(ending) =>
         && (call.created ==> Finalized(db.attempts[id].outcome))
         && (ending.Delivered? ==> call.invoked && HasOutcome(db, id, Succeeded) && db.attempts[id] == ending.row)
  }

  ghost predicate KeyInvoked(s: System, key: string) {
    && Count(s.invocations, key) <= 1
    && (Count(s.invocations, key) == 1 ==>
         key in s.ledger.byKey && s.ledger.byKey[key] in s.calls && s.calls[s.ledger.byKey[key]].invoked)
  }

  ghost predicate SystemInv(s: System) {
    && Inv(s.ledger)
    && s.ledger.attempts.Keys <= s.calls.Keys
    && (forall id {:trigger s.calls[id]} :: id in s.calls ==> CallInv(s.calls[id], s.ledger, id))
    && (forall key {:trigger KeyInvoked(s, key)} :: KeyInvoked(s, key))
  }

  /** Nothing about attempt `id` changed. */
  predicate SameRow(db: Db, next: Db, id: string) {
    && (id in db.attempts <==> id in next.attempts)
    && (id in db.attempts ==> next.attempts[id] == db.attempts[id])
    && (id in db.charged <==> id in next.charged)
  }

  function NamedBy(op: Op): Option<string> {
    match op
    case OpenAccount(_, _) => None
    case Reclaim(_, _) => None
    case Reserve(a) => Some(a.id)
    case MarkDispatched(id, _) => Some(id)
    case Succeed(id, _, _, _) => Some(id)
    case Reject(id, _, _, _) => Some(id)
    case Fail(id, _, _, _, _) => Some(id)
    case Reconcile(id, _, _, _) => Some(id)
  }

  lemma ReserveLeaves(db: Db, a: NewAttempt, id: string)
    requires a.id != id
    ensures SameRow(db, ReserveStep(db, a).0, id)
  {
  }

  lemma FailLeaves(db: Db, op: Op, id: string)
    requires (op.Fail? || op.Reconcile?) && op.id != id
    ensures SameRow(db, Step(db, op).0, id)
  {
  }

  lemma SettleLeaves(db: Db, op: Op, id: string)
    requires (op.Succeed? || op.Reject?) && op.id != id
    ensures SameRow(db, Step(db, op).0, id)
  {
    SettleFrame(db, op);
  }

  /** A transaction leaves every attempt it does not name alone. */
  lemma OtherRowsKept(db: Db, op: Op, id: string)
    requires !op.Reclaim? && NamedBy(op) != Some(id)
    ensures SameRow(db, Step(db, op).0, id)
  {
    match op
    case OpenAccount(_, _) =>
    case MarkDispatched(_, _) =>
    case Reserve(a) => ReserveLeaves(db, a, id);
    case Succeed(_, _, _, _) => SettleLeaves(db, op, id);
    case Reject(_, _, _, _) => SettleLeaves(db, op, id);
    case Fail(_, _, _, _, _) => FailLeaves(db, op, id);
    case Reconcile(_, _, _, _) => FailLeaves(db, op, id);
  }

  lemma OtherCallKept(call: Call, db: Db, next: Db, id: string)
    requires CallInv(call, db, id) && SameRow(db, next, id)
    ensures CallInv(call, next, id)
  {
  }

  lemma ReapedCallKept(call: Call, db: Db, next: Db, now: int, id: string)
    requires CallInv(call, db, id) && Reaped(db, next, now)
    ensures CallInv(call, next, id)
  {
    if id in db.attempts {
      var r := next.attempts[id];
    }
  }

  lemma WriteOffKept(call: Call, db: Db, op: Op, id: string)
    requires Inv(db) && op.Reconcile? && CallInv(call, db, id)
    ensures CallInv(call, Step(db, op).0, id)
  {
    if NamedBy(op) == Some(id) && HasOutcome(db, id, OutcomeUnknown) {
      assert RowInv(db, id);
      UnknownLeavesByReconciliation(db, op, id);
    } else {
      assert SameRow(db, Step(db, op).0, id);
    }
  }

  /** The step a call takes on its own attempt keeps what is known about that call. */
  lemma OwnStepKept(s: System, a: Action)
    requires Inv(s.ledger) && a.Advance? && a.id in s.calls
    requires CallInv(s.calls[a.id], s.ledger, a.id)
    requires NextOp(s, a.id, s.calls[a.id], a).Some?
    ensures var op := NextOp(s, a.id, s.calls[a.id], a).value;
      CallInv(After(s, s.calls[a.id], Step(s.ledger, op).1), Step(s.ledger, op).0, a.id)
  {
    var call := s.calls[a.id];
    var op := NextOp(s, a.id, call, a).value;
    match call.pc
    case Prepared => OwnReserve(call, s.ledger, a.id);
    case AfterReserve =>
      assert RowInv(s.ledger, a.id);
      if op.Fail? { FailOutcome(s.ledger, op); }
    case Answered(outcome) =>
      if outcome.Returned? { SettleOutcome(s.ledger, op); OwnVerdict(s, a); } else { FailOutcome(s.ledger, op); }
    case Refusing(message) => FailOutcome(s.ledger, op);
  }

  lemma OwnReserve(call: Call, db: Db, id: string)
    requires Inv(db) && CallInv(call, db, id) && call.pc.Prepared?
    ensures var (next, reply) := Step(db, Reserve(Attempt(id, call)));
      && (reply.Accepted? || reply.Replayed? || reply.Refused?)
      && (reply.Accepted? <==> id in next.attempts)
      && (reply.Accepted? ==> next.attempts[id] == NewRow(Attempt(id, call)))
  {
  }

  lemma OwnVerdict(s: System, a: Action)
    requires Inv(s.ledger) && a.Advance? && a.id in s.calls
    requires var call := s.calls[a.id];
      CallInv(call, s.ledger, a.id) && call.pc.Answered? && call.pc.outcome.Returned?
    ensures var op := NextOp(s, a.id, s.calls[a.id], a).value;
      var (next, reply) := Step(s.ledger, op);
      && (reply.Accepted? || reply.Refused?)
      && (reply.Refused? ==> next == s.ledger)
      && (reply.Accepted? ==>
           a.id in next.attempts && next.attempts[a.id] == reply.row
           && reply.row == VerdictRow(op, s.ledger.attempts[a.id])
           && (reply.row.outcome.Succeeded? <==>
                 Rejection(s.calls[a.id].request,
                           TruthfulCost(s.calls[a.id].request.route.provider, s.calls[a.id].pc.outcome.completion)).None?))
  {
    SettleOutcome(s.ledger, NextOp(s, a.id, s.calls[a.id], a).value);
  }

  lemma AdvanceRefs(s: System, a: Action)
    requires SystemInv(s) && a.Advance? && a.id in s.calls && NextOp(s, a.id, s.calls[a.id], a).Some?
    ensures var op := NextOp(s, a.id, s.calls[a.id], a).value;
      NamedBy(op) == Some(a.id) && !op.Reclaim?
  {
  }

  /** Keys, once taken, keep their attempt. */
  predicate KeysStay(db: Db, next: Db) {
    forall key :: key in db.byKey ==> key in next.byKey && next.byKey[key] == db.byKey[key]
  }

  lemma StepKeysStay(db: Db, op: Op)
    requires Inv(db)
    ensures KeysStay(db, Step(db, op).0)
  {
    forall key | key in db.byKey
      ensures key in Step(db, op).0.byKey && Step(db, op).0.byKey[key] == db.byKey[key]
    {
      KeyStays(db, op, key);
    }
  }

  lemma KeysKept(s: System, next: System)
    requires SystemInv(s) && KeysStay(s.ledger, next.ledger)
    requires next.invocations == s.invocations
    requires s.calls.Keys <= next.calls.Keys
    requires forall j :: j in s.calls && s.calls[j].invoked ==> next.calls[j].invoked
    ensures forall key {:trigger KeyInvoked(next, key)} :: KeyInvoked(next, key)
  {
    forall key ensures KeyInvoked(next, key) {
      assert KeyInvoked(s, key);
    }
  }

  /** One call moved, on its own attempt. */
  lemma OneCallMoved(s: System, next: System, id: string, moved: Call)
    requires SystemInv(s) && id in s.calls && Inv(next.ledger) && KeysStay(s.ledger, next.ledger)
    requires next.calls == s.calls[id := moved] && next.invocations == s.invocations
    requires s.calls[id].invoked ==> moved.invoked
    requires CallInv(moved, next.ledger, id)
    requires forall j {:trigger SameRow(s.ledger, next.ledger, j)} :: j != id ==> SameRow(s.ledger, next.ledger, j)
    ensures SystemInv(next)
  {
    forall j | j in next.calls ensures CallInv(next.calls[j], next.ledger, j) {
      if j != id {
        assert CallInv(s.calls[j], s.ledger, j);
        OtherCallKept(s.calls[j], s.ledger, next.ledger, j);
      }
    }
    forall j | j in next.ledger.attempts ensures j in next.calls {
      assert j != id ==> SameRow(s.ledger, next.ledger, j);
    }
    KeysKept(s, next);
  }

  lemma InvokedStays(s: System, call: Call, reply: Reply)
    ensures After(s, call, reply).invoked == call.invoked
  {
  }

  lemma {:induction false} LedgerStepKept(s: System, a: Action)
    requires SystemInv(s) && a.Advance? && a.id in s.calls && NextOp(s, a.id, s.calls[a.id], a).Some?
    ensures SystemInv(AdvanceCall(s, a))
  {
    var call := s.calls[a.id];
    var op := NextOp(s, a.id, call, a).value;
    AdvanceRefs(s, a);
    var (db, reply) := Step(s.ledger, op);
    StepKept(s.ledger, op);
    StepKeysStay(s.ledger, op);
    assert CallInv(call, s.ledger, a.id);
    OwnStepKept(s, a);
    InvokedStays(s, call, reply);
    forall j | j != a.id ensures SameRow(s.ledger, db, j) {
      OtherRowsKept(s.ledger, op, j);
    }
    OneCallMoved(s, AdvanceCall(s, a), a.id, After(s, call, reply));
  }

  /** Invoking the adapter: the key's count was zero, because its one owner had not invoked yet. */
  lemma InvokeKept(s: System, a: Action)
    requires SystemInv(s) && a.Advance? && a.id in s.calls && s.calls[a.id].pc.AfterDispatch?
    ensures SystemInv(AdvanceCall(s, a))
    ensures Count(s.invocations, s.calls[a.id].request.key) == 0
  {
    var call := s.calls[a.id];
    var next := AdvanceCall(s, a);
    assert CallInv(call, s.ledger, a.id);
    assert RowInv(s.ledger, a.id);
    forall key ensures KeyInvoked(next, key) {
      assert KeyInvoked(s, key);
    }
    assert KeyInvoked(s, call.request.key);
    forall j | j in next.calls ensures CallInv(next.calls[j], next.ledger, j) {
      assert CallInv(s.calls[j], s.ledger, j);
    }
  }

  /** The ledger moved under the calls, none of which took a step. */
  lemma LedgerMoved(s: System, next: System)
    requires SystemInv(s) && Inv(next.ledger) && KeysStay(s.ledger, next.ledger)
    requires next == s.(ledger := next.ledger) && next.ledger.attempts.Keys == s.ledger.attempts.Keys
    requires forall j {:trigger s.calls[j]} :: j in s.calls ==> CallInv(s.calls[j], next.ledger, j)
    ensures SystemInv(next)
  {
    KeysKept(s, next);
  }

  lemma ReapKept(s: System, olderThanMs: int, now: int)
    requires SystemInv(s)
    ensures SystemInv(s.(ledger := Step(s.ledger, Reclaim(olderThanMs, now)).0))
  {
    var next := Step(s.ledger, Reclaim(olderThanMs, now)).0;
    StepKept(s.ledger, Reclaim(olderThanMs, now));
    StepKeysStay(s.ledger, Reclaim(olderThanMs, now));
    ReclaimReaps(s.ledger, olderThanMs, now);
    forall j | j in s.calls ensures CallInv(s.calls[j], next, j) {
      assert CallInv(s.calls[j], s.ledger, j);
      ReapedCallKept(s.calls[j], s.ledger, next, now, j);
    }
    LedgerMoved(s, s.(ledger := next));
  }

  lemma {:induction false} WrittenOffKept(s: System, op: Op)
    requires SystemInv(s) && op.Reconcile?
    ensures SystemInv(s.(ledger := Step(s.ledger, op).0))
  {
    var next := Step(s.ledger, op).0;
    StepKept(s.ledger, op);
    StepKeysStay(s.ledger, op);
    forall j | j in s.calls ensures CallInv(s.calls[j], next, j) {
      assert CallInv(s.calls[j], s.ledger, j);
      WriteOffKept(s.calls[j], s.ledger, op, j);
    }
    LedgerMoved(s, s.(ledger := next));
  }

  lemma OpenKept(s: System, op: Op)
    requires SystemInv(s) && op.OpenAccount?
    ensures SystemInv(s.(ledger := Step(s.ledger, op).0))
  {
    var next := Step(s.ledger, op).0;
    StepKept(s.ledger, op);
    StepKeysStay(s.ledger, op);
    forall j | j in s.calls ensures CallInv(s.calls[j], next, j) {
      assert CallInv(s.calls[j], s.ledger, j);
      OtherCallKept(s.calls[j], s.ledger, next, j);
    }
    LedgerMoved(s, s.(ledger := next));
  }

  lemma OutsideKept(s: System, a: Action)
    requires SystemInv(s) && (a.Reap? || a.WriteOff? || a.OpenScope?)
    ensures SystemInv(Act(s, a))
  {
    match a
    case Reap(olderThanMs, now) => ReapKept(s, olderThanMs, now);
    case WriteOff(id, reason, evidence, now) => WrittenOffKept(s, Reconcile(id, reason, evidence, now));
    case OpenScope(scope, maxCost) => OpenKept(s, OpenAccount(scope, maxCost));
  }

  lemma LocalKept(s: System, a: Action)
    requires SystemInv(s) && (a.Begin? || a.Crash?)
    ensures SystemInv(Act(s, a))
  {
    var next := Act(s, a);
    forall j | j in next.calls ensures CallInv(next.calls[j], next.ledger, j) {
      if j in s.calls {
        assert CallInv(s.calls[j], s.ledger, j);
      }
    }
    forall key ensures KeyInvoked(next, key) {
      assert KeyInvoked(s, key);
    }
  }

  lemma ActKept(s: System, a: Action)
    requires SystemInv(s)
    ensures SystemInv(Act(s, a))
  {
    match a
    case Advance(id, _, _, _) =>
      if id in s.calls {
        if s.calls[id].pc.AfterDispatch? {
          InvokeKept(s, a);
        } else if NextOp(s, id, s.calls[id], a).Some? {
          LedgerStepKept(s, a);
        }
      }
    case Begin(_, _, _) => LocalKept(s, a);
    case Crash(_) => LocalKept(s, a);
    case _ => OutsideKept(s, a);
  }

  lemma {:induction false} PlayKept(s: System, actions: seq<Action>)
    requires SystemInv(s)
    ensures SystemInv(Play(s, actions))
  {
    if actions != [] {
      PlayKept(s, actions[..|actions| - 1]);
      ActKept(Play(s, actions[..|actions| - 1]), actions[|actions| - 1]);
    }
  }

  lemma FreshKept(adapters: set<Provider>)
    ensures SystemInv(Fresh(adapters))
  {
    EmptyKept();
  }

  /** Whatever is retried, duplicated, reaped or crashed, a key reaches a provider at most once. */
  lemma AdapterInvokedAtMostOnce(adapters: set<Provider>, actions: seq<Action>, key: string)
    ensures Count(Play(Fresh(adapters), actions).invocations, key) <= 1
  {
    FreshKept(adapters);
    PlayKept(Fresh(adapters), actions);
    assert KeyInvoked(Play(Fresh(adapters), actions), key);
  }

  /** A finished call that created its attempt leaves it finalized, and its reservation is still held
      exactly when the outcome is unknown. */
  lemma FinishedCallsAreFinalized(adapters: set<Provider>, actions: seq<Action>, id: string)
    requires var s := Play(Fresh(adapters), actions);
      id in s.calls && s.calls[id].pc.Done? && s.calls[id].created
    ensures var db := Play(Fresh(adapters), actions).ledger;
      && id in db.attempts && Finalized(db.attempts[id].outcome)
      && (Held(db.attempts[id].outcome) <==> db.attempts[id].outcome.OutcomeUnknown?)
      && HeldWeights(db.attempts, db.attempts[id].scope)[id] ==
           (if db.attempts[id].outcome.OutcomeUnknown? then db.attempts[id].reservedCost else 0)
  {
    FreshKept(adapters);
    PlayKept(Fresh(adapters), actions);
    var s := Play(Fresh(adapters), actions);
    assert CallInv(s.calls[id], s.ledger, id);
  }

  /** An answer is delivered only by the one call whose attempt succeeded, and stays that way. */
  lemma {:induction false} DeliveredMeansSucceeded(adapters: set<Provider>, actions: seq<Action>, id: string)
    requires var s := Play(Fresh(adapters), actions);
      id in s.calls && s.calls[id].pc.Done? && s.calls[id].pc.ending.Delivered?
    ensures var s := Play(Fresh(adapters), actions);
      && HasOutcome(s.ledger, id, Succeeded) && s.ledger.attempts[id] == s.calls[id].pc.ending.row
      && id in s.ledger.charged && s.ledger.charged[id] <= s.calls[id].request.maxCost
  {
    FreshKept(adapters);
    PlayKept(Fresh(adapters), actions);
    var s := Play(Fresh(adapters), actions);
    assert CallInv(s.calls[id], s.ledger, id);
    assert RowInv(s.ledger, id);
  }

  /** How many steps a call that does not crash still has to take. */
  function Remaining(pc: Pc): nat {
    match pc
    case Prepared => 5
    case AfterReserve => 4
    case AfterDispatch => 3
    case Answered(_) => 2
    case Refusing(_) => 1
    case _ => 0
  }

  /** The replies a call at this point can get. */
  predicate Expected(pc: Pc, reply: Reply) {
    reply.Accepted? || reply.Refused? || (pc.Prepared? && reply.Replayed?) || (pc.AfterReserve? && reply.Dispatch?)
  }

  lemma ReplyExpected(s: System, a: Action)
    requires SystemInv(s) && a.Advance? && a.id in s.calls && NextOp(s, a.id, s.calls[a.id], a).Some?
    ensures Expected(s.calls[a.id].pc, Step(s.ledger, NextOp(s, a.id, s.calls[a.id], a).value).1)
  {
    var call := s.calls[a.id];
    assert CallInv(call, s.ledger, a.id);
    var op := NextOp(s, a.id, call, a).value;
    match call.pc
    case Prepared => OwnReserve(call, s.ledger, a.id);
    case AfterReserve => if op.Fail? { FailOutcome(s.ledger, op); }
    case Answered(outcome) => if outcome.Returned? { SettleOutcome(s.ledger, op); } else { FailOutcome(s.ledger, op); }
    case Refusing(_) => FailOutcome(s.ledger, op);
  }

  lemma AfterProgresses(s: System, call: Call, reply: Reply)
    requires Remaining(call.pc) > 0 && !call.pc.AfterDispatch? && Expected(call.pc, reply)
    ensures Remaining(After(s, call, reply).pc) < Remaining(call.pc)
  {
  }

  /** Every step of a live call brings it closer to its end: no await of the protocol is revisited. */
  lemma {:induction false} AdvanceProgresses(s: System, a: Action)
    requires SystemInv(s) && a.Advance? && a.id in s.calls && Remaining(s.calls[a.id].pc) > 0
    ensures a.id in Act(s, a).calls
    ensures Remaining(Act(s, a).calls[a.id].pc) < Remaining(s.calls[a.id].pc)
  {
    var call := s.calls[a.id];
    if !call.pc.AfterDispatch? {
      ReplyExpected(s, a);
      AfterProgresses(s, call, Step(s.ledger, NextOp(s, a.id, call, a).value).1);
    }
  }

  /** The adapter answered, nobody else has touched the attempt, and the bill exceeds the reservation. */
  predicate OverCost(s: System, id: string) {
    && id in s.calls && s.calls[id].pc.Answered? && s.calls[id].pc.outcome.Returned?
    && HasOutcome(s.ledger, id, Dispatched)
    && var call := s.calls[id];
       call.request.maxCost < TruthfulCost(call.request.route.provider, call.pc.outcome.completion).usage.costUsdMicros
  }

  lemma OverCostRefused(s: System, a: Action)
    requires SystemInv(s) && a.Advance? && OverCost(s, a.id)
    ensures Act(s, a) == s.(calls := s.calls[a.id := s.calls[a.id].(pc := Refusing(Message(CostExceedsReservation)))])
  {
    assert CallInv(s.calls[a.id], s.ledger, a.id);
    assert RowInv(s.ledger, a.id);
    var op := NextOp(s, a.id, s.calls[a.id], a).value;
    assert Charge(s.ledger, a.id, op.completion.usage.costUsdMicros) == Err(CostExceedsReservation);
  }

  /** Nothing was charged or released, and the outcome is unknown without a request id. */
  predicate LeftUnknown(before: Db, after: Db, id: string) {
    && after.accounts == before.accounts && after.charged == before.charged
    && id in before.attempts && HasOutcome(after, id, OutcomeUnknown)
    && after.attempts[id].providerRequestId.None?
    && after.attempts[id].scope == before.attempts[id].scope
    && after.attempts[id].reservedCost == before.attempts[id].reservedCost
  }

  lemma RefusingFails(s: System, b: Action)
    requires SystemInv(s) && b.Advance? && b.id in s.calls && s.calls[b.id].pc.Refusing?
    requires HasOutcome(s.ledger, b.id, Dispatched)
    ensures LeftUnknown(s.ledger, Act(s, b).ledger, b.id)
  {
    assert RowInv(s.ledger, b.id);
    FailOutcome(s.ledger, NextOp(s, b.id, s.calls[b.id], b).value);
  }

  /** A completion dearer than its reservation: the verdict is refused without a trace, and the catch
      block then records an unknown outcome with nothing spent and no provider request id. */
  lemma OverCostEndsUnknown(s: System, a: Action, b: Action)
    requires SystemInv(s) && a.Advance? && b.Advance? && a.id == b.id && OverCost(s, a.id)
    ensures Act(s, a).ledger == s.ledger && Act(s, a).calls[a.id].pc == Refusing(Message(CostExceedsReservation))
    ensures LeftUnknown(s.ledger, Act(Act(s, a), b).ledger, a.id)
  {
    OverCostRefused(s, a);
    ActKept(s, a);
    RefusingFails(Act(s, a), b);
  }

  lemma UnbilledUnknownCanBeWrittenOff(db: Db, id: string, reason: string, evidence: string, now: int)
    requires Inv(db) && HasOutcome(db, id, OutcomeUnknown) && db.attempts[id].providerRequestId.None?
    requires Sha256Text(evidence)
    ensures var next := Step(db, Reconcile(id, reason, evidence, now)).0;
      && HasOutcome(next, id, Failed) && next.charged == db.charged
      && db.attempts[id].scope in db.accounts
      && next.accounts == db.accounts[db.attempts[id].scope := db.accounts[db.attempts[id].scope].(reserved :=
           db.accounts[db.attempts[id].scope].reserved - db.attempts[id].reservedCost)]
  {
    assert RowInv(db, id);
    ReservationCovered(db, id);
    ReconcileKept(db, id, reason, evidence, now);
  }

  /** The attempt failed, its reservation is back and nothing was charged. */
  predicate WrittenOff(before: Db, after: Db, id: string) {
    && HasOutcome(after, id, Failed) && after.charged == before.charged
    && id in before.attempts && before.attempts[id].scope in before.accounts
    && after.accounts == before.accounts[before.attempts[id].scope :=
         before.accounts[before.attempts[id].scope].(reserved :=
           before.accounts[before.attempts[id].scope].reserved - before.attempts[id].reservedCost)]
  }

  lemma UnknownWrittenOff(before: Db, unknown: Db, id: string, reason: string, evidence: string, now: int)
    requires Inv(unknown) && LeftUnknown(before, unknown, id) && Sha256Text(evidence)
    ensures WrittenOff(before, Step(unknown, Reconcile(id, reason, evidence, now)).0, id)
  {
    UnbilledUnknownCanBeWrittenOff(unknown, id, reason, evidence, now);
  }

  /** So the guard that sends billed requests to external reconciliation does not see it: the
      reconciler can write the over-cost attempt off as never charged. */
  lemma {:induction false} OverCostCanBeWrittenOff(s: System, a: Action, b: Action, reason: string, evidence: string, now: int)
    requires SystemInv(s) && a.Advance? && b.Advance? && a.id == b.id && OverCost(s, a.id)
    requires Sha256Text(evidence)
    ensures WrittenOff(s.ledger, Step(Act(Act(s, a), b).ledger, Reconcile(a.id, reason, evidence, now)).0, a.id)
  {
    OverCostEndsUnknown(s, a, b);
    ActKept(s, a);
    ActKept(Act(s, a), b);
    UnknownWrittenOff(s.ledger, Act(Act(s, a), b).ledger, a.id, reason, evidence, now);
  }

  /** A rejection for per-model accounting still charges the total the provider claimed, while the
      usage events record the slices: exactly then the two disagree. */
  lemma PerModelMismatchChargesTheClaim(s: System, a: Action)
    requires SystemInv(s) && a.Advance? && a.id in s.calls
    requires s.calls[a.id].pc.Answered? && s.calls[a.id].pc.outcome.Returned?
    requires var call := s.calls[a.id];
      Step(s.ledger, Verdict(a.id, call, call.pc.outcome.completion, a.sha, a.now)).1.Accepted?
    ensures var call := s.calls[a.id];
      var c := TruthfulCost(call.request.route.provider, call.pc.outcome.completion);
      var db := Act(s, a).ledger;
      && a.id in db.charged && db.charged[a.id] == c.usage.costUsdMicros
      && (Itemised(db, a.id) == db.charged[a.id] <==> SliceCost(c.modelUsage) == c.usage.costUsdMicros)
      && (Rejection(call.request, c).None? ==> Itemised(db, a.id) == db.charged[a.id])
  {
    var call := s.calls[a.id];
    ItemisedIffAccounted(s.ledger, Verdict(a.id, call, call.pc.outcome.completion, a.sha, a.now));
  }
}
