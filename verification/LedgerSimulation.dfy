/** Forward simulation between the two ledgers. */
module LedgerSimulation {
  import opened Common
  import opened Ledger
  import opened LedgerSafety
  import opened LedgerHistory
  import opened MemoryLedger

  function TruncateCode(code: Option<string>): Option<string> {
    if code.Some? then Some(Truncate(code.value, CODE_LIMIT)) else None
  }

  /** The same attempt in both ledgers: they may differ only in how much of a failure code they keep. */
  predicate SameAttempt(r: Row, inMemory: Row, sentAt: Option<int>) {
    r == inMemory.(dispatchedAt := sentAt, failureCode := TruncateCode(inMemory.failureCode))
  }

  function SentAt(m: Memory, id: string): Option<int> {
    if id in m.dispatchedAt then Some(m.dispatchedAt[id]) else None
  }

  ghost predicate Related(db: Db, m: Memory) {
    && db.byKey == m.byKey
    && db.attempts.Keys == m.byId.Keys
    && m.dispatchedAt.Keys <= m.byId.Keys && m.usage.Keys <= m.byId.Keys
    && forall id {:trigger m.byId[id]} {:trigger db.attempts[id]} :: id in db.attempts ==>
         SameAttempt(db.attempts[id], m.byId[id], SentAt(m, id))
  }

  /** What a caller of either ledger sees. */
  datatype Observation =
    | Created
    | Existing(outcome: Outcome)
    | Settled(outcome: Outcome)
    | Sent
    | Swept(ids: set<string>)
    | Done
    | Threw(error: LedgerError)

  function Observe(op: Op, reply: Reply): Observation {
    match reply
    case Accepted(r) => if op.Reserve? then Created else Settled(r.outcome)
    case Replayed(r) => Existing(r.outcome)
    case Dispatch => Sent
    case Reclaimed(ids) => Swept(ids)
    case Opened => Done
    case Refused(e) => Threw(e)
  }

  predicate NamesAttempt(op: Op) {
    op.MarkDispatched? || op.Succeed? || op.Reject? || op.Fail?
  }

  /** The two ledgers answer one call alike, and stay related, exactly when the database has no money or
      constraint to refuse with. */
  ghost predicate Simulated(db: Db, m: Memory, op: Op) {
    var (next, reply) := Step(db, op);
    var (nextM, replyM) := MemoryStep(m, op);
    && (MoneyRefusal(reply) || Related(next, nextM))
    && (!(op.OpenAccount? && op.maxCost < 0) ==> (Observe(op, reply) == Observe(op, replyM) <==> !MoneyRefusal(reply)))
  }

  lemma RelatedWrite(db: Db, next: Db, m: Memory, nextM: Memory, id: string, r: Row, inMemory: Row)
    requires Related(db, m) && id in db.attempts
    requires next.byKey == db.byKey && next.attempts == db.attempts[id := r]
    requires SameAttempt(r, inMemory, SentAt(m, id))
    requires nextM == Write(m, id, inMemory).(usage := nextM.usage) && nextM.usage.Keys <= m.usage.Keys + {id}
    ensures Related(next, nextM)
  {
  }

  lemma {:induction false} SettleSimulates(db: Db, m: Memory, op: Op)
    requires Inv(db) && Related(db, m)
    requires op.Succeed? || op.Reject?
    requires op.id in db.attempts
    ensures Simulated(db, m, op)
  {
    SettleOutcome(db, op);
    assert SameAttempt(db.attempts[op.id], m.byId[op.id], SentAt(m, op.id));
    var (next, reply) := Step(db, op);
    if reply.Accepted? {
      var nextM := MemoryStep(m, op).0;
      RelatedWrite(db, next, m, nextM, op.id, VerdictRow(op, db.attempts[op.id]), nextM.byId[op.id]);
    }
  }

  lemma FailSimulates(db: Db, m: Memory, op: Op)
    requires Inv(db) && Related(db, m) && op.Fail? && op.id in db.attempts
    ensures Simulated(db, m, op) && !MoneyRefusal(Step(db, op).1)
  {
    FailOutcome(db, op);
    assert RowInv(db, op.id);
    assert SameAttempt(db.attempts[op.id], m.byId[op.id], SentAt(m, op.id));
    if HasOutcome(db, op.id, Reserved) || HasOutcome(db, op.id, Dispatched) {
      RelatedWrite(db, Step(db, op).0, m, MemoryStep(m, op).0, op.id, Step(db, op).1.row,
                   FailedInMemory(m.byId[op.id], op.code, op.unknown, op.requestId, op.now));
    }
  }

  lemma ReserveSimulates(db: Db, m: Memory, op: Op)
    requires Inv(db) && Related(db, m) && op.Reserve?
    ensures Simulated(db, m, op)
  {
    if op.attempt.key in db.byKey {
      assert KeyInv(db, op.attempt.key);
      assert SameAttempt(db.attempts[db.byKey[op.attempt.key]], m.byId[m.byKey[op.attempt.key]], SentAt(m, db.byKey[op.attempt.key]));
    }
  }

  lemma StrandedAlike(db: Db, m: Memory, olderThanMs: int, now: int)
    requires Related(db, m)
    ensures (set id | id in db.attempts && Stranded(db.attempts[id], olderThanMs, now))
         == (set id | id in m.byId && StrandedIn(m, id, olderThanMs, now))
  {
    forall id | id in db.attempts
      ensures Stranded(db.attempts[id], olderThanMs, now) <==> StrandedIn(m, id, olderThanMs, now)
    {
      assert SameAttempt(db.attempts[id], m.byId[id], SentAt(m, id));
    }
  }

  lemma SweepRelated(db: Db, m: Memory, next: Db, nextM: Memory, ids: set<string>, now: int)
    requires Related(db, m)
    requires next == db.(attempts := map id | id in db.attempts ::
      if id in ids then StrandedRow(db.attempts[id], now) else db.attempts[id])
    requires nextM == m.(byId := map id | id in m.byId :: if id in ids then StrandedRow(m.byId[id], now) else m.byId[id])
    ensures Related(next, nextM)
  {
    forall id | id in next.attempts ensures SameAttempt(next.attempts[id], nextM.byId[id], SentAt(nextM, id)) {
      assert SameAttempt(db.attempts[id], m.byId[id], SentAt(m, id));
    }
  }

  lemma ReclaimSimulates(db: Db, m: Memory, olderThanMs: int, now: int)
    requires Related(db, m)
    ensures Simulated(db, m, Reclaim(olderThanMs, now))
  {
    StrandedAlike(db, m, olderThanMs, now);
    var ids := set id | id in db.attempts && Stranded(db.attempts[id], olderThanMs, now);
    if SafeInteger(olderThanMs) && MINIMUM_HORIZON_MS <= olderThanMs {
      SweepRelated(db, m, ReclaimStep(db, olderThanMs, now).0, MemoryStep(m, Reclaim(olderThanMs, now)).0, ids, now);
    }
  }

  lemma DispatchSimulates(db: Db, m: Memory, op: Op)
    requires Related(db, m) && op.MarkDispatched? && op.id in db.attempts
    ensures Simulated(db, m, op)
  {
    assert SameAttempt(db.attempts[op.id], m.byId[op.id], SentAt(m, op.id));
  }

  lemma OpenSimulates(db: Db, m: Memory, op: Op)
    requires Related(db, m) && op.OpenAccount?
    ensures Simulated(db, m, op)
  {
  }

  /** One call on any attempt both know. An unknown id is refused by both, under different names. */
  lemma {:induction false} StepSimulates(db: Db, m: Memory, op: Op)
    requires Inv(db) && Related(db, m) && !op.Reconcile?
    requires Known(db, op)
    ensures Simulated(db, m, op)
  {
    match op
    case OpenAccount(_, _) => OpenSimulates(db, m, op);
    case Reserve(_) => ReserveSimulates(db, m, op);
    case MarkDispatched(_, _) => DispatchSimulates(db, m, op);
    case Succeed(_, _, _, _) => SettleSimulates(db, m, op);
    case Reject(_, _, _, _) => SettleSimulates(db, m, op);
    case Fail(_, _, _, _, _) => FailSimulates(db, m, op);
    case Reclaim(olderThanMs, now) => ReclaimSimulates(db, m, olderThanMs, now);
  }

  lemma UnknownIdRefusedByBoth(db: Db, m: Memory, op: Op)
    requires Related(db, m) && NamesAttempt(op) && op.id !in db.attempts
    ensures Step(db, op).0 == db && Step(db, op).1.Refused? && Step(db, op).1 != Refused(UnknownAttempt)
    ensures MemoryStep(m, op) == (m, Refused(UnknownAttempt))
  {
  }

  /** Everything a caller can check so that the database has nothing to refuse. */
  ghost predicate Affordable(db: Db, op: Op) {
    match op
    case Reserve(a) =>
      a.key in db.byKey ||
      (&& a.scope in db.accounts && 0 <= a.reservedCost && a.id !in db.attempts
       && db.accounts[a.scope].spent + db.accounts[a.scope].reserved + a.reservedCost <= db.accounts[a.scope].maxCost)
    case Succeed(id, c, _, _) => id in db.attempts ==> WithinReservation(db, id, c)
    case Reject(id, c, _, _) => id in db.attempts ==> WithinReservation(db, id, c)
    case OpenAccount(_, maxCost) => 0 <= maxCost
    case Reconcile(_, _, _, _) => false
    case _ => true
  }

  predicate Known(db: Db, op: Op) {
    NamesAttempt(op) ==> op.id in db.attempts
  }

  ghost predicate WithinReservation(db: Db, id: string, c: Completion)
    requires id in db.attempts
  {
    && 0 <= c.usage.costUsdMicros <= db.attempts[id].reservedCost
    && Insertable(c.modelUsage)
  }

  lemma AffordableIsNeverRefused(db: Db, op: Op)
    requires Inv(db) && Affordable(db, op)
    ensures !MoneyRefusal(Step(db, op).1)
  {
    match op
    case Reserve(a) =>
      if a.key in db.byKey {
        assert KeyInv(db, a.key);
      } else {
        assert AccountInv(db, a.scope);
      }
    case Succeed(id, c, sha, now) => if id in db.attempts { AffordableVerdict(db, op); }
    case Reject(id, c, code, now) => if id in db.attempts { AffordableVerdict(db, op); }
    case Fail(id, _, _, _, _) => if id in db.attempts { FailOutcome(db, op); }
    case _ =>
  }

  lemma AffordableVerdict(db: Db, op: Op)
    requires Inv(db) && (op.Succeed? || op.Reject?) && op.id in db.attempts && WithinReservation(db, op.id, op.completion)
    ensures !MoneyRefusal(Step(db, op).1)
  {
    SettleOutcome(db, op);
    assert RowInv(db, op.id);
    assert AccountInv(db, db.attempts[op.id].scope);
    VerdictAcceptedIff(db, op);
  }

  function MemoryRun(m: Memory, ops: seq<Op>): Memory {
    if ops == [] then m else MemoryStep(MemoryRun(m, ops[..|ops| - 1]), ops[|ops| - 1]).0
  }

  ghost predicate AffordableRun(ops: seq<Op>) {
    forall i :: 0 <= i < |ops| ==> Affordable(Run(EmptyDb, ops[..i]), ops[i])
  }

  lemma {:induction false} RunSimulates(ops: seq<Op>)
    requires AffordableRun(ops)
    ensures Related(Run(EmptyDb, ops), MemoryRun(EmptyMemory, ops))
  {
    if ops != [] {
      var init := ops[..|ops| - 1];
      forall i | 0 <= i < |init| ensures Affordable(Run(EmptyDb, init[..i]), init[i]) {
        assert init[..i] == ops[..i] && init[i] == ops[i];
      }
      RunSimulates(init);
      StepWithoutRefusal(init, ops[|ops| - 1]);
    }
  }

  lemma {:induction false} StepWithoutRefusal(ops: seq<Op>, op: Op)
    requires Related(Run(EmptyDb, ops), MemoryRun(EmptyMemory, ops))
    requires Affordable(Run(EmptyDb, ops), op)
    ensures Related(Step(Run(EmptyDb, ops), op).0, MemoryStep(MemoryRun(EmptyMemory, ops), op).0)
    ensures Observe(op, Step(Run(EmptyDb, ops), op).1) == Observe(op, MemoryStep(MemoryRun(EmptyMemory, ops), op).1) <==>
      Known(Run(EmptyDb, ops), op)
  {
    EmptyKept();
    RunKept(EmptyDb, ops);
    if Known(Run(EmptyDb, ops), op) {
      AffordableIsNeverRefused(Run(EmptyDb, ops), op);
      StepSimulates(Run(EmptyDb, ops), MemoryRun(EmptyMemory, ops), op);
    } else {
      UnknownIdRefusedByBoth(Run(EmptyDb, ops), MemoryRun(EmptyMemory, ops), op);
    }
  }

  /** Over any run with enough budget and honest costs the two ledgers cannot be told apart, except by the
      name under which a call on an attempt neither knows is refused. */
  lemma {:induction false} LedgersIndistinguishable(ops: seq<Op>, op: Op)
    requires AffordableRun(ops) && Affordable(Run(EmptyDb, ops), op)
    ensures Observe(op, Step(Run(EmptyDb, ops), op).1) == Observe(op, MemoryStep(MemoryRun(EmptyMemory, ops), op).1) <==>
      Known(Run(EmptyDb, ops), op)
  {
    RunSimulates(ops);
    StepWithoutRefusal(ops, op);
  }
}
