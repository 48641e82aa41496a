/** What whole runs of the ledger can and cannot do to one attempt, one key or one scope. */
module LedgerHistory {
  import opened Common
  import opened Sums
  import opened Ledger
  import opened LedgerSafety

  predicate HeldAt(db: Db, id: string) {
    id in db.attempts && Held(db.attempts[id].outcome)
  }

  predicate SettledAt(db: Db, id: string) {
    id in db.attempts && !Held(db.attempts[id].outcome)
  }

  function Before(ops: seq<Op>): seq<Op>
    requires ops != []
  {
    ops[..|ops| - 1]
  }

  function Last(ops: seq<Op>): Op
    requires ops != []
  {
    ops[|ops| - 1]
  }

  /** The refusals only a database with accounts and constraints can give. */
  predicate MoneyRefusal(reply: Reply) {
    reply.Refused? &&
    (reply.error.BudgetExhausted? || reply.error.CostExceedsReservation? || reply.error.ReservationMissing?
     || reply.error.DuplicateRow? || reply.error.CheckViolation?)
  }

  /** What succeed() and reject() leave in the database when nothing refuses them. */
  function VerdictRow(op: Op, r: Row): Row
    requires op.Succeed? || op.Reject?
  {
    if op.Succeed? then SucceededRow(r, op.completion, op.sha, op.now)
    else RejectedRow(r, op.completion, op.code, op.now)
  }

  lemma SettleOutcome(db: Db, op: Op)
    requires Inv(db) && (op.Succeed? || op.Reject?) && op.id in db.attempts
    ensures Step(db, op).1.Accepted? ==>
      && HasOutcome(db, op.id, Dispatched)
      && Step(db, op).1.row == VerdictRow(op, db.attempts[op.id])
      && Step(db, op).0.byKey == db.byKey
      && Step(db, op).0.attempts == db.attempts[op.id := VerdictRow(op, db.attempts[op.id])]
    ensures Step(db, op).1.Refused? ==> Step(db, op).0 == db
    ensures Step(db, op).1.Refused? && HasOutcome(db, op.id, Dispatched) ==> MoneyRefusal(Step(db, op).1)
    ensures !HasOutcome(db, op.id, Dispatched) ==>
      Step(db, op).1 == Refused(if op.Succeed? then CannotSucceed else CannotReject)
    ensures Step(db, op).1.Accepted? || Step(db, op).1.Refused?
  {
    if HasOutcome(db, op.id, Dispatched) && Charge(db, op.id, op.completion.usage.costUsdMicros).Ok? {
      var paid := Charge(db, op.id, op.completion.usage.costUsdMicros).value;
      if InsertUsage(paid, op.id, op.completion.modelUsage).Ok? {
        InsertUsageFrame(paid, op.id, op.completion.modelUsage);
      }
    }
  }

  lemma FailOutcome(db: Db, op: Op)
    requires Inv(db) && op.Fail? && op.id in db.attempts
    ensures var (next, reply) := Step(db, op);
      if HasOutcome(db, op.id, Reserved) || HasOutcome(db, op.id, Dispatched) then
        var r := FailedRow(db.attempts[op.id], op.code, op.unknown, op.requestId, op.now);
        reply == Accepted(r) && next.byKey == db.byKey && next.attempts == db.attempts[op.id := r]
      else reply == Refused(AlreadyFinalized) && next == db
  {
    if HasOutcome(db, op.id, Reserved) || HasOutcome(db, op.id, Dispatched) {
      assert RowInv(db, op.id);
      FailKept(db, op.id, op.code, op.unknown, op.requestId, op.now);
    }
  }

  /** succeed() and reject() write one row, one account and one charge, or nothing. */
  lemma SettleFrame(db: Db, op: Op)
    requires op.Succeed? || op.Reject?
    ensures var next := Step(db, op).0;
      && next.byKey == db.byKey && next.reconciliations == db.reconciliations
      && (next == db ||
          (&& HasOutcome(db, op.id, Dispatched)
           && op.id in next.attempts && op.id in next.charged
           && next.attempts == db.attempts[op.id := next.attempts[op.id]]
           && next.charged == db.charged[op.id := next.charged[op.id]]))
  {
    if HasOutcome(db, op.id, Dispatched) && Charge(db, op.id, op.completion.usage.costUsdMicros).Ok? {
      var paid := Charge(db, op.id, op.completion.usage.costUsdMicros).value;
      if InsertUsage(paid, op.id, op.completion.modelUsage).Ok? {
        InsertUsageFrame(paid, op.id, op.completion.modelUsage);
      }
    }
  }

  /** succeeded and failed are absorbing: no later transaction touches the row or its charge. */
  lemma SettledStays(db: Db, op: Op, id: string)
    requires Inv(db) && SettledAt(db, id)
    ensures var next := Step(db, op).0;
      && id in next.attempts && next.attempts[id] == db.attempts[id]
      && (id in next.charged <==> id in db.charged)
      && (id in db.charged ==> next.charged[id] == db.charged[id])
  {
    assert RowInv(db, id);
    match op
    case Reclaim(olderThanMs, now) => ReclaimReaps(db, olderThanMs, now);
    case Succeed(_, _, _, _) => SettleFrame(db, op);
    case Reject(_, _, _, _) => SettleFrame(db, op);
    case _ =>
  }

  /** An unknown outcome leaves only through the reconciler, only without a provider request id, and
      then gives back exactly its reservation and spends nothing. */
  lemma UnknownLeavesByReconciliation(db: Db, op: Op, id: string)
    requires Inv(db) && HasOutcome(db, id, OutcomeUnknown)
    ensures var next := Step(db, op).0;
      && id in next.attempts
      && (next.attempts[id] == db.attempts[id] ||
          (&& op.Reconcile? && op.id == id && Sha256Text(op.evidence)
           && db.attempts[id].providerRequestId.None?
           && next.attempts[id].outcome.Failed?
           && db.attempts[id].scope in db.accounts
           && next.accounts == db.accounts[db.attempts[id].scope :=
                db.accounts[db.attempts[id].scope].(reserved :=
                  db.accounts[db.attempts[id].scope].reserved - db.attempts[id].reservedCost)]
           && next.charged == db.charged))
  {
    assert RowInv(db, id);
    match op
    case Reclaim(olderThanMs, now) => ReclaimReaps(db, olderThanMs, now);
    case Succeed(_, _, _, _) => SettleFrame(db, op);
    case Reject(_, _, _, _) => SettleFrame(db, op);
    case Reconcile(other, reason, evidence, now) => ReservationCovered(db, id);
    case _ =>
  }

  /** A reserved or dispatched attempt is never forgotten. */
  lemma AttemptsStay(db: Db, op: Op, id: string)
    requires id in db.attempts
    ensures id in Step(db, op).0.attempts
  {
    match op
    case Reclaim(olderThanMs, now) => ReclaimReaps(db, olderThanMs, now);
    case Succeed(_, _, _, _) => SettleFrame(db, op);
    case Reject(_, _, _, _) => SettleFrame(db, op);
    case _ =>
  }

  /** How often attempt `id` gave its reservation back during a run. */
  ghost function Releases(db: Db, ops: seq<Op>, id: string): nat {
    if ops == [] then 0
    else
      Releases(db, Before(ops), id)
      + (if HeldAt(Run(db, Before(ops)), id) && !HeldAt(Run(db, ops), id) then 1 else 0)
  }

  /** A new row always starts held. */
  lemma NewRowsAreHeld(db: Db, op: Op, id: string)
    requires Inv(db) && id !in db.attempts
    ensures !SettledAt(Step(db, op).0, id)
  {
    match op
    case Reclaim(olderThanMs, now) => ReclaimReaps(db, olderThanMs, now);
    case Succeed(_, _, _, _) => SettleFrame(db, op);
    case Reject(_, _, _, _) => SettleFrame(db, op);
    case _ =>
  }

  /** Release exactly once: whatever the interleaving, an attempt gives its reservation back once if
      it ends settled and never if it does not. */
  lemma {:induction false} ReleasedExactlyOnce(ops: seq<Op>, id: string)
    ensures Releases(EmptyDb, ops, id) == if SettledAt(Run(EmptyDb, ops), id) then 1 else 0
  {
    if ops != [] {
      ReleasedExactlyOnce(Before(ops), id);
      EmptyKept();
      RunKept(EmptyDb, Before(ops));
      var db := Run(EmptyDb, Before(ops));
      if SettledAt(db, id) {
        SettledStays(db, Last(ops), id);
      } else if id in db.attempts {
        AttemptsStay(db, Last(ops), id);
      } else {
        NewRowsAreHeld(db, Last(ops), id);
      }
    }
  }

  lemma KeyStays(db: Db, op: Op, key: string)
    requires Inv(db) && key in db.byKey
    ensures key in Step(db, op).0.byKey && Step(db, op).0.byKey[key] == db.byKey[key]
  {
    assert KeyInv(db, key);
    match op
    case Succeed(_, _, _, _) => SettleFrame(db, op);
    case Reject(_, _, _, _) => SettleFrame(db, op);
    case _ =>
  }

  /** A key is taken exactly by the reserve() that creates its attempt. */
  lemma KeyTakenByCreation(db: Db, op: Op, key: string)
    requires Inv(db)
    ensures op.Reserve? && op.attempt.key == key && Step(db, op).1.Accepted? ==> key !in db.byKey
    ensures key !in db.byKey ==>
      (key in Step(db, op).0.byKey <==> op.Reserve? && op.attempt.key == key && Step(db, op).1.Accepted?)
  {
    if key in db.byKey {
      assert KeyInv(db, key);
    }
    if op.Succeed? || op.Reject? {
      SettleFrame(db, op);
    }
  }

  /** How often reserve() answered `created: true` for a key. */
  ghost function Creations(db: Db, ops: seq<Op>, key: string): nat {
    if ops == [] then 0
    else
      Creations(db, Before(ops), key)
      + (if Last(ops).Reserve? && Last(ops).attempt.key == key && Step(Run(db, Before(ops)), Last(ops)).1.Accepted?
         then 1 else 0)
  }

  /** An idempotency key creates at most one attempt, and created it exactly when it is taken. */
  lemma {:induction false} CreatedAtMostOnce(ops: seq<Op>, key: string)
    ensures Creations(EmptyDb, ops, key) == if key in Run(EmptyDb, ops).byKey then 1 else 0
  {
    if ops != [] {
      CreatedAtMostOnce(Before(ops), key);
      EmptyKept();
      RunKept(EmptyDb, Before(ops));
      var db := Run(EmptyDb, Before(ops));
      KeyTakenByCreation(db, Last(ops), key);
      if key in db.byKey {
        KeyStays(db, Last(ops), key);
      }
    }
  }

  // ---- When a verdict is accepted --------------------------------------------------------------

  predicate DistinctModels(slices: seq<Slice>) {
    forall i, j :: 0 <= i < j < |slices| ==> slices[i].resolvedModelId != slices[j].resolvedModelId
  }

  predicate AllCountable(slices: seq<Slice>) {
    forall i :: 0 <= i < |slices| ==> UsageChecks(slices[i].usage)
  }

  /** Slices with distinct models and no negative count. */
  predicate Insertable(slices: seq<Slice>) {
    DistinctModels(slices) && AllCountable(slices)
  }

  predicate NoneRecorded(db: Db, id: string, slices: seq<Slice>) {
    forall i :: 0 <= i < |slices| ==> (id, slices[i].resolvedModelId) !in db.usage
  }

  lemma {:induction false} InsertableGoesIn(db: Db, id: string, slices: seq<Slice>)
    requires Insertable(slices) && NoneRecorded(db, id, slices)
    ensures InsertUsage(db, id, slices).Ok?
    decreases |slices|
  {
    if slices != [] {
      var at := (id, slices[0].resolvedModelId);
      var rest := slices[1..];
      forall i | 0 <= i < |rest| ensures (id, rest[i].resolvedModelId) !in db.usage && rest[i].resolvedModelId != at.1 {
        assert rest[i] == slices[i + 1];
      }
      InsertableGoesIn(db.(usage := db.usage[at := slices[0].usage]), id, rest);
    }
  }

  /** Rows that went in had distinct models not recorded before, and no negative count. */
  lemma {:induction false} InsertedWasInsertable(db: Db, id: string, slices: seq<Slice>)
    requires InsertUsage(db, id, slices).Ok?
    ensures Insertable(slices) && NoneRecorded(db, id, slices)
    decreases |slices|
  {
    if slices != [] {
      var rest := slices[1..];
      var next := db.(usage := db.usage[(id, slices[0].resolvedModelId) := slices[0].usage]);
      InsertedWasInsertable(next, id, rest);
      forall i | 0 < i < |slices|
        ensures (id, slices[i].resolvedModelId) !in db.usage && slices[i].resolvedModelId != slices[0].resolvedModelId
        ensures UsageChecks(slices[i].usage)
      {
        assert slices[i] == rest[i - 1];
        assert (id, rest[i - 1].resolvedModelId) !in next.usage;
      }
      forall i, j | 0 < i < j < |slices| ensures slices[i].resolvedModelId != slices[j].resolvedModelId {
        assert slices[i] == rest[i - 1] && slices[j] == rest[j - 1];
      }
    }
  }

  /** Which of the two failed is what the error says. */
  lemma {:induction false} InsertErrorNames(db: Db, id: string, slices: seq<Slice>)
    requires InsertUsage(db, id, slices).Err?
    ensures InsertUsage(db, id, slices) == Err(CheckViolation) ==> !AllCountable(slices)
    ensures InsertUsage(db, id, slices) == Err(DuplicateRow) && NoneRecorded(db, id, slices) ==> !DistinctModels(slices)
    decreases |slices|
  {
    var at := (id, slices[0].resolvedModelId);
    var rest := slices[1..];
    if at !in db.usage && UsageChecks(slices[0].usage) {
      var next := db.(usage := db.usage[at := slices[0].usage]);
      InsertErrorNames(next, id, rest);
      assert forall i :: 0 <= i < |rest| ==> rest[i] == slices[i + 1];
      if NoneRecorded(db, id, slices) && DistinctModels(slices) {
        assert forall i :: 0 <= i < |rest| ==> (id, rest[i].resolvedModelId) !in next.usage;
      }
    }
  }

  /** What a caller can see of a completion's fate before succeed() or reject() is called. */
  predicate VerdictFits(db: Db, id: string, c: Completion) {
    && HasOutcome(db, id, Dispatched)
    && c.usage.costUsdMicros <= db.attempts[id].reservedCost
    && db.attempts[id].scope in db.accounts && 0 <= db.accounts[db.attempts[id].scope].spent + c.usage.costUsdMicros
    && Insertable(c.modelUsage)
  }

  lemma NothingRecorded(db: Db, id: string, slices: seq<Slice>, cost: int)
    requires Inv(db) && HasOutcome(db, id, Dispatched)
    ensures NoneRecorded(db, id, slices)
    ensures Charge(db, id, cost).Ok? ==> NoneRecorded(Charge(db, id, cost).value, id, slices)
  {
    assert RowInv(db, id);
    assert forall at :: at in db.usage ==> at.0 != id;
  }

  lemma ChargeFits(db: Db, id: string, cost: int)
    requires Inv(db) && HasOutcome(db, id, Dispatched)
    ensures db.attempts[id].scope in db.accounts
    ensures Charge(db, id, cost).Ok? <==>
      cost <= db.attempts[id].reservedCost && 0 <= db.accounts[db.attempts[id].scope].spent + cost
    ensures Charge(db, id, cost) == Err(CheckViolation) ==> db.accounts[db.attempts[id].scope].spent + cost < 0
    ensures Charge(db, id, cost) != Err(DuplicateRow) && Charge(db, id, cost) != Err(ReservationMissing)
  {
    assert RowInv(db, id);
    ReservationCovered(db, id);
    assert AccountInv(db, db.attempts[id].scope);
  }

  /** A verdict is accepted if and only if its attempt is still dispatched, its cost is covered by the
      reservation (and not so negative as to take spending below zero), and its slices have distinct
      models and no negative count. */
  lemma VerdictAcceptedIff(db: Db, op: Op)
    requires Inv(db) && (op.Succeed? || op.Reject?)
    ensures Step(db, op).1.Accepted? <==> VerdictFits(db, op.id, op.completion)
  {
    var c := op.completion;
    if HasOutcome(db, op.id, Dispatched) {
      assert RowInv(db, op.id);
      ChargeFits(db, op.id, c.usage.costUsdMicros);
      NothingRecorded(db, op.id, c.modelUsage, c.usage.costUsdMicros);
      if Charge(db, op.id, c.usage.costUsdMicros).Ok? {
        var paid := Charge(db, op.id, c.usage.costUsdMicros).value;
        if Insertable(c.modelUsage) {
          InsertableGoesIn(paid, op.id, c.modelUsage);
          InsertUsageFrame(paid, op.id, c.modelUsage);
        } else if InsertUsage(paid, op.id, c.modelUsage).Ok? {
          InsertedWasInsertable(paid, op.id, c.modelUsage);
        }
      }
    }
  }

  /** And a constraint error says what was wrong with it. */
  lemma VerdictErrorNames(db: Db, op: Op)
    requires Inv(db) && (op.Succeed? || op.Reject?)
    ensures Step(db, op).1 != Refused(ReservationMissing)
    ensures Step(db, op).1 == Refused(CheckViolation) ==>
      && op.id in db.attempts && db.attempts[op.id].scope in db.accounts
      && (db.accounts[db.attempts[op.id].scope].spent + op.completion.usage.costUsdMicros < 0 || !AllCountable(op.completion.modelUsage))
    ensures Step(db, op).1 == Refused(DuplicateRow) ==> !DistinctModels(op.completion.modelUsage)
  {
    var c := op.completion;
    if HasOutcome(db, op.id, Dispatched) {
      assert RowInv(db, op.id);
      ChargeFits(db, op.id, c.usage.costUsdMicros);
      NothingRecorded(db, op.id, c.modelUsage, c.usage.costUsdMicros);
      if Charge(db, op.id, c.usage.costUsdMicros).Ok? {
        var paid := Charge(db, op.id, c.usage.costUsdMicros).value;
        if InsertUsage(paid, op.id, c.modelUsage).Err? {
          InsertErrorNames(paid, op.id, c.modelUsage);
        }
      }
    }
  }

  /** Which constraint errors can occur at all: the guards that protect the budget never fire in a
      reachable state, and the constraints reject only negative or duplicate input. */
  lemma GuardsNeverFire(db: Db, op: Op)
    requires Inv(db)
    ensures Step(db, op).1 != Refused(ReservationMissing)
    ensures op.Fail? || op.Reconcile? || op.Reclaim? || op.MarkDispatched? ==>
      Step(db, op).1 != Refused(CheckViolation) && Step(db, op).1 != Refused(DuplicateRow)
    ensures op.OpenAccount? && Step(db, op).1 == Refused(CheckViolation) ==> op.maxCost < 0
    ensures op.Reserve? && Step(db, op).1 == Refused(CheckViolation) ==> op.attempt.reservedCost < 0
    ensures op.Reserve? && Step(db, op).1 == Refused(DuplicateRow) ==> op.attempt.id in db.attempts
    ensures (op.Succeed? || op.Reject?) && Step(db, op).1 == Refused(CheckViolation) ==>
      && op.id in db.attempts && db.attempts[op.id].scope in db.accounts
      && (db.accounts[db.attempts[op.id].scope].spent + op.completion.usage.costUsdMicros < 0 || !AllCountable(op.completion.modelUsage))
    ensures (op.Succeed? || op.Reject?) && Step(db, op).1 == Refused(DuplicateRow) ==>
      !DistinctModels(op.completion.modelUsage)
  {
    match op
    case OpenAccount(scope, maxCost) =>
    case Reserve(a) => ReserveKept(db, a);
    case MarkDispatched(id, now) =>
    case Succeed(id, c, sha, now) => VerdictErrorNames(db, op);
    case Reject(id, c, code, now) => VerdictErrorNames(db, op);
    case Fail(id, code, unknown, requestId, now) => FailKept(db, id, code, unknown, requestId, now);
    case Reclaim(olderThanMs, now) =>
    case Reconcile(id, reason, evidence, now) => ReconcileKept(db, id, reason, evidence, now);
  }

  // ---- Every attempt is fundable -------------------------------------------------------------

  function InScope(attempts: map<string, Row>, scope: string): map<string, int> {
    map id | id in attempts :: if attempts[id].scope == scope then 1 else 0
  }

  function Committed(attempts: map<string, Row>, charged: map<string, int>, scope: string): map<string, int> {
    map id | id in attempts :: HeldCost(attempts[id], scope) + ChargedCost(attempts[id], charged, id, scope)
  }

  function Ceiling(attempts: map<string, Row>, scope: string, r: int): map<string, int> {
    map id | id in attempts :: (if attempts[id].scope == scope then 1 else 0) * r
  }

  /** An attempt never costs its scope more than its reservation, so neither do they all together. */
  lemma CommittedBound(db: Db, scope: string, r: nat)
    requires Inv(db) && scope in db.accounts
    requires forall id :: id in db.attempts && db.attempts[id].scope == scope ==> db.attempts[id].reservedCost <= r
    ensures db.accounts[scope].spent + db.accounts[scope].reserved <= Sum(InScope(db.attempts, scope)) * r
  {
    assert AccountInv(db, scope);
    SumAdd(HeldWeights(db.attempts, scope), ChargedWeights(db.attempts, db.charged, scope),
           Committed(db.attempts, db.charged, scope));
    forall id | id in db.attempts
      ensures Committed(db.attempts, db.charged, scope)[id] <= Ceiling(db.attempts, scope, r)[id]
    {
      assert RowInv(db, id);
    }
    SumAtMost(Committed(db.attempts, db.charged, scope), Ceiling(db.attempts, scope, r));
    SumScale(Ceiling(db.attempts, scope, r), InScope(db.attempts, scope), r);
  }

  /** The idempotency keys a run asked a scope to reserve for, however often. */
  function KeysReserved(ops: seq<Op>, scope: string): set<string> {
    if ops == [] then {}
    else KeysReserved(Before(ops), scope) + (if Last(ops).Reserve? && Last(ops).attempt.scope == scope then {Last(ops).attempt.key} else {})
  }

  function ScopeKeys(attempts: map<string, Row>, scope: string): set<string> {
    set id | id in attempts && attempts[id].scope == scope :: attempts[id].key
  }

  ghost predicate EachAtMost(ops: seq<Op>, scope: string, r: int) {
    forall i :: 0 <= i < |ops| && ops[i].Reserve? && ops[i].attempt.scope == scope ==> ops[i].attempt.reservedCost <= r
  }

  /** No transaction moves an attempt to another scope or key or changes its reservation. */
  ghost predicate SameReservations(attempts: map<string, Row>, next: map<string, Row>) {
    && next.Keys == attempts.Keys
    && forall id :: id in next ==>
         next[id].scope == attempts[id].scope && next[id].key == attempts[id].key
         && next[id].reservedCost == attempts[id].reservedCost
  }

  lemma ReapedReservations(db: Db, next: Db, now: int)
    requires Reaped(db, next, now)
    ensures SameReservations(db.attempts, next.attempts)
  {
  }

  lemma RewrittenReservation(attempts: map<string, Row>, id: string, r: Row)
    requires id in attempts && r.scope == attempts[id].scope && r.key == attempts[id].key && r.reservedCost == attempts[id].reservedCost
    ensures SameReservations(attempts, attempts[id := r])
  {
  }

  lemma {:induction false} FailedReservation(db: Db, id: string, code: string, unknown: bool, requestId: Option<string>, now: int)
    ensures SameReservations(db.attempts, FailStep(db, id, code, unknown, requestId, now).0.attempts)
  {
    if id in db.attempts {
      RewrittenReservation(db.attempts, id, FailedRow(db.attempts[id], code, unknown, requestId, now));
    }
  }

  lemma ReconciledReservation(db: Db, id: string, reason: string, evidence: string, now: int)
    ensures SameReservations(db.attempts, ReconcileStep(db, id, reason, evidence, now).0.attempts)
  {
    if id in db.attempts {
      RewrittenReservation(db.attempts, id, ReconciledRow(db.attempts[id], reason, now));
    }
  }

  lemma {:induction false} ReservationsKept(db: Db, op: Op)
    requires Inv(db)
    ensures op.Reserve? && Step(db, op).1.Accepted? ==>
      && op.attempt.id !in db.attempts
      && Step(db, op).0.attempts == db.attempts[op.attempt.id := NewRow(op.attempt)]
    ensures !(op.Reserve? && Step(db, op).1.Accepted?) ==> SameReservations(db.attempts, Step(db, op).0.attempts)
  {
    match op
    case OpenAccount(scope, maxCost) =>
    case Reserve(a) =>
    case MarkDispatched(id, now) =>
      if id in db.attempts {
        RewrittenReservation(db.attempts, id, db.attempts[id].(outcome := Dispatched, dispatchedAt := Some(now)));
      }
    case Succeed(id, c, sha, now) => if HasOutcome(db, id, Dispatched) { SettledReservation(db, op); }
    case Reject(id, c, code, now) => if HasOutcome(db, id, Dispatched) { SettledReservation(db, op); }
    case Fail(id, code, unknown, requestId, now) => FailedReservation(db, id, code, unknown, requestId, now);
    case Reclaim(olderThanMs, now) =>
      ReclaimReaps(db, olderThanMs, now);
      ReapedReservations(db, ReclaimStep(db, olderThanMs, now).0, now);
    case Reconcile(id, reason, evidence, now) => ReconciledReservation(db, id, reason, evidence, now);
  }

  lemma SettledReservation(db: Db, op: Op)
    requires op.Succeed? || op.Reject?
    requires op.id in db.attempts
    ensures op.id in Step(db, op).0.attempts
    ensures Step(db, op).0.attempts[op.id].scope == db.attempts[op.id].scope
    ensures Step(db, op).0.attempts[op.id].reservedCost == db.attempts[op.id].reservedCost
    ensures SameReservations(db.attempts, Step(db, op).0.attempts)
  {
    SettleFrame(db, op);
  }

  lemma ScopeKeysWithout(attempts: map<string, Row>, id: string, scope: string)
    requires id in attempts
    ensures ScopeKeys(attempts, scope) ==
      ScopeKeys(attempts - {id}, scope) + if attempts[id].scope == scope then {attempts[id].key} else {}
  {
    var rest := attempts - {id};
    forall key | key in ScopeKeys(attempts, scope)
      ensures key in ScopeKeys(rest, scope) || (attempts[id].scope == scope && key == attempts[id].key)
    {
      var j :| j in attempts && attempts[j].scope == scope && attempts[j].key == key;
      assert j != id ==> j in rest && rest[j].key == key;
    }
    forall key | key in ScopeKeys(rest, scope) ensures key in ScopeKeys(attempts, scope) {
      var j :| j in rest && rest[j].scope == scope && rest[j].key == key;
      assert j in attempts && attempts[j].key == key;
    }
  }

  predicate KeysDistinct(attempts: map<string, Row>) {
    forall i, j :: i in attempts && j in attempts && attempts[i].key == attempts[j].key ==> i == j
  }

  lemma KeyGoesWithIt(attempts: map<string, Row>, id: string, scope: string)
    requires id in attempts && KeysDistinct(attempts)
    ensures KeysDistinct(attempts - {id}) && attempts[id].key !in ScopeKeys(attempts - {id}, scope)
  {
  }

  lemma InScopeWithout(attempts: map<string, Row>, id: string, scope: string)
    requires id in attempts
    ensures Sum(InScope(attempts, scope)) == Sum(InScope(attempts - {id}, scope)) + if attempts[id].scope == scope then 1 else 0
  {
    SumRemove(InScope(attempts, scope), id);
    assert InScope(attempts, scope) - {id} == InScope(attempts - {id}, scope);
  }

  /** As many attempts as keys. */
  lemma {:induction false} CountIsKeys(attempts: map<string, Row>, scope: string)
    requires KeysDistinct(attempts)
    ensures Sum(InScope(attempts, scope)) == |ScopeKeys(attempts, scope)|
    decreases |attempts|
  {
    if attempts == map[] {
      assert InScope(attempts, scope) == map[];
    } else {
      var id :| id in attempts;
      KeyGoesWithIt(attempts, id, scope);
      CountIsKeys(attempts - {id}, scope);
      InScopeWithout(attempts, id, scope);
      ScopeKeysWithout(attempts, id, scope);
    }
  }

  lemma KeysAreDistinct(db: Db)
    requires Inv(db)
    ensures KeysDistinct(db.attempts)
  {
    forall i, j | i in db.attempts && j in db.attempts && db.attempts[i].key == db.attempts[j].key ensures i == j {
      assert RowInv(db, i) && RowInv(db, j);
    }
  }

  lemma {:induction false} ScopeBounded(ops: seq<Op>, scope: string, r: int)
    requires EachAtMost(ops, scope, r)
    ensures forall id :: id in Run(EmptyDb, ops).attempts && Run(EmptyDb, ops).attempts[id].scope == scope ==>
      Run(EmptyDb, ops).attempts[id].reservedCost <= r && Run(EmptyDb, ops).attempts[id].key in KeysReserved(ops, scope)
  {
    if ops != [] {
      ScopeBounded(Before(ops), scope, r);
      EmptyKept();
      RunKept(EmptyDb, Before(ops));
      ReservationsKept(Run(EmptyDb, Before(ops)), Last(ops));
    }
  }

  lemma {:induction false} RoomForOneMore(count: int, n: nat, r: nat)
    requires count < n
    ensures count * r + r <= n * r
  {
    assert (n - count - 1) * r >= 0;
    assert (n - count - 1) * r == n * r - count * r - r;
  }

  /** reserve() refuses for budget exactly when the key is new and the reservation does not fit. */
  lemma RefusedOnlyWithoutRoom(db: Db, a: NewAttempt)
    requires Inv(db) && a.scope in db.accounts
    ensures ReserveStep(db, a).1 == Refused(BudgetExhausted) <==>
      a.key !in db.byKey &&
      db.accounts[a.scope].maxCost < db.accounts[a.scope].spent + db.accounts[a.scope].reserved + a.reservedCost
  {
    if a.key in db.byKey {
      assert KeyInv(db, a.key);
    }
  }

  /** While a scope holds fewer than n attempts, of at most r each, a cap of n * r funds one more,
      whatever became of the earlier ones and however many calls were replays or refusals. */
  lemma EveryAttemptFundable(ops: seq<Op>, a: NewAttempt, n: nat, r: nat)
    requires var db := Run(EmptyDb, ops);
      && a.scope in db.accounts && n * r <= db.accounts[a.scope].maxCost
      && Sum(InScope(db.attempts, a.scope)) < n
      && forall id :: id in db.attempts && db.attempts[id].scope == a.scope ==> db.attempts[id].reservedCost <= r
    requires a.reservedCost <= r
    ensures Step(Run(EmptyDb, ops), Reserve(a)).1 != Refused(BudgetExhausted)
  {
    var db := Run(EmptyDb, ops);
    EmptyKept();
    RunKept(EmptyDb, ops);
    CommittedBound(db, a.scope, r);
    RoomForOneMore(Sum(InScope(db.attempts, a.scope)), n, r);
    RefusedOnlyWithoutRoom(db, a);
  }

  const CONTRACT_MAX_COST: nat := 5_000_000
  const ATTEMPT_MAX_COST: nat := 500_000
  const MAX_ATTEMPTS: nat := 10

  /** A new key leaves room for itself: the scope's attempts are all under the other keys. */
  lemma FewerAttemptsThanKeys(ops: seq<Op>, a: NewAttempt, r: int)
    requires EachAtMost(ops, a.scope, r) && a.key !in Run(EmptyDb, ops).byKey
    ensures Sum(InScope(Run(EmptyDb, ops).attempts, a.scope)) < |KeysReserved(ops, a.scope) + {a.key}|
  {
    var db := Run(EmptyDb, ops);
    EmptyKept();
    RunKept(EmptyDb, ops);
    ScopeBounded(ops, a.scope, r);
    KeysAreDistinct(db);
    CountIsKeys(db.attempts, a.scope);
    var keys := ScopeKeys(db.attempts, a.scope);
    forall id | id in db.attempts ensures db.attempts[id].key != a.key {
      assert RowInv(db, id);
    }
    FewerMembers(keys, KeysReserved(ops, a.scope) + {a.key}, a.key);
  }

  lemma FewerMembers(some: set<string>, all: set<string>, other: string)
    requires some <= all && other in all && other !in some
    ensures |some| < |all|
  {
    SubsetSize(some, all - {other});
  }

  lemma {:induction false} SubsetSize(some: set<string>, all: set<string>)
    requires some <= all
    ensures |some| <= |all|
    decreases |some|
  {
    if some != {} {
      var x :| x in some;
      SubsetSize(some - {x}, all - {x});
    }
  }

  /** The generation task's own numbers: as long as it uses at most ten keys, this one included, no
      reservation is refused for budget, however often any of them was delivered, refused or replayed. */
  lemma GenerationTaskFunded(ops: seq<Op>, a: NewAttempt)
    requires EachAtMost(ops, a.scope, ATTEMPT_MAX_COST) && a.reservedCost <= ATTEMPT_MAX_COST
    requires |KeysReserved(ops, a.scope) + {a.key}| <= MAX_ATTEMPTS
    requires a.scope in Run(EmptyDb, ops).accounts
    requires Run(EmptyDb, ops).accounts[a.scope].maxCost == CONTRACT_MAX_COST
    ensures Step(Run(EmptyDb, ops), Reserve(a)).1 != Refused(BudgetExhausted)
  {
    if a.key in Run(EmptyDb, ops).byKey {
      EmptyKept();
      RunKept(EmptyDb, ops);
      RefusedOnlyWithoutRoom(Run(EmptyDb, ops), a);
    } else {
      ScopeBounded(ops, a.scope, ATTEMPT_MAX_COST);
      FewerAttemptsThanKeys(ops, a, ATTEMPT_MAX_COST);
      EveryAttemptFundable(ops, a, MAX_ATTEMPTS, ATTEMPT_MAX_COST);
    }
  }

  // ---- Itemised usage ------------------------------------------------------------------------

  /** What a usage event counts. */
  datatype Counter = Input | Output | Reasoning | CacheRead | CacheWrite | Cost

  function Tally(k: Counter, u: Usage): int {
    match k
    case Input => u.inputTokens
    case Output => u.outputTokens
    case Reasoning => u.reasoningTokens
    case CacheRead => u.cacheReadTokens
    case CacheWrite => u.cacheWriteTokens
    case Cost => u.costUsdMicros
  }

  function SliceCount(k: Counter, slices: seq<Slice>): int {
    if slices == [] then 0 else Tally(k, slices[0].usage) + SliceCount(k, slices[1..])
  }

  function EventCounts(k: Counter, db: Db, id: string): map<(string, string), int> {
    map at | at in db.usage && at.0 == id :: Tally(k, db.usage[at])
  }

  /** SUM() over the usage events of an attempt. */
  ghost function EventTotal(k: Counter, db: Db, id: string): int {
    Sum(EventCounts(k, db, id))
  }

  function SliceCost(slices: seq<Slice>): int {
    SliceCount(Cost, slices)
  }

  /** What the usage events say an attempt cost. */
  ghost function Itemised(db: Db, id: string): int {
    EventTotal(Cost, db, id)
  }

  lemma {:induction false} InsertUsageItemises(k: Counter, db: Db, id: string, slices: seq<Slice>)
    requires InsertUsage(db, id, slices).Ok?
    ensures EventTotal(k, InsertUsage(db, id, slices).value, id) == EventTotal(k, db, id) + SliceCount(k, slices)
    decreases |slices|
  {
    if slices != [] {
      var at := (id, slices[0].resolvedModelId);
      var more := db.(usage := db.usage[at := slices[0].usage]);
      InsertUsageItemises(k, more, id, slices[1..]);
      assert EventCounts(k, more, id) == EventCounts(k, db, id)[at := Tally(k, slices[0].usage)];
      SumUpdate(EventCounts(k, db, id), at, Tally(k, slices[0].usage));
    }
  }

  /** The usage events of an attempt just settled are the slices of its completion. */
  lemma SettledTotals(k: Counter, db: Db, op: Op)
    requires Inv(db) && (op.Succeed? || op.Reject?)
    requires Step(db, op).1.Accepted?
    ensures EventTotal(k, Step(db, op).0, op.id) == SliceCount(k, op.completion.modelUsage)
  {
    assert RowInv(db, op.id);
    var paid := Charge(db, op.id, op.completion.usage.costUsdMicros).value;
    InsertUsageItemises(k, paid, op.id, op.completion.modelUsage);
    assert EventCounts(k, paid, op.id) == map[];
    assert EventCounts(k, Step(db, op).0, op.id) ==
      EventCounts(k, InsertUsage(paid, op.id, op.completion.modelUsage).value, op.id);
  }

  /** The usage events of a settled attempt add up to what its account was charged if and only if
      the completion's per-model costs add up to its total: the ledger itself never compares them. */
  lemma ItemisedIffAccounted(db: Db, op: Op)
    requires Inv(db) && (op.Succeed? || op.Reject?)
    requires Step(db, op).1.Accepted?
    ensures var next := Step(db, op).0;
      && op.id in next.charged
      && next.charged[op.id] == op.completion.usage.costUsdMicros
      && (Itemised(next, op.id) == next.charged[op.id] <==>
          SliceCost(op.completion.modelUsage) == op.completion.usage.costUsdMicros)
  {
    assert RowInv(db, op.id);
    var paid := Charge(db, op.id, op.completion.usage.costUsdMicros).value;
    InsertUsageFrame(paid, op.id, op.completion.modelUsage);
    SettledTotals(Cost, db, op);
  }
}
