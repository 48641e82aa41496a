/** The AI budget ledger as a state machine: one transition per SQL transaction. */
module Ledger {
  import opened Common
  import opened Routes
  import opened Sums

  datatype Outcome = Reserved | Dispatched | Succeeded | Failed | OutcomeUnknown

  datatype Usage = Usage(
    inputTokens: int,
    outputTokens: int,
    reasoningTokens: int,
    cacheReadTokens: int,
    cacheWriteTokens: int,
    costUsdMicros: int)

  datatype Slice = Slice(resolvedModelId: string, usage: Usage)

  datatype Resolution = ProviderResponse | PinnedRequest

  datatype Completion = Completion(
    providerRequestId: string,
    resolvedModelId: string,
    resolutionSource: Resolution,
    content: string,
    usage: Usage,
    modelUsage: seq<Slice>)

  /** The part of a GatewayAttempt a caller hands to reserve(). */
  datatype NewAttempt = NewAttempt(
    id: string,
    key: string,
    requestHash: string,
    route: Route,
    scope: string,
    reservedCost: int)

  /** A row of ai_gateway_attempts. */
  datatype Row = Row(
    key: string,
    requestHash: string,
    route: Route,
    scope: string,
    reservedCost: int,
    outcome: Outcome,
    providerRequestId: Option<string>,
    resolvedModelId: Option<string>,
    resolutionSource: Option<Resolution>,
    outputSha256: Option<string>,
    failureCode: Option<string>,
    dispatchedAt: Option<int>,
    finalizedAt: Option<int>)

  /** A row of ai_budget_accounts. */
  datatype Account = Account(maxCost: int, spent: int, reserved: int)

  /** The ledger's tables. `byKey` is the UNIQUE index on idempotency_key. `charged` is history
      no table holds: the cost charge() moved to the account for each attempt. */
  datatype Db = Db(
    accounts: map<string, Account>,
    attempts: map<string, Row>,
    byKey: map<string, string>,
    usage: map<(string, string), Usage>,
    reconciliations: map<string, string>,
    charged: map<string, int>)

  datatype LedgerError =
    | IntentMismatch
    | BudgetExhausted
    | CannotDispatch
    | CannotSucceed
    | CannotReject
    | AlreadyFinalized
    | CostExceedsReservation
    | ReservationMissing
    | InvalidHorizon
    | NotUnknown
    | UnknownAttempt    // only the in-memory ledger tells a missing row apart
    | InvalidEvidence
    | ExternalReconciliation
    | DuplicateRow      // a PRIMARY KEY constraint of the schema
    | CheckViolation    // a CHECK constraint of the schema

  datatype Reply =
    | Accepted(row: Row)
    | Replayed(row: Row)
    | Dispatch
    | Reclaimed(ids: set<string>)
    | Opened
    | Refused(error: LedgerError)

  datatype Op =
    | OpenAccount(scope: string, maxCost: int)
    | Reserve(attempt: NewAttempt)
    | MarkDispatched(id: string, now: int)
    | Succeed(id: string, completion: Completion, sha: string, now: int)
    | Reject(id: string, completion: Completion, code: string, now: int)
    | Fail(id: string, code: string, unknown: bool, requestId: Option<string>, now: int)
    | Reclaim(olderThanMs: int, now: int)
    | Reconcile(id: string, reason: string, evidence: string, now: int)

  const MINIMUM_HORIZON_MS := 60_000
  const CODE_LIMIT: nat := 500
  const STRANDED_ATTEMPT_CODE := "attempt_stranded_no_verdict"

  const EmptyDb := Db(map[], map[], map[], map[], map[], map[])

  /** CHECK constraints of ai_budget_accounts. */
  predicate AccountChecks(a: Account) {
    0 <= a.maxCost && 0 <= a.spent && 0 <= a.reserved && a.spent + a.reserved <= a.maxCost
  }

  /** CHECK constraints of ai_usage_events. */
  predicate UsageChecks(u: Usage) {
    && 0 <= u.inputTokens && 0 <= u.outputTokens && 0 <= u.reasoningTokens
    && 0 <= u.cacheReadTokens && 0 <= u.cacheWriteTokens && 0 <= u.costUsdMicros
  }

  /** CHECK constraints of ai_gateway_attempts. */
  predicate RowChecks(r: Row) {
    && 0 <= r.reservedCost
    && (r.outcome.Succeeded? <==>
        r.providerRequestId.Some? && r.resolvedModelId.Some? && r.resolutionSource.Some? && r.outputSha256.Some?)
  }

  predicate HexDigit(c: char) {
    'a' <= c <= 'f' || '0' <= c <= '9'
  }

  /** /^[a-f0-9]{64}$/ */
  predicate Sha256Text(s: string) {
    |s| == 64 && forall i :: 0 <= i < |s| ==> HexDigit(s[i])
  }

  function NewRow(a: NewAttempt): Row {
    Row(a.key, a.requestHash, a.route, a.scope, a.reservedCost, Reserved,
        None, None, None, None, None, None, None)
  }

  function SucceededRow(r: Row, c: Completion, sha: string, now: int): Row {
    r.(outcome := Succeeded, providerRequestId := Some(c.providerRequestId),
       resolvedModelId := Some(c.resolvedModelId), resolutionSource := Some(c.resolutionSource),
       outputSha256 := Some(sha), finalizedAt := Some(now))
  }

  function RejectedRow(r: Row, c: Completion, code: string, now: int): Row {
    r.(outcome := Failed, providerRequestId := Some(c.providerRequestId),
       resolvedModelId := Some(c.resolvedModelId), resolutionSource := Some(c.resolutionSource),
       failureCode := Some(Truncate(code, CODE_LIMIT)), finalizedAt := Some(now))
  }

  function FailedRow(r: Row, code: string, unknown: bool, requestId: Option<string>, now: int): Row {
    r.(outcome := if unknown then OutcomeUnknown else Failed,
       failureCode := Some(Truncate(code, CODE_LIMIT)),
       providerRequestId := requestId, finalizedAt := Some(now))
  }

  function StrandedRow(r: Row, now: int): Row {
    r.(outcome := OutcomeUnknown, failureCode := Some(STRANDED_ATTEMPT_CODE), finalizedAt := Some(now))
  }

  function ReconciledRow(r: Row, reason: string, now: int): Row {
    r.(outcome := Failed, failureCode := Some(Truncate(reason, CODE_LIMIT)), finalizedAt := Some(now))
  }

  function HasOutcome(db: Db, id: string, o: Outcome): bool {
    id in db.attempts && db.attempts[id].outcome == o
  }

  /** One UPDATE of an account followed by its CHECK constraints. */
  function SetAccount(db: Db, scope: string, a: Account): Result<Db, LedgerError> {
    if AccountChecks(a) then Ok(db.(accounts := db.accounts[scope := a])) else Err(CheckViolation)
  }

  function SetRow(db: Db, id: string, r: Row): Result<Db, LedgerError> {
    if RowChecks(r) then Ok(db.(attempts := db.attempts[id := r])) else Err(CheckViolation)
  }

  function ReserveStep(db: Db, a: NewAttempt): (Db, Reply) {
    if a.key in db.byKey && db.byKey[a.key] in db.attempts then
      var row := db.attempts[db.byKey[a.key]];
      (db, if row.requestHash == a.requestHash then Replayed(row) else Refused(IntentMismatch))
    else if a.scope !in db.accounts
         || db.accounts[a.scope].maxCost < db.accounts[a.scope].spent + db.accounts[a.scope].reserved + a.reservedCost then
      (db, Refused(BudgetExhausted))
    else
      var account := db.accounts[a.scope];
      match SetAccount(db, a.scope, account.(reserved := account.reserved + a.reservedCost))
      case Err(e) => (db, Refused(e))
      case Ok(paid) =>
        if a.id in db.attempts then (db, Refused(DuplicateRow))
        else
          match SetRow(paid, a.id, NewRow(a))
          case Err(e) => (db, Refused(e))
          case Ok(next) => (next.(byKey := db.byKey[a.key := a.id]), Accepted(NewRow(a)))
  }

  /** charge(): moves an attempt's whole reservation out and its actual cost into spent. */
  function Charge(db: Db, id: string, cost: int): Result<Db, LedgerError>
    requires id in db.attempts
  {
    var row := db.attempts[id];
    if row.reservedCost < cost then Err(CostExceedsReservation)
    else if row.scope !in db.accounts || db.accounts[row.scope].reserved < row.reservedCost then
      Err(ReservationMissing)
    else
      var a := db.accounts[row.scope];
      match SetAccount(db, row.scope, a.(reserved := a.reserved - row.reservedCost, spent := a.spent + cost))
      case Err(e) => Err(e)
      case Ok(next) => Ok(next.(charged := next.charged[id := cost]))
  }

  /** The INSERTs into ai_usage_events, in order, stopping at the first constraint violation. */
  function InsertUsage(db: Db, id: string, slices: seq<Slice>): (r: Result<Db, LedgerError>)
    ensures r.Err? ==> r.error == DuplicateRow || r.error == CheckViolation
    decreases |slices|
  {
    if slices == [] then Ok(db)
    else
      var at := (id, slices[0].resolvedModelId);
      if at in db.usage then Err(DuplicateRow)
      else if !UsageChecks(slices[0].usage) then Err(CheckViolation)
      else InsertUsage(db.(usage := db.usage[at := slices[0].usage]), id, slices[1..])
  }

  function SettleStep(db: Db, id: string, c: Completion, verdict: Row): (Db, Reply)
    requires id in db.attempts
  {
    match Charge(db, id, c.usage.costUsdMicros)
    case Err(e) => (db, Refused(e))
    case Ok(paid) =>
      match InsertUsage(paid, id, c.modelUsage)
      case Err(e) => (db, Refused(e))
      case Ok(recorded) =>
        match SetRow(recorded, id, verdict)
        case Err(e) => (db, Refused(e))
        case Ok(next) => (next, Accepted(verdict))
  }

  function FailStep(db: Db, id: string, code: string, unknown: bool, requestId: Option<string>, now: int): (Db, Reply) {
    if !HasOutcome(db, id, Reserved) && !HasOutcome(db, id, Dispatched) then (db, Refused(AlreadyFinalized))
    else
      var row := db.attempts[id];
      var released :=
        if unknown || row.scope !in db.accounts then Ok(db)
        else
          var a := db.accounts[row.scope];
          SetAccount(db, row.scope, a.(reserved := a.reserved - row.reservedCost));
      match released
      case Err(e) => (db, Refused(e))
      case Ok(freed) =>
        var next := FailedRow(row, code, unknown, requestId, now);
        match SetRow(freed, id, next)
        case Err(e) => (db, Refused(e))
        case Ok(done) => (done, Accepted(next))
  }

  predicate Stranded(r: Row, olderThanMs: int, now: int) {
    r.outcome.Dispatched? && r.dispatchedAt.Some? && r.dispatchedAt.value <= now - olderThanMs
  }

  function ReclaimStep(db: Db, olderThanMs: int, now: int): (Db, Reply) {
    if !SafeInteger(olderThanMs) || olderThanMs < MINIMUM_HORIZON_MS then (db, Refused(InvalidHorizon))
    else
      var ids := set id | id in db.attempts && Stranded(db.attempts[id], olderThanMs, now);
      (db.(attempts := map id | id in db.attempts ::
             if id in ids then StrandedRow(db.attempts[id], now) else db.attempts[id]),
       Reclaimed(ids))
  }

  function ReconcileStep(db: Db, id: string, reason: string, evidence: string, now: int): (Db, Reply) {
    if !HasOutcome(db, id, OutcomeUnknown) then (db, Refused(NotUnknown))
    else if !Sha256Text(evidence) then (db, Refused(InvalidEvidence))
    else if db.attempts[id].providerRequestId.Some? then (db, Refused(ExternalReconciliation))
    else
      var row := db.attempts[id];
      // The guarded UPDATE: its row count is not checked, so a failed guard changes nothing.
      var released :=
        if row.scope in db.accounts && row.reservedCost <= db.accounts[row.scope].reserved then
          var a := db.accounts[row.scope];
          SetAccount(db, row.scope, a.(reserved := a.reserved - row.reservedCost))
        else Ok(db);
      match released
      case Err(e) => (db, Refused(e))
      case Ok(freed) =>
        match SetRow(freed, id, ReconciledRow(row, reason, now))
        case Err(e) => (db, Refused(e))
        case Ok(settled) =>
          if id in db.reconciliations then (db, Refused(DuplicateRow))
          else
            (settled.(reconciliations := db.reconciliations[id := evidence]),
             Accepted(ReconciledRow(row, reason, now)))
  }

  function OpenStep(db: Db, scope: string, maxCost: int): (Db, Reply) {
    if maxCost < 0 then (db, Refused(CheckViolation))
    else if scope in db.accounts then (db, Opened)
    else (db.(accounts := db.accounts[scope := Account(maxCost, 0, 0)]), Opened)
  }

  /** One committed or rolled-back transaction. */
  function Step(db: Db, op: Op): (Db, Reply) {
    match op
    case OpenAccount(scope, maxCost) => OpenStep(db, scope, maxCost)
    case Reserve(a) => ReserveStep(db, a)
    case MarkDispatched(id, now) =>
      if HasOutcome(db, id, Reserved) then
        (db.(attempts := db.attempts[id := db.attempts[id].(outcome := Dispatched, dispatchedAt := Some(now))]), Dispatch)
      else (db, Refused(CannotDispatch))
    case Succeed(id, c, sha, now) =>
      if HasOutcome(db, id, Dispatched) then SettleStep(db, id, c, SucceededRow(db.attempts[id], c, sha, now))
      else (db, Refused(CannotSucceed))
    case Reject(id, c, code, now) =>
      if HasOutcome(db, id, Dispatched) then SettleStep(db, id, c, RejectedRow(db.attempts[id], c, code, now))
      else (db, Refused(CannotReject))
    case Fail(id, code, unknown, requestId, now) => FailStep(db, id, code, unknown, requestId, now)
    case Reclaim(olderThanMs, now) => ReclaimStep(db, olderThanMs, now)
    case Reconcile(id, reason, evidence, now) => ReconcileStep(db, id, reason, evidence, now)
  }

  /** Any interleaving of the gateway, the reaper and the reconciler is one such sequence. */
  function Run(db: Db, ops: seq<Op>): Db {
    if ops == [] then db else Step(Run(db, ops[..|ops| - 1]), ops[|ops| - 1]).0
  }
}
