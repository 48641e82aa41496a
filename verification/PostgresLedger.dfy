/** The ledger's transactions as they run: statement by statement, with rollback on any error. */
module PostgresLedger {
  import opened Common
  import opened Ledger
  import LedgerSafety

  class AttemptLedger {
    var accounts: map<string, Account>
    var attempts: map<string, Row>
    var byKey: map<string, string>
    var usage: map<(string, string), Usage>
    var reconciliations: map<string, string>
    ghost var charged: map<string, int>

    ghost function State(): Db
      reads this
    {
      Db(accounts, attempts, byKey, usage, reconciliations, charged)
    }

    ghost predicate Valid()
      reads this
    {
      LedgerSafety.Inv(State())
    }

    constructor ()
      ensures Valid() && State() == EmptyDb
    {
      accounts, attempts, byKey, usage, reconciliations, charged := map[], map[], map[], map[], map[], map[];
    }

    /** UPDATE ai_budget_accounts of one row; None when a CHECK constraint rejects it. */
    method WriteAccount(scope: string, a: Account) returns (error: Option<LedgerError>)
      modifies this`accounts
      ensures match SetAccount(old(State()), scope, a)
        case Ok(next) => error == None && State() == next
        case Err(e) => error == Some(e) && State() == old(State())
    {
      if !AccountChecks(a) {
        return Some(CheckViolation);
      }
      accounts := accounts[scope := a];
      error := None;
    }

    /** INSERT or UPDATE of one ai_gateway_attempts row under its CHECK constraints. */
    method WriteRow(id: string, r: Row) returns (error: Option<LedgerError>)
      modifies this`attempts
      ensures match SetRow(old(State()), id, r)
        case Ok(next) => error == None && State() == next
        case Err(e) => error == Some(e) && State() == old(State())
    {
      if !RowChecks(r) {
        return Some(CheckViolation);
      }
      attempts := attempts[id := r];
      error := None;
    }

    method Open(scope: string, maxCost: int) returns (reply: Reply)
      requires Valid()
      modifies this
      ensures Valid()
      ensures (State(), reply) == Step(old(State()), OpenAccount(scope, maxCost))
    {
      LedgerSafety.StepKept(State(), OpenAccount(scope, maxCost));
      if maxCost < 0 {
        return Refused(CheckViolation);
      }
      if scope !in accounts {
        accounts := accounts[scope := Account(maxCost, 0, 0)];
      }
      reply := Opened;
    }

    method Reserve(a: NewAttempt) returns (reply: Reply)
      requires Valid()
      modifies this
      ensures Valid()
      ensures (State(), reply) == Step(old(State()), Ledger.Reserve(a))
      ensures reply.Refused? ==> State() == old(State())
    {
      LedgerSafety.StepKept(State(), Ledger.Reserve(a));
      if a.key in byKey {
        assert LedgerSafety.KeyInv(State(), a.key);
        var existing := attempts[byKey[a.key]];
        if existing.requestHash != a.requestHash {
          return Refused(IntentMismatch);
        }
        return Replayed(existing);
      }
      reply := Create(a);
    }

    /** The rest of the transaction, once no attempt has the key. */
    method Create(a: NewAttempt) returns (reply: Reply)
      requires a.key !in byKey
      modifies this
      ensures (State(), reply) == Step(old(State()), Ledger.Reserve(a))
      ensures reply.Refused? ==> State() == old(State())
    {
      var begin := accounts;
      if a.scope !in accounts {
        return Refused(BudgetExhausted);
      }
      var account := accounts[a.scope];
      if account.maxCost < account.spent + account.reserved + a.reservedCost {
        return Refused(BudgetExhausted);
      }
      var error := WriteAccount(a.scope, account.(reserved := account.reserved + a.reservedCost));
      if error == None && a.id in attempts {
        error := Some(DuplicateRow);
      }
      if error == None {
        error := WriteRow(a.id, NewRow(a));
      }
      if error != None {
        accounts := begin;
        return Refused(error.value);
      }
      byKey := byKey[a.key := a.id];
      reply := Accepted(NewRow(a));
    }

    method MarkDispatched(id: string, now: int) returns (reply: Reply)
      requires Valid()
      modifies this`attempts
      ensures Valid()
      ensures (State(), reply) == Step(old(State()), Ledger.MarkDispatched(id, now))
    {
      LedgerSafety.StepKept(State(), Ledger.MarkDispatched(id, now));
      if id !in attempts || attempts[id].outcome != Reserved {
        return Refused(CannotDispatch);
      }
      attempts := attempts[id := attempts[id].(outcome := Dispatched, dispatchedAt := Some(now))];
      reply := Dispatch;
    }

    /** charge(): refuses an over-cost completion, then moves the reservation under a guard. */
    method ChargeAccount(id: string, cost: int) returns (error: Option<LedgerError>)
      requires id in attempts
      modifies this`accounts, this`charged
      ensures match Charge(old(State()), id, cost)
        case Ok(next) => error == None && State() == next
        case Err(e) => error == Some(e) && State() == old(State())
    {
      var row := attempts[id];
      if row.reservedCost < cost {
        return Some(CostExceedsReservation);
      }
      if row.scope !in accounts || accounts[row.scope].reserved < row.reservedCost {
        return Some(ReservationMissing);
      }
      var a := accounts[row.scope];
      error := WriteAccount(row.scope, a.(reserved := a.reserved - row.reservedCost, spent := a.spent + cost));
      if error == None {
        charged := charged[id := cost];
      }
    }

    method RecordUsage(id: string, slices: seq<Slice>) returns (error: Option<LedgerError>)
      modifies this`usage
      ensures match InsertUsage(old(State()), id, slices)
        case Ok(next) => error == None && State() == next
        case Err(e) => error == Some(e)
    {
      for i := 0 to |slices|
        invariant InsertUsage(State(), id, slices[i..]) == InsertUsage(old(State()), id, slices)
      {
        var at := (id, slices[i].resolvedModelId);
        assert slices[i..][1..] == slices[i + 1..];
        if at in usage {
          return Some(DuplicateRow);
        }
        if !UsageChecks(slices[i].usage) {
          return Some(CheckViolation);
        }
        usage := usage[at := slices[i].usage];
      }
      error := None;
    }

    /** The common body of succeed() and reject(): charge, itemise, write the verdict, or roll back. */
    method Settle(id: string, c: Completion, verdict: Row) returns (reply: Reply)
      requires id in attempts
      modifies this
      ensures (State(), reply) == SettleStep(old(State()), id, c, verdict)
    {
      var begin := (accounts, attempts, usage);
      ghost var history := charged;
      var error := ChargeAccount(id, c.usage.costUsdMicros);
      if error == None {
        error := RecordUsage(id, c.modelUsage);
      }
      if error == None {
        error := WriteRow(id, verdict);
      }
      if error != None {
        accounts, attempts, usage := begin.0, begin.1, begin.2;
        charged := history;
        return Refused(error.value);
      }
      reply := Accepted(verdict);
    }

    method Succeed(id: string, c: Completion, sha: string, now: int) returns (reply: Reply)
      requires Valid()
      modifies this
      ensures Valid()
      ensures (State(), reply) == Step(old(State()), Ledger.Succeed(id, c, sha, now))
    {
      LedgerSafety.StepKept(State(), Ledger.Succeed(id, c, sha, now));
      if id !in attempts || attempts[id].outcome != Dispatched {
        return Refused(CannotSucceed);
      }
      reply := Settle(id, c, SucceededRow(attempts[id], c, sha, now));
    }

    method Reject(id: string, c: Completion, code: string, now: int) returns (reply: Reply)
      requires Valid()
      modifies this
      ensures Valid()
      ensures (State(), reply) == Step(old(State()), Ledger.Reject(id, c, code, now))
    {
      LedgerSafety.StepKept(State(), Ledger.Reject(id, c, code, now));
      if id !in attempts || attempts[id].outcome != Dispatched {
        return Refused(CannotReject);
      }
      reply := Settle(id, c, RejectedRow(attempts[id], c, code, now));
    }

    method Fail(id: string, code: string, unknown: bool, requestId: Option<string>, now: int) returns (reply: Reply)
      requires Valid()
      modifies this
      ensures Valid()
      ensures (State(), reply) == Step(old(State()), Ledger.Fail(id, code, unknown, requestId, now))
    {
      LedgerSafety.StepKept(State(), Ledger.Fail(id, code, unknown, requestId, now));
      if id !in attempts || (attempts[id].outcome != Reserved && attempts[id].outcome != Dispatched) {
        return Refused(AlreadyFinalized);
      }
      var row := attempts[id];
      var begin := accounts;
      var error: Option<LedgerError> := None;
      if !unknown && row.scope in accounts {
        var a := accounts[row.scope];
        error := WriteAccount(row.scope, a.(reserved := a.reserved - row.reservedCost));
      }
      if error == None {
        error := WriteRow(id, FailedRow(row, code, unknown, requestId, now));
      }
      if error != None {
        accounts := begin;
        return Refused(error.value);
      }
      reply := Accepted(FailedRow(row, code, unknown, requestId, now));
    }

    method ReclaimStranded(olderThanMs: int, now: int) returns (reply: Reply)
      requires Valid()
      modifies this`attempts
      ensures Valid()
      ensures (State(), reply) == Step(old(State()), Reclaim(olderThanMs, now))
    {
      LedgerSafety.StepKept(State(), Reclaim(olderThanMs, now));
      if !SafeInteger(olderThanMs) || olderThanMs < MINIMUM_HORIZON_MS {
        return Refused(InvalidHorizon);
      }
      var ids := set id | id in attempts && Stranded(attempts[id], olderThanMs, now);
      attempts := map id | id in attempts :: if id in ids then StrandedRow(attempts[id], now) else attempts[id];
      reply := Reclaimed(ids);
    }

    method ReconcileUnknownAsFailed(id: string, reason: string, evidence: string, now: int) returns (reply: Reply)
      requires Valid()
      modifies this
      ensures Valid()
      ensures (State(), reply) == Step(old(State()), Reconcile(id, reason, evidence, now))
    {
      LedgerSafety.StepKept(State(), Reconcile(id, reason, evidence, now));
      reply := WriteOff(id, reason, evidence, now);
    }

    /** The transaction of reconcileUnknownAsFailed(). The guarded UPDATE's row count is not read. */
    method WriteOff(id: string, reason: string, evidence: string, now: int) returns (reply: Reply)
      modifies this
      ensures (State(), reply) == ReconcileStep(old(State()), id, reason, evidence, now)
    {
      if id !in attempts || attempts[id].outcome != OutcomeUnknown {
        return Refused(NotUnknown);
      }
      if !Sha256Text(evidence) {
        return Refused(InvalidEvidence);
      }
      var row := attempts[id];
      if row.providerRequestId.Some? {
        return Refused(ExternalReconciliation);
      }
      var begin := (accounts, attempts);
      var error: Option<LedgerError> := None;
      if row.scope in accounts && row.reservedCost <= accounts[row.scope].reserved {
        var a := accounts[row.scope];
        error := WriteAccount(row.scope, a.(reserved := a.reserved - row.reservedCost));
      }
      if error == None {
        error := WriteRow(id, ReconciledRow(row, reason, now));
      }
      if error == None && id in reconciliations {
        error := Some(DuplicateRow);
      }
      if error != None {
        accounts, attempts := begin.0, begin.1;
        return Refused(error.value);
      }
      reconciliations := reconciliations[id := evidence];
      reply := Accepted(ReconciledRow(row, reason, now));
    }
  }
}
