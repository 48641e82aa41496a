/** What every run of the ledger keeps: conservation of money, and settled rows stay settled. */
module LedgerSafety {
  import opened Common
  import opened Sums
  import opened Ledger

  predicate Held(o: Outcome) {
    o.Reserved? || o.Dispatched? || o.OutcomeUnknown?
  }

  function HeldCost(r: Row, scope: string): int {
    if r.scope == scope && Held(r.outcome) then r.reservedCost else 0
  }

  function ChargedCost(r: Row, charged: map<string, int>, id: string, scope: string): int {
    if r.scope == scope && id in charged then charged[id] else 0
  }

  function HeldWeights(attempts: map<string, Row>, scope: string): map<string, int> {
    map id | id in attempts :: HeldCost(attempts[id], scope)
  }

  function ChargedWeights(attempts: map<string, Row>, charged: map<string, int>, scope: string): map<string, int> {
    map id | id in attempts :: ChargedCost(attempts[id], charged, id, scope)
  }

  /** What a scope has reserved: the reservations of its reserved, dispatched and unknown attempts. */
  ghost function HeldTotal(db: Db, scope: string): int {
    Sum(HeldWeights(db.attempts, scope))
  }

  /** What a scope has spent: the costs charged to its attempts. */
  ghost function ChargedTotal(db: Db, scope: string): int {
    Sum(ChargedWeights(db.attempts, db.charged, scope))
  }

  ghost predicate AccountInv(db: Db, scope: string)
    requires scope in db.accounts
  {
    && AccountChecks(db.accounts[scope])
    && db.accounts[scope].reserved == HeldTotal(db, scope)
    && db.accounts[scope].spent == ChargedTotal(db, scope)
  }

  predicate RowInv(db: Db, id: string)
    requires id in db.attempts
  {
    var r := db.attempts[id];
    && r.scope in db.accounts
    && RowChecks(r)
    && r.key in db.byKey && db.byKey[r.key] == id
    && (r.outputSha256.Some? ==> r.outcome.Succeeded?)
    && ((r.outcome.Reserved? || r.outcome.Dispatched?) ==> r.providerRequestId.None?)
    && (r.outcome.Dispatched? ==> r.dispatchedAt.Some?)
    && (r.finalizedAt.Some? <==> !r.outcome.Reserved? && !r.outcome.Dispatched?)
    && (Held(r.outcome) ==> id !in db.charged && id !in db.reconciliations)
    && (r.outcome.Succeeded? ==> id in db.charged)
    && (id in db.charged ==> db.charged[id] <= r.reservedCost)
    && (id in db.reconciliations ==> id !in db.charged && r.outcome.Failed?)
  }

  predicate KeyInv(db: Db, key: string)
    requires key in db.byKey
  {
    db.byKey[key] in db.attempts && db.attempts[db.byKey[key]].key == key
  }

  ghost predicate Inv(db: Db) {
    && (forall s {:trigger AccountInv(db, s)} :: s in db.accounts ==> AccountInv(db, s))
    && (forall id {:trigger RowInv(db, id)} :: id in db.attempts ==> RowInv(db, id))
    && (forall k {:trigger KeyInv(db, k)} :: k in db.byKey ==> KeyInv(db, k))
    && (forall at :: at in db.usage ==> at.0 in db.charged)
    && db.charged.Keys <= db.attempts.Keys
    && db.reconciliations.Keys <= db.attempts.Keys
  }

  /** How one row write moves a scope's held total. */
  lemma HeldMove(attempts: map<string, Row>, id: string, r: Row, s: string)
    ensures Sum(HeldWeights(attempts[id := r], s)) ==
      Sum(HeldWeights(attempts, s)) + HeldCost(r, s) - (if id in attempts then HeldCost(attempts[id], s) else 0)
  {
    assert HeldWeights(attempts[id := r], s) == HeldWeights(attempts, s)[id := HeldCost(r, s)];
    SumUpdate(HeldWeights(attempts, s), id, HeldCost(r, s));
  }

  /** How one row write, with the charges after it, moves a scope's charged total. */
  lemma ChargedMove(attempts: map<string, Row>, charged: map<string, int>, next: map<string, int>, id: string, r: Row, s: string)
    requires forall j :: j != id && j in attempts ==> (j in charged <==> j in next) && (j in charged ==> charged[j] == next[j])
    ensures Sum(ChargedWeights(attempts[id := r], next, s)) ==
      Sum(ChargedWeights(attempts, charged, s)) + ChargedCost(r, next, id, s)
      - (if id in attempts then ChargedCost(attempts[id], charged, id, s) else 0)
  {
    assert ChargedWeights(attempts[id := r], next, s) == ChargedWeights(attempts, charged, s)[id := ChargedCost(r, next, id, s)];
    SumUpdate(ChargedWeights(attempts, charged, s), id, ChargedCost(r, next, id, s));
  }

  lemma HeldMember(attempts: map<string, Row>, id: string)
    requires forall j :: j in attempts ==> 0 <= attempts[j].reservedCost
    requires id in attempts && Held(attempts[id].outcome)
    ensures attempts[id].reservedCost <= Sum(HeldWeights(attempts, attempts[id].scope))
  {
    MemberAtMostSum(HeldWeights(attempts, attempts[id].scope), id);
  }

  /** An account always covers each reservation it still holds: why fail() may decrement without a
      guard, and why the guard of reconcileUnknownAsFailed() always matches its row. */
  lemma ReservationCovered(db: Db, id: string)
    requires Inv(db) && id in db.attempts && Held(db.attempts[id].outcome)
    ensures db.attempts[id].scope in db.accounts
    ensures 0 <= db.attempts[id].reservedCost <= db.accounts[db.attempts[id].scope].reserved
  {
    assert RowInv(db, id);
    assert AccountInv(db, db.attempts[id].scope);
    forall j | j in db.attempts ensures 0 <= db.attempts[j].reservedCost {
      assert RowInv(db, j);
    }
    HeldMember(db.attempts, id);
  }

  /** What a transaction on attempt `id` may change: its row, its scope's account and its charge. */
  ghost predicate OneRow(db: Db, next: Db, id: string, r: Row) {
    && next.attempts == db.attempts[id := r] && next.byKey == db.byKey[r.key := id]
    && (id in db.attempts ==> db.attempts[id].scope == r.scope && db.attempts[id].key == r.key)
    && (id !in db.attempts ==> r.key !in db.byKey)
    && r.scope in db.accounts && r.scope in next.accounts
    && next.accounts == db.accounts[r.scope := next.accounts[r.scope]]
    && (next.charged == db.charged || (id in next.charged && next.charged == db.charged[id := next.charged[id]]))
    && (next.reconciliations == db.reconciliations
        || (id in next.reconciliations && next.reconciliations == db.reconciliations[id := next.reconciliations[id]]))
  }

  /** The account moves by exactly what the row's hold and charge move. */
  predicate Balanced(db: Db, next: Db, id: string, r: Row)
    requires r.scope in db.accounts && r.scope in next.accounts
  {
    && AccountChecks(next.accounts[r.scope])
    && next.accounts[r.scope].reserved == db.accounts[r.scope].reserved
      + HeldCost(r, r.scope) - (if id in db.attempts then HeldCost(db.attempts[id], r.scope) else 0)
    && next.accounts[r.scope].spent == db.accounts[r.scope].spent
      + ChargedCost(r, next.charged, id, r.scope)
      - (if id in db.attempts then ChargedCost(db.attempts[id], db.charged, id, r.scope) else 0)
  }

  lemma OneRowAccounts(db: Db, next: Db, id: string, r: Row, s: string)
    requires OneRow(db, next, id, r) && Balanced(db, next, id, r)
    requires s in db.accounts && AccountInv(db, s)
    ensures s in next.accounts && AccountInv(next, s)
  {
    HeldMove(db.attempts, id, r, s);
    ChargedMove(db.attempts, db.charged, next.charged, id, r, s);
  }

  lemma OneRowRows(db: Db, next: Db, id: string, r: Row, j: string)
    requires OneRow(db, next, id, r) && j != id
    requires j in db.attempts && RowInv(db, j)
    requires id in db.attempts ==> RowInv(db, id)
    ensures RowInv(next, j)
  {
  }

  /** A balanced one-row transaction keeps the invariant. */
  lemma OneRowKept(db: Db, next: Db, id: string, r: Row)
    requires Inv(db) && OneRow(db, next, id, r) && Balanced(db, next, id, r)
    requires forall at :: at in next.usage ==> at in db.usage || (at.0 == id && id in next.charged)
    requires RowInv(next, id)
    ensures Inv(next)
  {
    forall s | s in db.accounts ensures s in next.accounts && AccountInv(next, s) {
      assert AccountInv(db, s);
      OneRowAccounts(db, next, id, r, s);
    }
    forall j | j in db.attempts && j != id ensures j in next.attempts && RowInv(next, j) {
      assert RowInv(db, j);
      assert id in db.attempts ==> RowInv(db, id);
      OneRowRows(db, next, id, r, j);
    }
    OneRowIndexes(db, next, id, r);
  }

  lemma OneRowIndexes(db: Db, next: Db, id: string, r: Row)
    requires Inv(db) && OneRow(db, next, id, r)
    requires forall at :: at in next.usage ==> at in db.usage || (at.0 == id && id in next.charged)
    ensures forall k {:trigger KeyInv(next, k)} :: k in next.byKey ==> KeyInv(next, k)
    ensures forall at :: at in next.usage ==> at.0 in next.charged
    ensures next.charged.Keys <= next.attempts.Keys && next.reconciliations.Keys <= next.attempts.Keys
  {
    forall k | k in next.byKey ensures KeyInv(next, k) {
      if k != r.key {
        assert KeyInv(db, k);
      }
    }
  }

  lemma EmptyKept()
    ensures Inv(EmptyDb)
  {
  }

  lemma NothingInScope(attempts: map<string, Row>, charged: map<string, int>, scope: string)
    requires forall id :: id in attempts ==> attempts[id].scope != scope
    ensures Sum(HeldWeights(attempts, scope)) == 0 && Sum(ChargedWeights(attempts, charged, scope)) == 0
  {
    SumScale(HeldWeights(attempts, scope), HeldWeights(attempts, scope), 0);
    SumScale(ChargedWeights(attempts, charged, scope), ChargedWeights(attempts, charged, scope), 0);
  }

  lemma OpenKept(db: Db, scope: string, maxCost: int)
    requires Inv(db)
    ensures Inv(OpenStep(db, scope, maxCost).0)
  {
    var next := OpenStep(db, scope, maxCost).0;
    if next != db {
      forall id | id in db.attempts ensures RowInv(next, id) && db.attempts[id].scope != scope {
        assert RowInv(db, id);
      }
      NothingInScope(db.attempts, db.charged, scope);
      forall s | s in next.accounts ensures AccountInv(next, s) {
        if s != scope {
          assert AccountInv(db, s);
        }
      }
      forall k | k in next.byKey ensures KeyInv(next, k) {
        assert KeyInv(db, k);
      }
    }
  }

  lemma ReserveKept(db: Db, a: NewAttempt)
    requires Inv(db)
    ensures Inv(ReserveStep(db, a).0)
    ensures ReserveStep(db, a).1 == Refused(CheckViolation) ==> a.reservedCost < 0
  {
    var (next, reply) := ReserveStep(db, a);
    if a.key in db.byKey {
      assert KeyInv(db, a.key);
    } else if a.scope in db.accounts {
      assert AccountInv(db, a.scope);
      if reply.Accepted? {
        assert next.byKey == db.byKey[a.key := a.id];
        OneRowKept(db, next, a.id, NewRow(a));
      }
    }
  }

  lemma InsertUsageFrame(db: Db, id: string, slices: seq<Slice>)
    requires InsertUsage(db, id, slices).Ok?
    ensures var next := InsertUsage(db, id, slices).value;
      && next == db.(usage := next.usage)
      && (forall at :: at in next.usage ==> at in db.usage || at.0 == id)
    decreases |slices|
  {
    if slices != [] {
      var at := (id, slices[0].resolvedModelId);
      InsertUsageFrame(db.(usage := db.usage[at := slices[0].usage]), id, slices[1..]);
    }
  }

  lemma SettleKept(db: Db, id: string, c: Completion, verdict: Row)
    requires Inv(db) && HasOutcome(db, id, Dispatched)
    requires RowChecks(verdict) && (verdict.outcome.Succeeded? || verdict.outcome.Failed?)
    requires verdict.scope == db.attempts[id].scope && verdict.key == db.attempts[id].key
    requires verdict.reservedCost == db.attempts[id].reservedCost && verdict.finalizedAt.Some?
    requires verdict.outputSha256.Some? ==> verdict.outcome.Succeeded?
    ensures Inv(SettleStep(db, id, c, verdict).0)
    ensures SettleStep(db, id, c, verdict).1 != Refused(ReservationMissing)
  {
    assert RowInv(db, id);
    ReservationCovered(db, id);
    var (next, reply) := SettleStep(db, id, c, verdict);
    if reply.Accepted? {
      var paid := Charge(db, id, c.usage.costUsdMicros).value;
      InsertUsageFrame(paid, id, c.modelUsage);
      assert next.byKey == db.byKey[verdict.key := id];
      OneRowKept(db, next, id, verdict);
    }
  }

  lemma FailKept(db: Db, id: string, code: string, unknown: bool, requestId: Option<string>, now: int)
    requires Inv(db)
    ensures Inv(FailStep(db, id, code, unknown, requestId, now).0)
    ensures FailStep(db, id, code, unknown, requestId, now).1 != Refused(CheckViolation)
  {
    if HasOutcome(db, id, Reserved) || HasOutcome(db, id, Dispatched) {
      assert RowInv(db, id);
      ReservationCovered(db, id);
      assert AccountInv(db, db.attempts[id].scope);
      var next := FailStep(db, id, code, unknown, requestId, now).0;
      assert next.byKey == db.byKey[db.attempts[id].key := id];
      OneRowKept(db, next, id, FailedRow(db.attempts[id], code, unknown, requestId, now));
    }
  }

  lemma SameWeights(attempts: map<string, Row>, next: map<string, Row>, charged: map<string, int>, s: string)
    requires next.Keys == attempts.Keys
    requires forall id :: id in attempts ==> HeldCost(next[id], s) == HeldCost(attempts[id], s)
    requires forall id :: id in attempts ==> next[id].scope == attempts[id].scope
    ensures HeldWeights(next, s) == HeldWeights(attempts, s)
    ensures ChargedWeights(next, charged, s) == ChargedWeights(attempts, charged, s)
  {
  }

  /** What the reaper's single UPDATE may change. */
  ghost predicate Reaped(db: Db, next: Db, now: int) {
    && next == db.(attempts := next.attempts)
    && next.attempts.Keys == db.attempts.Keys
    && forall id {:trigger next.attempts[id]} :: id in db.attempts ==>
         next.attempts[id] == db.attempts[id]
         || (db.attempts[id].outcome.Dispatched? && next.attempts[id] == StrandedRow(db.attempts[id], now))
  }

  lemma ReclaimReaps(db: Db, olderThanMs: int, now: int)
    ensures Reaped(db, ReclaimStep(db, olderThanMs, now).0, now)
  {
  }

  lemma ReapedRow(db: Db, next: Db, now: int, j: string)
    requires Reaped(db, next, now)
    requires j in db.attempts && RowInv(db, j)
    ensures RowInv(next, j)
  {
    var r := next.attempts[j];
  }

  lemma ReapedAccount(db: Db, next: Db, now: int, s: string)
    requires Reaped(db, next, now)
    requires s in db.accounts && AccountInv(db, s)
    ensures AccountInv(next, s)
  {
    SameWeights(db.attempts, next.attempts, db.charged, s);
  }

  lemma ReapedKey(db: Db, next: Db, now: int, k: string)
    requires Reaped(db, next, now)
    requires k in db.byKey && KeyInv(db, k)
    ensures KeyInv(next, k)
  {
    var r := next.attempts[db.byKey[k]];
  }

  /** The reaper moves no money: an unknown attempt holds what the dispatched one held. */
  lemma ReapedKept(db: Db, next: Db, now: int)
    requires Inv(db) && Reaped(db, next, now)
    ensures Inv(next)
  {
    forall j | j in db.attempts ensures RowInv(next, j) {
      assert RowInv(db, j);
      ReapedRow(db, next, now, j);
    }
    forall s | s in db.accounts ensures AccountInv(next, s) {
      assert AccountInv(db, s);
      ReapedAccount(db, next, now, s);
    }
    forall k | k in db.byKey ensures KeyInv(next, k) {
      assert KeyInv(db, k);
      ReapedKey(db, next, now, k);
    }
  }

  lemma ReconcileKept(db: Db, id: string, reason: string, evidence: string, now: int)
    requires Inv(db)
    ensures Inv(ReconcileStep(db, id, reason, evidence, now).0)
    ensures var reply := ReconcileStep(db, id, reason, evidence, now).1;
      reply != Refused(CheckViolation) && reply != Refused(DuplicateRow)
  {
    if HasOutcome(db, id, OutcomeUnknown) && Sha256Text(evidence) && db.attempts[id].providerRequestId.None? {
      assert RowInv(db, id);
      ReservationCovered(db, id);
      assert AccountInv(db, db.attempts[id].scope);
      var next := ReconcileStep(db, id, reason, evidence, now).0;
      assert next.byKey == db.byKey[db.attempts[id].key := id];
      OneRowKept(db, next, id, ReconciledRow(db.attempts[id], reason, now));
    }
  }

  lemma MarkDispatchedKept(db: Db, id: string, now: int)
    requires Inv(db)
    ensures Inv(Step(db, MarkDispatched(id, now)).0)
  {
    if HasOutcome(db, id, Reserved) {
      assert RowInv(db, id);
      assert AccountInv(db, db.attempts[id].scope);
      var next := Step(db, MarkDispatched(id, now)).0;
      assert next.byKey == db.byKey[db.attempts[id].key := id];
      OneRowKept(db, next, id, next.attempts[id]);
    }
  }

  /** Every transaction of every actor keeps the invariant. */
  lemma StepKept(db: Db, op: Op)
    requires Inv(db)
    ensures Inv(Step(db, op).0)
  {
    match op
    case OpenAccount(scope, maxCost) => OpenKept(db, scope, maxCost);
    case Reserve(a) => ReserveKept(db, a);
    case MarkDispatched(id, now) => MarkDispatchedKept(db, id, now);
    case Succeed(id, c, sha, now) =>
      if HasOutcome(db, id, Dispatched) {
        assert RowInv(db, id);
        SettleKept(db, id, c, SucceededRow(db.attempts[id], c, sha, now));
      }
    case Reject(id, c, code, now) =>
      if HasOutcome(db, id, Dispatched) {
        assert RowInv(db, id);
        SettleKept(db, id, c, RejectedRow(db.attempts[id], c, code, now));
      }
    case Fail(id, code, unknown, requestId, now) => FailKept(db, id, code, unknown, requestId, now);
    case Reclaim(olderThanMs, now) =>
      ReclaimReaps(db, olderThanMs, now);
      ReapedKept(db, ReclaimStep(db, olderThanMs, now).0, now);
    case Reconcile(id, reason, evidence, now) => ReconcileKept(db, id, reason, evidence, now);
  }

  lemma {:induction false} RunKept(db: Db, ops: seq<Op>)
    requires Inv(db)
    ensures Inv(Run(db, ops))
  {
    if ops != [] {
      RunKept(db, ops[..|ops| - 1]);
      StepKept(Run(db, ops[..|ops| - 1]), ops[|ops| - 1]);
    }
  }

  lemma BudgetConservation(ops: seq<Op>, scope: string)
    requires scope in Run(EmptyDb, ops).accounts
    ensures var db := Run(EmptyDb, ops);
      && db.accounts[scope].reserved == HeldTotal(db, scope)
      && db.accounts[scope].spent == ChargedTotal(db, scope)
      && db.accounts[scope].spent + db.accounts[scope].reserved <= db.accounts[scope].maxCost
      && 0 <= db.accounts[scope].spent && 0 <= db.accounts[scope].reserved
  {
    EmptyKept();
    RunKept(EmptyDb, ops);
    assert AccountInv(Run(EmptyDb, ops), scope);
  }
}
