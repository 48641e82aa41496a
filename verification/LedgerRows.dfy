/** What each transaction writes, field by field, in the database and in the in-memory ledger. */
module LedgerRows {
  import opened Common
  import opened Ledger
  import opened LedgerSafety
  import opened LedgerHistory
  import opened MemoryLedger
  import opened LedgerSimulation

  /** The columns written at reservation are as they were. */
  predicate SameIntent(was: Row, r: Row) {
    && r.key == was.key && r.requestHash == was.requestHash && r.route == was.route
    && r.scope == was.scope && r.reservedCost == was.reservedCost
  }

  /** The columns a provider's answer fills are as they were. */
  predicate SameIdentity(was: Row, r: Row) {
    && r.providerRequestId == was.providerRequestId && r.resolvedModelId == was.resolvedModelId
    && r.resolutionSource == was.resolutionSource && r.outputSha256 == was.outputSha256
  }

  predicate Identifies(r: Row, c: Completion) {
    && r.providerRequestId == Some(c.providerRequestId) && r.resolvedModelId == Some(c.resolvedModelId)
    && r.resolutionSource == Some(c.resolutionSource)
  }

  /** The first 500 characters of a code, or all of it. */
  predicate Cut(stored: Option<string>, code: string) {
    && stored.Some? && stored.value <= code
    && |stored.value| == if |code| < 500 then |code| else 500
  }

  /** Only attempt `id` is different. */
  predicate OnlyAttempt(db: Db, next: Db, id: string) {
    next.byKey == db.byKey && id in next.attempts && next.attempts == db.attempts[id := next.attempts[id]]
  }

  /** Only this account is different: reserved and spent moved by so much. */
  predicate Moved(db: Db, next: Db, scope: string, reserved: int, spent: int) {
    && scope in db.accounts && scope in next.accounts
    && next.accounts == db.accounts[scope := next.accounts[scope]]
    && next.accounts[scope].maxCost == db.accounts[scope].maxCost
    && next.accounts[scope].reserved == db.accounts[scope].reserved + reserved
    && next.accounts[scope].spent == db.accounts[scope].spent + spent
  }

  predicate SameBooks(db: Db, next: Db) {
    next.usage == db.usage && next.charged == db.charged && next.reconciliations == db.reconciliations
  }

  // ---- reserve() and dispatched() --------------------------------------------------------------

  /** A key already taken is answered with its attempt if the request is the same; nothing is written. */
  lemma ReserveReplays(db: Db, a: NewAttempt)
    requires Inv(db) && a.key in db.byKey
    ensures var (next, reply) := Step(db, Reserve(a));
      && next == db && db.byKey[a.key] in db.attempts
      && var row := db.attempts[db.byKey[a.key]];
         if row.requestHash == a.requestHash then reply == Replayed(row) else reply == Refused(IntentMismatch)
  {
    assert KeyInv(db, a.key);
  }

  lemma ReserveWrites(db: Db, a: NewAttempt)
    requires Inv(db) && Step(db, Reserve(a)).1.Accepted?
    ensures a.key !in db.byKey && a.id !in db.attempts
    ensures var (next, reply) := Step(db, Reserve(a));
      && a.id in next.attempts && next.attempts == db.attempts[a.id := next.attempts[a.id]]
      && next.byKey == db.byKey[a.key := a.id] && SameBooks(db, next)
      && Moved(db, next, a.scope, a.reservedCost, 0)
      && var r := next.attempts[a.id];
         && reply == Accepted(r) && r.outcome == Reserved
         && r.key == a.key && r.requestHash == a.requestHash && r.route == a.route
         && r.scope == a.scope && r.reservedCost == a.reservedCost
         && r.providerRequestId.None? && r.resolvedModelId.None? && r.resolutionSource.None? && r.outputSha256.None?
         && r.failureCode.None? && r.dispatchedAt.None? && r.finalizedAt.None?
  {
    if a.key in db.byKey {
      ReserveReplays(db, a);
      assert false;
    }
  }

  /** A new attempt is reserved if and only if its budget exists and has room, its cost is not negative and its
      id is new. */
  lemma ReserveAcceptedIff(db: Db, a: NewAttempt)
    requires Inv(db) && a.key !in db.byKey
    ensures Step(db, Reserve(a)).1.Accepted? <==>
      && a.scope in db.accounts && 0 <= a.reservedCost && a.id !in db.attempts
      && db.accounts[a.scope].spent + db.accounts[a.scope].reserved + a.reservedCost <= db.accounts[a.scope].maxCost
  {
    if a.scope in db.accounts {
      assert AccountInv(db, a.scope);
      if a.reservedCost < 0 && a.id !in db.attempts {
        NegativeRefused(db, a);
      }
    }
  }

  lemma NegativeRefused(db: Db, a: NewAttempt)
    requires Inv(db) && a.reservedCost < 0 && a.key !in db.byKey
    ensures !Step(db, Reserve(a)).1.Accepted?
  {
  }

  lemma DispatchWrites(db: Db, id: string, now: int)
    ensures var (next, reply) := Step(db, MarkDispatched(id, now));
      if id in db.attempts && db.attempts[id].outcome == Reserved then
        && reply == Dispatch && OnlyAttempt(db, next, id) && SameBooks(db, next) && next.accounts == db.accounts
        && var was, r := db.attempts[id], next.attempts[id];
           && r.outcome == Dispatched && r.dispatchedAt == Some(now)
           && SameIntent(was, r) && SameIdentity(was, r)
           && r.failureCode == was.failureCode && r.finalizedAt == was.finalizedAt
      else next == db && reply == Refused(CannotDispatch)
  {
  }

  // ---- succeed() and reject() ------------------------------------------------------------------

  /** What one completion's slices leave in the usage events: each under its own model, and no other. */
  predicate Recorded(db: Db, next: Db, id: string, slices: seq<Slice>) {
    && (forall i :: 0 <= i < |slices| ==>
          (id, slices[i].resolvedModelId) in next.usage && next.usage[(id, slices[i].resolvedModelId)] == slices[i].usage)
    && (forall at :: at in db.usage ==> at in next.usage && next.usage[at] == db.usage[at])
    && (forall at :: at in next.usage && at !in db.usage ==>
          at.0 == id && exists i :: 0 <= i < |slices| && slices[i].resolvedModelId == at.1)
  }

  lemma {:induction false} InsertRecords(db: Db, id: string, slices: seq<Slice>)
    requires InsertUsage(db, id, slices).Ok?
    ensures Recorded(db, InsertUsage(db, id, slices).value, id, slices)
    decreases |slices|
  {
    if slices != [] {
      var at := (id, slices[0].resolvedModelId);
      var more, rest := db.(usage := db.usage[at := slices[0].usage]), slices[1..];
      InsertRecords(more, id, rest);
      assert forall i :: 0 < i < |slices| ==> slices[i] == rest[i - 1];
      assert at in more.usage;
      forall other | other in InsertUsage(db, id, slices).value.usage && other !in db.usage
        ensures other.0 == id && exists i :: 0 <= i < |slices| && slices[i].resolvedModelId == other.1
      {
        if other == at {
          assert slices[0].resolvedModelId == other.1;
        } else {
          var i :| 0 <= i < |rest| && rest[i].resolvedModelId == other.1;
          assert slices[i + 1].resolvedModelId == other.1;
        }
      }
    }
  }

  /** What both verdicts have in common. */
  ghost predicate VerdictWrote(db: Db, op: Op, next: Db, reply: Reply)
    requires op.Succeed? || op.Reject?
  {
    var id, c := op.id, op.completion;
    && id in db.attempts && db.attempts[id].outcome == Dispatched
    && OnlyAttempt(db, next, id) && reply == Accepted(next.attempts[id])
    && next.reconciliations == db.reconciliations
    && next.charged == db.charged[id := c.usage.costUsdMicros]
    && Moved(db, next, db.attempts[id].scope, -db.attempts[id].reservedCost, c.usage.costUsdMicros)
    && Recorded(db, next, id, c.modelUsage)
    && var was, r := db.attempts[id], next.attempts[id];
       && SameIntent(was, r) && Identifies(r, c) && r.dispatchedAt == was.dispatchedAt && r.finalizedAt == Some(op.now)
  }

  lemma VerdictWrites(db: Db, op: Op)
    requires Inv(db) && (op.Succeed? || op.Reject?) && Step(db, op).1.Accepted?
    ensures VerdictWrote(db, op, Step(db, op).0, Step(db, op).1)
  {
    var c := op.completion;
    SettleOutcome(db, op);
    var paid := Charge(db, op.id, c.usage.costUsdMicros).value;
    InsertUsageFrame(paid, op.id, c.modelUsage);
    InsertRecords(paid, op.id, c.modelUsage);
  }

  lemma SucceedWrites(db: Db, op: Op)
    requires Inv(db) && op.Succeed? && Step(db, op).1.Accepted?
    ensures VerdictWrote(db, op, Step(db, op).0, Step(db, op).1)
    ensures var was, r := db.attempts[op.id], Step(db, op).0.attempts[op.id];
      r.outcome == Succeeded && r.outputSha256 == Some(op.sha) && r.failureCode == was.failureCode
  {
    VerdictWrites(db, op);
    SettleOutcome(db, op);
  }

  lemma RejectWrites(db: Db, op: Op)
    requires Inv(db) && op.Reject? && Step(db, op).1.Accepted?
    ensures VerdictWrote(db, op, Step(db, op).0, Step(db, op).1)
    ensures var was, r := db.attempts[op.id], Step(db, op).0.attempts[op.id];
      r.outcome == Failed && Cut(r.failureCode, op.code) && r.outputSha256 == was.outputSha256
  {
    VerdictWrites(db, op);
    SettleOutcome(db, op);
  }

  // ---- fail(), reclaimStranded() and reconcileUnknownAsFailed() ---------------------------------

  lemma FailWrites(db: Db, op: Op)
    requires Inv(db) && op.Fail? && op.id in db.attempts
    requires db.attempts[op.id].outcome == Reserved || db.attempts[op.id].outcome == Dispatched
    ensures var (next, reply) := Step(db, op);
      && OnlyAttempt(db, next, op.id) && reply == Accepted(next.attempts[op.id]) && SameBooks(db, next)
      && var was, r := db.attempts[op.id], next.attempts[op.id];
         && r.outcome == (if op.unknown then OutcomeUnknown else Failed)
         && Cut(r.failureCode, op.code) && r.providerRequestId == op.requestId && r.finalizedAt == Some(op.now)
         && SameIntent(was, r) && r.dispatchedAt == was.dispatchedAt && r.outputSha256 == was.outputSha256
         && r.resolvedModelId == was.resolvedModelId && r.resolutionSource == was.resolutionSource
         && if op.unknown then next.accounts == db.accounts else Moved(db, next, was.scope, -was.reservedCost, 0)
  {
    assert RowInv(db, op.id);
    ReservationCovered(db, op.id);
    FailOutcome(db, op);
    FailMoves(db, op);
  }

  lemma FailMoves(db: Db, op: Op)
    requires Inv(db) && op.Fail? && op.id in db.attempts && Step(db, op).1.Accepted?
    requires db.attempts[op.id].scope in db.accounts
    ensures var next, was := Step(db, op).0, db.attempts[op.id];
      && SameBooks(db, next)
      && if op.unknown then next.accounts == db.accounts else Moved(db, next, was.scope, -was.reservedCost, 0)
  {
  }

  /** What the reaper does to one attempt. */
  predicate Stranding(was: Row, r: Row, now: int) {
    && r.outcome == OutcomeUnknown && r.failureCode == Some("attempt_stranded_no_verdict") && r.finalizedAt == Some(now)
    && SameIntent(was, r) && SameIdentity(was, r) && r.dispatchedAt == was.dispatchedAt
  }

  /** Sent and unanswered for so long. */
  predicate SentBefore(db: Db, id: string, limit: int) {
    && id in db.attempts && db.attempts[id].outcome == Dispatched
    && db.attempts[id].dispatchedAt.Some? && db.attempts[id].dispatchedAt.value <= limit
  }

  lemma ReclaimWrites(db: Db, olderThanMs: int, now: int)
    ensures var (next, reply) := Step(db, Reclaim(olderThanMs, now));
      if 60_000 <= olderThanMs <= 9_007_199_254_740_991 then
        && next.accounts == db.accounts && next.byKey == db.byKey && SameBooks(db, next)
        && next.attempts.Keys == db.attempts.Keys && reply.Reclaimed?
        && (forall id :: id in reply.ids <==> SentBefore(db, id, now - olderThanMs))
        && (forall id :: id in db.attempts ==>
              if id in reply.ids then Stranding(db.attempts[id], next.attempts[id], now)
              else next.attempts[id] == db.attempts[id])
      else next == db && reply == Refused(InvalidHorizon)
  {
  }

  /** Sixty-four lower-case hexadecimal digits. */
  predicate DigestText(s: string) {
    |s| == 64 && forall i :: 0 <= i < |s| ==> s[i] in "0123456789abcdef"
  }

  lemma DigestTextIs(s: string)
    ensures Sha256Text(s) <==> DigestText(s)
  {
    forall i | 0 <= i < |s| ensures HexDigit(s[i]) <==> s[i] in "0123456789abcdef" {
      HexDigits(s[i]);
    }
  }

  lemma HexDigits(c: char)
    ensures HexDigit(c) <==> c in "0123456789abcdef"
  {
    var digits := "0123456789abcdef";
    assert digits[0] == '0' && digits[1] == '1' && digits[2] == '2' && digits[3] == '3' && digits[4] == '4' && digits[5] == '5'
      && digits[6] == '6' && digits[7] == '7' && digits[8] == '8' && digits[9] == '9' && digits[10] == 'a' && digits[11] == 'b'
      && digits[12] == 'c' && digits[13] == 'd' && digits[14] == 'e' && digits[15] == 'f';
  }

  /** An attempt can be written off if and only if it is unknown, names no provider request and comes with a
      well-formed digest of evidence. */
  lemma ReconcileWritesIff(db: Db, op: Op)
    requires Inv(db) && op.Reconcile?
    ensures var (next, reply) := Step(db, op);
      if op.id in db.attempts && db.attempts[op.id].outcome == OutcomeUnknown && DigestText(op.evidence)
         && db.attempts[op.id].providerRequestId.None? then
        && OnlyAttempt(db, next, op.id) && reply == Accepted(next.attempts[op.id])
        && next.usage == db.usage && next.charged == db.charged
        && next.reconciliations == db.reconciliations[op.id := op.evidence]
        && var was, r := db.attempts[op.id], next.attempts[op.id];
           && r.outcome == Failed && Cut(r.failureCode, op.reason) && r.finalizedAt == Some(op.now)
           && SameIntent(was, r) && SameIdentity(was, r) && r.dispatchedAt == was.dispatchedAt
           && Moved(db, next, was.scope, -was.reservedCost, 0)
      else next == db && reply.Refused?
  {
    DigestTextIs(op.evidence);
    if HasOutcome(db, op.id, OutcomeUnknown) {
      assert RowInv(db, op.id);
      ReservationCovered(db, op.id);
      ReconcileKept(db, op.id, op.reason, op.evidence, op.now);
      if DigestText(op.evidence) && db.attempts[op.id].providerRequestId.None? {
        ReconcileMoves(db, op);
      }
    }
  }

  lemma ReconcileMoves(db: Db, op: Op)
    requires Inv(db) && op.Reconcile? && Step(db, op).1.Accepted? && HasOutcome(db, op.id, OutcomeUnknown)
    requires db.attempts[op.id].scope in db.accounts
    requires db.attempts[op.id].reservedCost <= db.accounts[db.attempts[op.id].scope].reserved
    ensures var next, was := Step(db, op).0, db.attempts[op.id];
      && OnlyAttempt(db, next, op.id) && next.usage == db.usage && next.charged == db.charged
      && next.reconciliations == db.reconciliations[op.id := op.evidence]
      && Moved(db, next, was.scope, -was.reservedCost, 0)
  {
  }

  /** A budget is opened once, with its cap and nothing in it. */
  lemma OpenWrites(db: Db, scope: string, maxCost: int)
    ensures var (next, reply) := Step(db, OpenAccount(scope, maxCost));
      && next.attempts == db.attempts && next.byKey == db.byKey && SameBooks(db, next)
      && (reply == Opened <==> 0 <= maxCost)
      && if 0 <= maxCost && scope !in db.accounts then
           next.accounts == db.accounts[scope := next.accounts[scope]]
           && next.accounts[scope].maxCost == maxCost && next.accounts[scope].spent == 0 && next.accounts[scope].reserved == 0
         else next == db
  {
  }

  // ---- The in-memory ledger --------------------------------------------------------------------

  predicate OnlyRow(m: Memory, next: Memory, id: string) {
    next.byKey == m.byKey && id in next.byId && next.byId == m.byId[id := next.byId[id]]
  }

  lemma MemoryReserves(m: Memory, a: NewAttempt)
    ensures var (next, reply) := MemoryStep(m, Reserve(a));
      if a.key in m.byKey && m.byKey[a.key] in m.byId then
        && next == m
        && var row := m.byId[m.byKey[a.key]];
           if row.requestHash == a.requestHash then reply == Replayed(row) else reply == Refused(IntentMismatch)
      else
        && a.id in next.byId && next.byId == m.byId[a.id := next.byId[a.id]]
        && next.byKey == m.byKey[a.key := a.id] && next.dispatchedAt == m.dispatchedAt && next.usage == m.usage - {a.id}
        && var r := next.byId[a.id];
           && reply == Accepted(r) && r.outcome == Reserved
           && r.key == a.key && r.requestHash == a.requestHash && r.route == a.route
           && r.scope == a.scope && r.reservedCost == a.reservedCost
           && r.providerRequestId.None? && r.resolvedModelId.None? && r.resolutionSource.None? && r.outputSha256.None?
           && r.failureCode.None? && r.finalizedAt.None?
  {
  }

  lemma MemorySends(m: Memory, id: string, now: int)
    ensures var (next, reply) := MemoryStep(m, MarkDispatched(id, now));
      if id in m.byId && m.byId[id].outcome == Reserved then
        && reply == Dispatch && OnlyRow(m, next, id) && next.usage == m.usage
        && next.dispatchedAt == m.dispatchedAt[id := now]
        && var was, r := m.byId[id], next.byId[id];
           && r.outcome == Dispatched && SameIntent(was, r) && SameIdentity(was, r)
           && r.failureCode == was.failureCode && r.finalizedAt == was.finalizedAt && r.dispatchedAt == was.dispatchedAt
      else next == m && reply.Refused?
  {
  }

  /** A verdict on a dispatched attempt, with the completion's identity and total usage. */
  lemma MemorySettles(m: Memory, op: Op)
    requires op.Succeed? || op.Reject?
    ensures var (next, reply) := MemoryStep(m, op);
      if op.id in m.byId && m.byId[op.id].outcome == Dispatched then
        && OnlyRow(m, next, op.id) && reply == Accepted(next.byId[op.id])
        && next.usage == m.usage[op.id := op.completion.usage] && next.dispatchedAt == m.dispatchedAt
        && var was, r := m.byId[op.id], next.byId[op.id];
           && SameIntent(was, r) && Identifies(r, op.completion)
           && r.dispatchedAt == was.dispatchedAt && r.finalizedAt == Some(op.now)
           && if op.Succeed? then
                r.outcome == Succeeded && r.outputSha256 == Some(op.sha) && r.failureCode == was.failureCode
              else
                r.outcome == Failed && r.failureCode == Some(op.code) && r.outputSha256 == was.outputSha256
      else next == m && reply.Refused?
  {
  }

  lemma MemoryFails(m: Memory, op: Op)
    requires op.Fail?
    ensures var (next, reply) := MemoryStep(m, op);
      if op.id in m.byId && (m.byId[op.id].outcome == Reserved || m.byId[op.id].outcome == Dispatched) then
        && OnlyRow(m, next, op.id) && reply == Accepted(next.byId[op.id])
        && next.usage == m.usage && next.dispatchedAt == m.dispatchedAt
        && var was, r := m.byId[op.id], next.byId[op.id];
           && r.outcome == (if op.unknown then OutcomeUnknown else Failed)
           && r.failureCode == Some(op.code) && r.finalizedAt == Some(op.now)
           && r.providerRequestId == (if op.requestId.Some? then op.requestId else was.providerRequestId)
           && SameIntent(was, r) && r.dispatchedAt == was.dispatchedAt && r.outputSha256 == was.outputSha256
           && r.resolvedModelId == was.resolvedModelId && r.resolutionSource == was.resolutionSource
      else next == m && reply.Refused?
  {
  }

  lemma MemoryReclaims(m: Memory, olderThanMs: int, now: int)
    ensures var (next, reply) := MemoryStep(m, Reclaim(olderThanMs, now));
      if 60_000 <= olderThanMs <= 9_007_199_254_740_991 then
        && next.byKey == m.byKey && next.dispatchedAt == m.dispatchedAt && next.usage == m.usage
        && next.byId.Keys == m.byId.Keys && reply.Reclaimed?
        && (forall id :: id in reply.ids <==>
              id in m.byId && m.byId[id].outcome == Dispatched && id in m.dispatchedAt && m.dispatchedAt[id] <= now - olderThanMs)
        && (forall id :: id in m.byId ==>
              if id in reply.ids then Stranding(m.byId[id], next.byId[id], now) else next.byId[id] == m.byId[id])
      else next == m && reply == Refused(InvalidHorizon)
  {
  }
}
