/** The in-memory ledger the tests drive, and its simulation of the database one. */
module MemoryLedger {
  import opened Common
  import opened Ledger
  import opened LedgerSafety

  /** `byId` rows never carry dispatchedAt: the in-memory ledger keeps that in a map of its own. `usage` is
      the usage property of the attempts that have one. */
  datatype Memory = Memory(
    byId: map<string, Row>,
    byKey: map<string, string>,
    dispatchedAt: map<string, int>,
    usage: map<string, Usage>)

  const EmptyMemory := Memory(map[], map[], map[], map[])

  predicate StrandedIn(m: Memory, id: string, olderThanMs: int, now: int)
    requires id in m.byId
  {
    m.byId[id].outcome.Dispatched? && id in m.dispatchedAt && m.dispatchedAt[id] <= now - olderThanMs
  }

  /** Untruncated codes, and provider ids kept when fail() is given none. */
  function FailedInMemory(r: Row, code: string, unknown: bool, requestId: Option<string>, now: int): Row {
    r.(outcome := if unknown then OutcomeUnknown else Failed,
       failureCode := Some(code),
       providerRequestId := if requestId.None? then r.providerRequestId else requestId,
       finalizedAt := Some(now))
  }

  function RejectedInMemory(r: Row, c: Completion, code: string, now: int): Row {
    RejectedRow(r, c, code, now).(failureCode := Some(code))
  }

  function Write(m: Memory, id: string, r: Row): Memory {
    m.(byId := m.byId[id := r])
  }

  /** One call on the in-memory ledger, which has neither accounts nor reconciliation. */
  function MemoryStep(m: Memory, op: Op): (Memory, Reply) {
    match op
    case OpenAccount(_, _) => (m, Opened)
    case Reserve(a) =>
      if a.key in m.byKey && m.byKey[a.key] in m.byId then
        var existing := m.byId[m.byKey[a.key]];
        (m, if existing.requestHash == a.requestHash then Replayed(existing) else Refused(IntentMismatch))
      else
        (m.(byId := m.byId[a.id := NewRow(a)], byKey := m.byKey[a.key := a.id], usage := m.usage - {a.id}),
         Accepted(NewRow(a)))
    case MarkDispatched(id, now) =>
      if id !in m.byId then (m, Refused(UnknownAttempt))
      else if m.byId[id].outcome != Reserved then (m, Refused(CannotDispatch))
      else
        (Write(m, id, m.byId[id].(outcome := Dispatched)).(dispatchedAt := m.dispatchedAt[id := now]), Dispatch)
    case Succeed(id, c, sha, now) =>
      if id !in m.byId then (m, Refused(UnknownAttempt))
      else if m.byId[id].outcome != Dispatched then (m, Refused(CannotSucceed))
      else
        var r := SucceededRow(m.byId[id], c, sha, now);
        (Write(m, id, r).(usage := m.usage[id := c.usage]), Accepted(r))
    case Reject(id, c, code, now) =>
      if id !in m.byId then (m, Refused(UnknownAttempt))
      else if m.byId[id].outcome != Dispatched then (m, Refused(CannotReject))
      else
        var r := RejectedInMemory(m.byId[id], c, code, now);
        (Write(m, id, r).(usage := m.usage[id := c.usage]), Accepted(r))
    case Fail(id, code, unknown, requestId, now) =>
      if id !in m.byId then (m, Refused(UnknownAttempt))
      else if m.byId[id].outcome != Reserved && m.byId[id].outcome != Dispatched then (m, Refused(AlreadyFinalized))
      else
        var r := FailedInMemory(m.byId[id], code, unknown, requestId, now);
        (Write(m, id, r), Accepted(r))
    case Reclaim(olderThanMs, now) =>
      if !SafeInteger(olderThanMs) || olderThanMs < MINIMUM_HORIZON_MS then (m, Refused(InvalidHorizon))
      else
        var ids := set id | id in m.byId && StrandedIn(m, id, olderThanMs, now);
        (m.(byId := map id | id in m.byId :: if id in ids then StrandedRow(m.byId[id], now) else m.byId[id]),
         Reclaimed(ids))
    case Reconcile(_, _, _, _) => (m, Refused(NotUnknown))
  }

  class MemoryAttemptLedger {
    var byId: map<string, Row>
    var byKey: map<string, string>
    var dispatchedAt: map<string, int>
    var usage: map<string, Usage>

    ghost function State(): Memory
      reads this
    {
      Memory(byId, byKey, dispatchedAt, usage)
    }

    ghost predicate Valid()
      reads this
    {
      forall k :: k in byKey ==> byKey[k] in byId
    }

    constructor ()
      ensures Valid() && State() == EmptyMemory
    {
      byId, byKey, dispatchedAt, usage := map[], map[], map[], map[];
    }

    method Reserve(a: NewAttempt) returns (reply: Reply)
      requires Valid()
      modifies this
      ensures Valid()
      ensures (State(), reply) == MemoryStep(old(State()), Ledger.Reserve(a))
    {
      if a.key in byKey {
        var existing := byId[byKey[a.key]];
        if existing.requestHash != a.requestHash {
          return Refused(IntentMismatch);
        }
        return Replayed(existing);
      }
      byId, usage := byId[a.id := NewRow(a)], usage - {a.id};
      byKey := byKey[a.key := a.id];
      reply := Accepted(NewRow(a));
    }

    method MarkDispatched(id: string, now: int) returns (reply: Reply)
      requires Valid()
      modifies this
      ensures Valid()
      ensures (State(), reply) == MemoryStep(old(State()), Ledger.MarkDispatched(id, now))
    {
      if id !in byId {
        return Refused(UnknownAttempt);
      }
      if byId[id].outcome != Reserved {
        return Refused(CannotDispatch);
      }
      byId := byId[id := byId[id].(outcome := Dispatched)];
      dispatchedAt := dispatchedAt[id := now];
      reply := Dispatch;
    }

    method Succeed(id: string, c: Completion, sha: string, now: int) returns (reply: Reply)
      requires Valid()
      modifies this
      ensures Valid()
      ensures (State(), reply) == MemoryStep(old(State()), Ledger.Succeed(id, c, sha, now))
    {
      if id !in byId {
        return Refused(UnknownAttempt);
      }
      if byId[id].outcome != Dispatched {
        return Refused(CannotSucceed);
      }
      byId, usage := byId[id := SucceededRow(byId[id], c, sha, now)], usage[id := c.usage];
      reply := Accepted(byId[id]);
    }

    method Reject(id: string, c: Completion, code: string, now: int) returns (reply: Reply)
      requires Valid()
      modifies this
      ensures Valid()
      ensures (State(), reply) == MemoryStep(old(State()), Ledger.Reject(id, c, code, now))
    {
      if id !in byId {
        return Refused(UnknownAttempt);
      }
      if byId[id].outcome != Dispatched {
        return Refused(CannotReject);
      }
      byId, usage := byId[id := RejectedInMemory(byId[id], c, code, now)], usage[id := c.usage];
      reply := Accepted(byId[id]);
    }

    method Fail(id: string, code: string, unknown: bool, requestId: Option<string>, now: int) returns (reply: Reply)
      requires Valid()
      modifies this
      ensures Valid()
      ensures (State(), reply) == MemoryStep(old(State()), Ledger.Fail(id, code, unknown, requestId, now))
    {
      if id !in byId {
        return Refused(UnknownAttempt);
      }
      if byId[id].outcome != Reserved && byId[id].outcome != Dispatched {
        return Refused(AlreadyFinalized);
      }
      byId := byId[id := FailedInMemory(byId[id], code, unknown, requestId, now)];
      reply := Accepted(byId[id]);
    }

    /** Visits every attempt once, in whatever order, settling the stranded ones. */
    method ReclaimStranded(olderThanMs: int, now: int) returns (reply: Reply)
      requires Valid()
      modifies this
      ensures Valid()
      ensures (State(), reply) == MemoryStep(old(State()), Reclaim(olderThanMs, now))
    {
      if !SafeInteger(olderThanMs) || olderThanMs < MINIMUM_HORIZON_MS {
        return Refused(InvalidHorizon);
      }
      ghost var was := State();
      var left := byId.Keys;
      var reclaimed: set<string> := {};
      while left != {}
        invariant byKey == was.byKey && dispatchedAt == was.dispatchedAt && usage == was.usage && byId.Keys == was.byId.Keys
        invariant left <= byId.Keys
        invariant reclaimed == set id | id in was.byId && id !in left && StrandedIn(was, id, olderThanMs, now)
        invariant forall id :: id in was.byId ==>
          byId[id] == if id in reclaimed then StrandedRow(was.byId[id], now) else was.byId[id]
        decreases left
      {
        var id :| id in left;
        left := left - {id};
        if byId[id].outcome == Dispatched && id in dispatchedAt && dispatchedAt[id] <= now - olderThanMs {
          byId := byId[id := StrandedRow(byId[id], now)];
          reclaimed := reclaimed + {id};
        }
      }
      assert reclaimed == set id | id in was.byId && StrandedIn(was, id, olderThanMs, now);
      assert byId == map id | id in was.byId ::
        if id in reclaimed then StrandedRow(was.byId[id], now) else was.byId[id];
      reply := Reclaimed(reclaimed);
    }
  }
}
