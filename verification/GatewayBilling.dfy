/** Money is recorded as spent only where it was: a subscription provider's attempts charge nothing. */
module GatewayBilling {
  import opened Common
  import opened Routes
  import opened Ledger
  import opened LedgerSafety
  import opened LedgerHistory
  import opened Gateway
  import opened GatewaySafety

  /** An attempt keeps the route it was reserved for. */
  predicate RouteKept(call: Call, db: Db, id: string) {
    id in db.attempts ==> db.attempts[id].route == call.request.route
  }

  /** What an attempt on a subscription provider was charged is zero. */
  predicate ChargeTruthful(db: Db, id: string) {
    id in db.charged && id in db.attempts && !Metered(db.attempts[id].route.provider) ==> db.charged[id] == 0
  }

  ghost predicate BillingInv(s: System) {
    && SystemInv(s)
    && (forall id {:trigger s.calls[id]} :: id in s.calls ==> RouteKept(s.calls[id], s.ledger, id))
    && (forall id {:trigger ChargeTruthful(s.ledger, id)} :: ChargeTruthful(s.ledger, id))
  }

  /** Nothing about the attempt that billing looks at changed. */
  predicate SameBill(db: Db, next: Db, id: string) {
    && (id in db.attempts <==> id in next.attempts)
    && (id in db.attempts ==> next.attempts[id].route == db.attempts[id].route)
    && (id in db.charged <==> id in next.charged)
    && (id in db.charged ==> next.charged[id] == db.charged[id])
  }

  /** Only a verdict charges, and only its own attempt. */
  lemma OthersBillKept(db: Db, op: Op, id: string)
    requires NamedBy(op) != Some(id) || op.MarkDispatched? || op.Fail? || op.Reconcile?
    ensures SameBill(db, Step(db, op).0, id)
  {
    match op
    case Succeed(_, _, _, _) => SettleFrame(db, op);
    case Reject(_, _, _, _) => SettleFrame(db, op);
    case _ =>
  }

  lemma VerdictBills(db: Db, op: Op)
    requires Inv(db) && (op.Succeed? || op.Reject?) && op.id in db.attempts
    ensures var next := Step(db, op).0;
      && op.id in next.attempts && next.attempts[op.id].route == db.attempts[op.id].route
      && (next == db || (op.id in next.charged && next.charged[op.id] == op.completion.usage.costUsdMicros))
  {
    SettleOutcome(db, op);
    if Step(db, op).1.Accepted? {
      ItemisedIffAccounted(db, op);
    }
  }

  lemma ReserveBills(db: Db, a: NewAttempt)
    requires Inv(db) && a.id !in db.attempts
    ensures var next := ReserveStep(db, a).0;
      && a.id !in next.charged && (a.id in next.attempts ==> next.attempts[a.id].route == a.route)
  {
  }

  lemma TruthfulIsFree(p: Provider, c: Completion)
    requires !Metered(p)
    ensures TruthfulCost(p, c).usage.costUsdMicros == 0
  {
  }

  lemma OwnBill(s: System, a: Action)
    requires BillingInv(s) && a.Advance? && a.id in s.calls && NextOp(s, a.id, s.calls[a.id], a).Some?
    ensures var next := Step(s.ledger, NextOp(s, a.id, s.calls[a.id], a).value).0;
      RouteKept(s.calls[a.id], next, a.id) && ChargeTruthful(next, a.id)
  {
    var call := s.calls[a.id];
    assert CallInv(call, s.ledger, a.id) && RouteKept(call, s.ledger, a.id) && ChargeTruthful(s.ledger, a.id);
    var op := NextOp(s, a.id, call, a).value;
    match call.pc
    case Prepared => ReserveBills(s.ledger, Attempt(a.id, call));
    case AfterReserve => OthersBillKept(s.ledger, op, a.id);
    case Refusing(_) => OthersBillKept(s.ledger, op, a.id);
    case Answered(outcome) =>
      if outcome.Returned? {
        VerdictBills(s.ledger, op);
        if !Metered(call.request.route.provider) {
          TruthfulIsFree(call.request.route.provider, outcome.completion);
        }
      } else {
        OthersBillKept(s.ledger, op, a.id);
      }
  }

  /** The ledger and one call moved, and every other bill is as it was. */
  lemma BillsMoved(s: System, next: System, id: string)
    requires BillingInv(s) && SystemInv(next)
    requires forall j :: j in next.calls ==> j in s.calls && next.calls[j].request == s.calls[j].request
    requires forall j {:trigger SameBill(s.ledger, next.ledger, j)} :: j != id ==> SameBill(s.ledger, next.ledger, j)
    requires id in next.calls ==> RouteKept(next.calls[id], next.ledger, id)
    requires ChargeTruthful(next.ledger, id)
    ensures BillingInv(next)
  {
    forall j | j in next.calls ensures RouteKept(next.calls[j], next.ledger, j) {
      if j != id {
        assert RouteKept(s.calls[j], s.ledger, j) && SameBill(s.ledger, next.ledger, j);
      }
    }
    forall j ensures ChargeTruthful(next.ledger, j) {
      if j != id {
        assert ChargeTruthful(s.ledger, j) && SameBill(s.ledger, next.ledger, j);
      }
    }
  }

  lemma RequestStays(s: System, call: Call, reply: Reply)
    ensures After(s, call, reply).request == call.request
  {
  }

  lemma LedgerStepBills(s: System, a: Action)
    requires BillingInv(s) && a.Advance? && a.id in s.calls && NextOp(s, a.id, s.calls[a.id], a).Some?
    ensures BillingInv(AdvanceCall(s, a))
  {
    var call := s.calls[a.id];
    var op := NextOp(s, a.id, call, a).value;
    AdvanceRefs(s, a);
    LedgerStepKept(s, a);
    OwnBill(s, a);
    RequestStays(s, call, Step(s.ledger, op).1);
    forall j | j != a.id ensures SameBill(s.ledger, Step(s.ledger, op).0, j) {
      OthersBillKept(s.ledger, op, j);
    }
    BillsMoved(s, AdvanceCall(s, a), a.id);
  }

  lemma OutsideBills(s: System, a: Action)
    requires BillingInv(s) && (a.Reap? || a.WriteOff? || a.OpenScope?)
    ensures BillingInv(Act(s, a))
  {
    var op := if a.Reap? then Reclaim(a.olderThanMs, a.now)
              else if a.WriteOff? then Reconcile(a.id, a.reason, a.evidence, a.now)
              else OpenAccount(a.scope, a.maxCost);
    OutsideKept(s, a);
    forall j ensures SameBill(s.ledger, Step(s.ledger, op).0, j) {
      OthersBillKept(s.ledger, op, j);
    }
    forall id | id in s.calls ensures RouteKept(s.calls[id], Act(s, a).ledger, id) {
      assert RouteKept(s.calls[id], s.ledger, id) && SameBill(s.ledger, Step(s.ledger, op).0, id);
    }
    forall id ensures ChargeTruthful(Act(s, a).ledger, id) {
      assert ChargeTruthful(s.ledger, id) && SameBill(s.ledger, Step(s.ledger, op).0, id);
    }
  }

  lemma LocalBills(s: System, a: Action)
    requires BillingInv(s) && SystemInv(Act(s, a)) && Act(s, a).ledger == s.ledger
    requires forall id :: id in s.calls ==> id in Act(s, a).calls && Act(s, a).calls[id].request == s.calls[id].request
    requires forall id :: id in Act(s, a).calls && id !in s.calls ==> id !in s.ledger.attempts
    ensures BillingInv(Act(s, a))
  {
    var next := Act(s, a);
    forall id | id in next.calls ensures RouteKept(next.calls[id], next.ledger, id) {
      if id in s.calls {
        assert RouteKept(s.calls[id], s.ledger, id);
      }
    }
    forall id ensures ChargeTruthful(next.ledger, id) {
      assert ChargeTruthful(s.ledger, id);
    }
  }

  lemma ActBills(s: System, a: Action)
    requires BillingInv(s)
    ensures BillingInv(Act(s, a))
  {
    ActKept(s, a);
    if a.Reap? || a.WriteOff? || a.OpenScope? {
      OutsideBills(s, a);
    } else if a.Advance? && a.id in s.calls && !s.calls[a.id].pc.AfterDispatch? {
      if NextOp(s, a.id, s.calls[a.id], a).Some? {
        LedgerStepBills(s, a);
      }
    } else {
      LocalBills(s, a);
    }
  }

  lemma {:induction false} PlayBills(adapters: set<Provider>, actions: seq<Action>)
    ensures BillingInv(Play(Fresh(adapters), actions))
  {
    if actions == [] {
      FreshKept(adapters);
    } else {
      PlayBills(adapters, actions[..|actions| - 1]);
      ActBills(Play(Fresh(adapters), actions[..|actions| - 1]), actions[|actions| - 1]);
    }
  }

  /** Whatever the providers report and however calls interleave, an attempt on Codex or Claude, which are
      paid by subscription, is never charged anything. */
  lemma SubscriptionsChargeNothing(adapters: set<Provider>, actions: seq<Action>, id: string)
    requires var db := Play(Fresh(adapters), actions).ledger;
      && id in db.charged && id in db.attempts
      && (db.attempts[id].route.provider == Codex || db.attempts[id].route.provider == Claude)
    ensures Play(Fresh(adapters), actions).ledger.charged[id] == 0
  {
    PlayBills(adapters, actions);
    assert ChargeTruthful(Play(Fresh(adapters), actions).ledger, id);
  }
}
