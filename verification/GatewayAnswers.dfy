/** What execute() makes of each answer and each failure, said of the inputs. */
module GatewayAnswers {
  import opened Common
  import opened Routes
  import opened Ledger
  import opened LedgerSafety
  import opened LedgerHistory
  import opened LedgerRows
  import opened Gateway
  import opened GatewaySafety
  import Text

  /** What a provider bills: the reported cost if it is paid per token, nothing on a subscription. */
  function Billed(p: Provider, cost: int): int {
    match p
    case DeepSeek => cost
    case Codex => 0
    case Claude => 0
  }

  function BilledSlices(p: Provider, slices: seq<Slice>): int {
    if slices == [] then 0 else Billed(p, slices[0].usage.costUsdMicros) + BilledSlices(p, slices[1..])
  }

  // ---- The checks on an answer -----------------------------------------------------------------

  predicate ModelAsked(request: Request, c: Completion) {
    c.resolvedModelId == request.route.requestedModelId
  }

  predicate SourceTrusted(request: Request, c: Completion) {
    c.resolutionSource == ProviderResponse || request.route.provider == Codex
  }

  predicate SaysSomething(c: Completion) {
    |c.providerRequestId| > 0 && exists i :: 0 <= i < |c.content| && !Text.Space(c.content[i])
  }

  predicate UsageInRange(request: Request, c: Completion) {
    && 0 <= c.usage.inputTokens && 0 <= c.usage.outputTokens
    && 0 <= Billed(request.route.provider, c.usage.costUsdMicros) <= request.maxCost
  }

  predicate SlicesAddUp(request: Request, c: Completion) {
    && (exists i :: 0 <= i < |c.modelUsage| && c.modelUsage[i].resolvedModelId == c.resolvedModelId)
    && BilledSlices(request.route.provider, c.modelUsage) == Billed(request.route.provider, c.usage.costUsdMicros)
  }

  predicate Sound(request: Request, c: Completion) {
    ModelAsked(request, c) && SourceTrusted(request, c) && SaysSomething(c) && UsageInRange(request, c) && SlicesAddUp(request, c)
  }

  /** The code is that of the first check that fails. */
  predicate CodeOfFirstFailure(request: Request, c: Completion, code: string) {
    if !ModelAsked(request, c) then code == "resolved_model_mismatch"
    else if !SourceTrusted(request, c) then code == "untrusted_model_resolution"
    else if !SaysSomething(c) then code == "empty_provider_response"
    else if !UsageInRange(request, c) then code == "invalid_provider_accounting"
    else code == "invalid_per_model_accounting"
  }

  lemma {:induction false} TruthfulSlices(p: Provider, slices: seq<Slice>, truthful: seq<Slice>)
    requires |truthful| == |slices|
    requires forall i :: 0 <= i < |slices| ==> truthful[i].usage.costUsdMicros == Billed(p, slices[i].usage.costUsdMicros)
    ensures SliceCost(truthful) == BilledSlices(p, slices)
  {
    if slices != [] {
      assert forall i :: 0 <= i < |slices[1..]| ==> truthful[1..][i] == truthful[i + 1] && slices[1..][i] == slices[i + 1];
      TruthfulSlices(p, slices[1..], truthful[1..]);
    }
  }

  /** The completion as the ledger is handed it: only costs differ, and they are what is billed. */
  lemma TruthfulIs(p: Provider, c: Completion)
    ensures var t := TruthfulCost(p, c);
      && t.providerRequestId == c.providerRequestId && t.resolvedModelId == c.resolvedModelId
      && t.resolutionSource == c.resolutionSource && t.content == c.content
      && t.usage == c.usage.(costUsdMicros := Billed(p, c.usage.costUsdMicros))
      && |t.modelUsage| == |c.modelUsage|
      && (forall i :: 0 <= i < |c.modelUsage| ==>
            t.modelUsage[i] == Slice(c.modelUsage[i].resolvedModelId,
              c.modelUsage[i].usage.(costUsdMicros := Billed(p, c.modelUsage[i].usage.costUsdMicros))))
  {
  }

  lemma RejectionIs(request: Request, c: Completion)
    ensures var rejected := Rejection(request, TruthfulCost(request.route.provider, c));
      && (rejected.None? <==> Sound(request, c))
      && (rejected.Some? ==> CodeOfFirstFailure(request, c, rejected.value))
  {
    var p := request.route.provider;
    var t := TruthfulCost(p, c);
    TruthfulIs(p, c);
    TruthfulSlices(p, c.modelUsage, t.modelUsage);
    NamesIs(c.modelUsage, t.modelUsage, c.resolvedModelId);
  }

  lemma NamesIs(slices: seq<Slice>, truthful: seq<Slice>, model: string)
    requires |truthful| == |slices|
    requires forall i :: 0 <= i < |slices| ==> truthful[i].resolvedModelId == slices[i].resolvedModelId
    ensures Names(truthful, model) <==> exists i :: 0 <= i < |slices| && slices[i].resolvedModelId == model
    ensures Names(truthful, model) ==> truthful != []
  {
    if i :| 0 <= i < |slices| && slices[i].resolvedModelId == model {
      assert truthful[i].resolvedModelId == model;
    }
  }

  // ---- The step that sends the verdict ---------------------------------------------------------

  predicate AnsweredWith(s: System, a: Action, c: Completion) {
    && a.Advance? && a.id in s.calls && s.calls[a.id].pc == Answered(Returned(c))
  }

  /** Nothing in the ledger stands in the way of a verdict: the attempt is still dispatched, the bill is
      within its reservation and does not take spending below zero, and its slices can be recorded. */
  predicate VerdictCanLand(s: System, id: string, c: Completion)
    requires id in s.calls
  {
    var p := s.calls[id].request.route.provider;
    && id in s.ledger.attempts && s.ledger.attempts[id].outcome == Dispatched
    && Billed(p, c.usage.costUsdMicros) <= s.calls[id].request.maxCost
    && s.calls[id].request.scope in s.ledger.accounts
    && 0 <= s.ledger.accounts[s.calls[id].request.scope].spent + Billed(p, c.usage.costUsdMicros)
    && (forall i, j :: 0 <= i < j < |c.modelUsage| ==> c.modelUsage[i].resolvedModelId != c.modelUsage[j].resolvedModelId)
    && (forall i :: 0 <= i < |c.modelUsage| ==>
          && var u := c.modelUsage[i].usage;
             && 0 <= u.inputTokens && 0 <= u.outputTokens && 0 <= u.reasoningTokens
             && 0 <= u.cacheReadTokens && 0 <= u.cacheWriteTokens && 0 <= Billed(p, u.costUsdMicros))
  }

  lemma CanLandIsFits(s: System, a: Action, c: Completion)
    requires SystemInv(s) && AnsweredWith(s, a, c)
    ensures VerdictCanLand(s, a.id, c) <==> VerdictFits(s.ledger, a.id, TruthfulCost(s.calls[a.id].request.route.provider, c))
  {
    var call := s.calls[a.id];
    var t := TruthfulCost(call.request.route.provider, c);
    assert CallInv(call, s.ledger, a.id);
    TruthfulIs(call.request.route.provider, c);
    if VerdictCanLand(s, a.id, c) {
      assert forall i :: 0 <= i < |t.modelUsage| ==> UsageChecks(t.modelUsage[i].usage);
    }
    if Insertable(t.modelUsage) {
      forall i | 0 <= i < |c.modelUsage| ensures UsageChecks(t.modelUsage[i].usage) {
      }
      forall i, j | 0 <= i < j < |c.modelUsage| ensures c.modelUsage[i].resolvedModelId != c.modelUsage[j].resolvedModelId {
        assert t.modelUsage[i].resolvedModelId != t.modelUsage[j].resolvedModelId;
      }
    }
  }

  lemma VerdictOf(s: System, a: Action, c: Completion) returns (op: Op)
    requires AnsweredWith(s, a, c)
    ensures var call := s.calls[a.id];
      && (op.Succeed? || op.Reject?) && op.id == a.id && op.now == a.now
      && op.completion == TruthfulCost(call.request.route.provider, c)
      && Act(s, a) == s.(ledger := Step(s.ledger, op).0, calls := s.calls[a.id := After(s, call, Step(s.ledger, op).1)])
      && (op.Succeed? <==> Sound(call.request, c))
      && (op.Succeed? ==> op.sha == a.sha)
      && (op.Reject? ==> CodeOfFirstFailure(call.request, c, op.code))
  {
    var call := s.calls[a.id];
    op := NextOp(s, a.id, call, a).value;
    RejectionIs(call.request, c);
  }

  /** Only what the answer and the time say is new in the row. */
  predicate AnswerWritten(was: Row, r: Row, c: Completion, now: int) {
    SameIntent(was, r) && Identifies(r, c) && r.dispatchedAt == was.dispatchedAt && r.finalizedAt == Some(now)
  }

  /** Where nothing stands in its way, an answer that passes every check is delivered, with its content and its
      attempt's row, and any other is rejected under the code of the first check it fails; either way the
      attempt is charged what the provider bills. */
  lemma AnswerEnds(s: System, a: Action, c: Completion)
    requires SystemInv(s) && AnsweredWith(s, a, c) && VerdictCanLand(s, a.id, c)
    ensures var call, next := s.calls[a.id], Act(s, a);
      && a.id in next.ledger.attempts && a.id in next.calls && next.calls[a.id].pc.Done?
      && a.id in next.ledger.charged
      && next.ledger.charged[a.id] == Billed(call.request.route.provider, c.usage.costUsdMicros)
      && var row, ending := next.ledger.attempts[a.id], next.calls[a.id].pc.ending;
         && AnswerWritten(s.ledger.attempts[a.id], row, c, a.now)
         && if Sound(call.request, c) then
              ending == Delivered(row, c.content) && row.outcome == Succeeded && row.outputSha256 == Some(a.sha)
            else
              && ending.InvocationError? && CodeOfFirstFailure(call.request, c, ending.message)
              && ending.row == row && row.outcome == Failed && row.failureCode == Some(ending.message)
  {
    var call := s.calls[a.id];
    assert CallInv(call, s.ledger, a.id);
    TruthfulIs(call.request.route.provider, c);
    RejectionIs(call.request, c);
    CanLandIsFits(s, a, c);
    var op := VerdictOf(s, a, c);
    VerdictAcceptedIff(s.ledger, op);
    VerdictWrites(s.ledger, op);
    SettleOutcome(s.ledger, op);
  }

  /** Where something does, nothing is written and the refusal is passed to the catch block. */
  lemma VerdictRefusedText(s: System, a: Action, c: Completion)
    requires SystemInv(s) && AnsweredWith(s, a, c) && !VerdictCanLand(s, a.id, c)
    ensures Act(s, a).ledger == s.ledger && a.id in Act(s, a).calls && Act(s, a).calls[a.id].pc.Refusing?
    ensures var call, message := s.calls[a.id], Act(s, a).calls[a.id].pc.message;
      && (!HasOutcome(s.ledger, a.id, Dispatched) ==>
            message == if Sound(call.request, c) then "attempt cannot succeed" else "attempt cannot reject result")
      && (HasOutcome(s.ledger, a.id, Dispatched) && call.request.maxCost < Billed(call.request.route.provider, c.usage.costUsdMicros) ==>
            message == "actual cost exceeds reservation")
  {
    var call := s.calls[a.id];
    assert CallInv(call, s.ledger, a.id);
    TruthfulIs(call.request.route.provider, c);
    CanLandIsFits(s, a, c);
    var op := VerdictOf(s, a, c);
    VerdictAcceptedIff(s.ledger, op);
    SettleOutcome(s.ledger, op);
  }

  // ---- Every answer delivered, over every run --------------------------------------------------

  /** The call was answered by this step with a sound completion, of which `ending` is the delivery. */
  ghost predicate DeliveredBy(s: System, a: Action, id: string, ending: Ending) {
    && a.Advance? && a.id == id && id in s.calls && s.calls[id].pc.Answered? && s.calls[id].pc.outcome.Returned?
    && var c := s.calls[id].pc.outcome.completion;
       && Sound(s.calls[id].request, c) && ending.Delivered? && ending.content == c.content
       && Identifies(ending.row, c) && ending.row.outcome == Succeeded && ending.row.outputSha256 == Some(a.sha)
  }

  predicate IsDelivered(s: System, id: string) {
    id in s.calls && s.calls[id].pc.Done? && s.calls[id].pc.ending.Delivered?
  }

  lemma StepDelivers(s: System, a: Action, id: string)
    requires SystemInv(s) && IsDelivered(Act(s, a), id) && !IsDelivered(s, id)
    ensures DeliveredBy(s, a, id, Act(s, a).calls[id].pc.ending)
  {
    assert a.Advance? && a.id == id && id in s.calls;
    var call := s.calls[id];
    assert call.pc.Answered? && call.pc.outcome.Returned?;
    var c := call.pc.outcome.completion;
    if VerdictCanLand(s, id, c) {
      AnswerEnds(s, a, c);
    } else {
      VerdictRefusedText(s, a, c);
    }
  }

  lemma DeliveredStays(s: System, a: Action, id: string)
    requires IsDelivered(s, id)
    ensures IsDelivered(Act(s, a), id) && Act(s, a).calls[id].pc.ending == s.calls[id].pc.ending
  {
  }

  /** Whatever runs beside it: an answer is delivered only if the model asked for gave it, its source is one
      the route allows, it has a request id and content, its usage and its bill are in range and its slices
      name the model and add up; and what is delivered is that answer. */
  lemma {:induction false} DeliveredAnswersAreSound(adapters: set<Provider>, actions: seq<Action>, id: string)
    requires IsDelivered(Play(Fresh(adapters), actions), id)
    ensures var ending := Play(Fresh(adapters), actions).calls[id].pc.ending;
      exists i :: 0 <= i < |actions| && DeliveredBy(Play(Fresh(adapters), actions[..i]), actions[i], id, ending)
  {
    if actions != [] {
      var before, last := actions[..|actions| - 1], actions[|actions| - 1];
      var s := Play(Fresh(adapters), before);
      FreshKept(adapters);
      PlayKept(Fresh(adapters), before);
      if IsDelivered(s, id) {
        DeliveredStays(s, last, id);
        DeliveredAnswersAreSound(adapters, before, id);
        var i :| 0 <= i < |before| && DeliveredBy(Play(Fresh(adapters), before[..i]), before[i], id, s.calls[id].pc.ending);
        assert actions[..i] == before[..i] && actions[i] == before[i];
      } else {
        StepDelivers(s, last, id);
      }
    }
  }

  // ---- The other steps -------------------------------------------------------------------------

  /** The first step asks for a reservation of exactly what the request says. */
  lemma FirstStep(s: System, a: Action)
    requires SystemInv(s) && a.Advance? && a.id in s.calls && s.calls[a.id].pc == Prepared
    ensures var call, next := s.calls[a.id], Act(s, a);
      && a.id in next.calls && next.adapters == s.adapters && next.absent == s.absent && next.invocations == s.invocations
      && if call.request.key in s.ledger.byKey then
           && next.ledger == s.ledger && s.ledger.byKey[call.request.key] in s.ledger.attempts
           && var row := s.ledger.attempts[s.ledger.byKey[call.request.key]];
              next.calls[a.id].pc == Done(
                if row.requestHash == call.hash then InvocationError("attempt already exists", row) else LedgerThrew(IntentMismatch))
         else if next.calls[a.id].pc == AfterReserve then
           && next.calls[a.id].created && next.calls[a.id].request == call.request
           && a.id in next.ledger.attempts
           && var r := next.ledger.attempts[a.id];
              && r.outcome == Reserved && r.key == call.request.key && r.requestHash == call.hash
              && r.route == call.request.route && r.scope == call.request.scope && r.reservedCost == call.request.maxCost
         else next.calls[a.id].pc.Done? && next.calls[a.id].pc.ending.LedgerThrew? && next.ledger == s.ledger
  {
    var call := s.calls[a.id];
    var attempt := Attempt(a.id, call);
    assert CallInv(call, s.ledger, a.id);
    if call.request.key in s.ledger.byKey {
      ReserveReplays(s.ledger, attempt);
    } else {
      OwnReserve(call, s.ledger, a.id);
      if Step(s.ledger, Reserve(attempt)).1.Accepted? {
        ReserveWrites(s.ledger, attempt);
      }
    }
  }

  /** The second sends the attempt, or fails it when no adapter serves its provider. */
  lemma SecondStep(s: System, a: Action)
    requires SystemInv(s) && a.Advance? && a.id in s.calls && s.calls[a.id].pc == AfterReserve
    ensures var call, next := s.calls[a.id], Act(s, a);
      && a.id in next.calls && a.id in next.ledger.attempts && next.absent == s.absent && next.invocations == s.invocations
      && var r := next.ledger.attempts[a.id];
         if call.request.route.provider in s.adapters then
           next.calls[a.id].pc == AfterDispatch && r.outcome == Dispatched && r.dispatchedAt == Some(a.now)
         else
           && next.calls[a.id].pc == Done(InvocationError("provider unavailable", r))
           && r.outcome == Failed && r.failureCode == Some("provider_unavailable") && r.providerRequestId.None?
           && Moved(s.ledger, next.ledger, call.request.scope, -call.request.maxCost, 0)
  {
    assert CallInv(s.calls[a.id], s.ledger, a.id) && RowInv(s.ledger, a.id);
    var op := NextOp(s, a.id, s.calls[a.id], a).value;
    if op.Fail? {
      FailWrites(s.ledger, op);
    } else {
      DispatchWrites(s.ledger, a.id, a.now);
    }
  }

  /** The third invokes the adapter, once. */
  lemma ThirdStep(s: System, a: Action)
    requires a.Advance? && a.id in s.calls && s.calls[a.id].pc == AfterDispatch
    ensures var call, next := s.calls[a.id], Act(s, a);
      && next.ledger == s.ledger && next.absent == s.absent && next.adapters == s.adapters
      && next.calls == s.calls[a.id := call.(pc := Answered(a.outcome), invoked := true)]
      && next.invocations == s.invocations[call.request.key :=
           (if call.request.key in s.invocations then s.invocations[call.request.key] else 0) + 1]
  {
  }

  /** How a failure of the adapter ends: unknown unless the adapter says that it is known and names no request;
      and only a model reported absent takes its provider out of the offer. */
  lemma FailureEnds(s: System, a: Action)
    requires SystemInv(s) && a.Advance? && a.id in s.calls
    requires s.calls[a.id].pc.Answered? && !s.calls[a.id].pc.outcome.Returned?
    requires HasOutcome(s.ledger, a.id, Dispatched)
    ensures var call, next := s.calls[a.id], Act(s, a);
      && a.id in next.ledger.attempts && a.id in next.calls
      && var r := next.ledger.attempts[a.id];
         && r.finalizedAt == Some(a.now)
         && match call.pc.outcome
            case ManagedError(code, unknown, requestId) =>
              && next.calls[a.id].pc == Done(InvocationError(code, r))
              && r.outcome == (if unknown || requestId.Some? then OutcomeUnknown else Failed)
              && Cut(r.failureCode, code) && r.providerRequestId == requestId
              && next.absent == s.absent + (if code == "model_absent" then {call.request.route.provider} else {})
            case OtherError(message) =>
              && next.calls[a.id].pc == Done(InvocationError(message, r))
              && r.outcome == OutcomeUnknown && Cut(r.failureCode, message) && r.providerRequestId.None?
              && next.absent == s.absent
  {
    assert CallInv(s.calls[a.id], s.ledger, a.id);
    FailWrites(s.ledger, NextOp(s, a.id, s.calls[a.id], a).value);
  }

  /** How a refused verdict ends: unknown, under the refusal's text and without the request id. */
  lemma RefusalEnds(s: System, a: Action)
    requires SystemInv(s) && a.Advance? && a.id in s.calls && s.calls[a.id].pc.Refusing?
    requires HasOutcome(s.ledger, a.id, Dispatched)
    ensures var call, next := s.calls[a.id], Act(s, a);
      && a.id in next.ledger.attempts && a.id in next.calls && next.absent == s.absent
      && next.ledger.accounts == s.ledger.accounts && next.ledger.charged == s.ledger.charged
      && var r := next.ledger.attempts[a.id];
         && next.calls[a.id].pc == Done(InvocationError(call.pc.message, r))
         && r.outcome == OutcomeUnknown && Cut(r.failureCode, call.pc.message) && r.providerRequestId.None?
  {
    assert CallInv(s.calls[a.id], s.ledger, a.id);
    FailWrites(s.ledger, NextOp(s, a.id, s.calls[a.id], a).value);
  }

  /** A failure or a refused verdict that comes after the reaper or the reconciler has finalized the attempt changes
      nothing, and the call ends with the ledger's own error. */
  lemma TooLateToFail(s: System, a: Action)
    requires SystemInv(s) && a.Advance? && a.id in s.calls
    requires var pc := s.calls[a.id].pc; pc.Refusing? || (pc.Answered? && !pc.outcome.Returned?)
    requires !HasOutcome(s.ledger, a.id, Dispatched)
    ensures var next := Act(s, a);
      && next.ledger == s.ledger && next.absent == s.absent
      && a.id in next.calls && next.calls[a.id].pc == Done(LedgerThrew(AlreadyFinalized))
  {
    assert CallInv(s.calls[a.id], s.ledger, a.id);
    FailOutcome(s.ledger, NextOp(s, a.id, s.calls[a.id], a).value);
  }

  /** A gateway starts with its adapters, an empty ledger and nothing remembered. */
  lemma FreshIs(adapters: set<Provider>)
    ensures var s := Fresh(adapters);
      && s.adapters == adapters && s.absent == {} && s.calls == map[] && s.invocations == map[]
      && s.ledger.accounts == map[] && s.ledger.attempts == map[] && s.ledger.byKey == map[] && SameBooks(EmptyDb, s.ledger)
  {
  }

  /** Everything that is not a call's own step: a call begins under an id of its own, or dies; the reaper, the
      reconciler and the opening of a budget run one transaction each. */
  lemma OtherActions(s: System, a: Action)
    requires !a.Advance?
    ensures var next := Act(s, a);
      && next.adapters == s.adapters && next.absent == s.absent && next.invocations == s.invocations
      && match a
         case Begin(id, request, hash) =>
           && next.ledger == s.ledger
           && next.calls == (if id in s.calls || id in s.ledger.attempts then s.calls
                             else s.calls[id := Call(request, hash, Prepared, false, false)])
         case Crash(id) =>
           && next.ledger == s.ledger && next.calls.Keys == s.calls.Keys
           && forall other :: other in s.calls ==>
                next.calls[other] == if other == id && !s.calls[id].pc.Done? then s.calls[id].(pc := Crashed) else s.calls[other]
         case Reap(olderThanMs, now) => next.calls == s.calls && next.ledger == Step(s.ledger, Reclaim(olderThanMs, now)).0
         case WriteOff(id, reason, evidence, now) =>
           next.calls == s.calls && next.ledger == Step(s.ledger, Reconcile(id, reason, evidence, now)).0
         case OpenScope(scope, maxCost) => next.calls == s.calls && next.ledger == Step(s.ledger, OpenAccount(scope, maxCost)).0
  {
  }
}
