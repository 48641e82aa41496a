/** AiGateway.execute() as interleaved steps over one ledger, with the reaper and the reconciler. */
module Gateway {
  import opened Common
  import opened Routes
  import opened Ledger
  import opened LedgerSafety
  import opened LedgerHistory
  import Text

  datatype Request = Request(
    key: string,
    scope: string,
    taskClass: TaskClass,
    maxCost: int,
    route: Route)

  /** What awaiting the adapter ends with. A managed error says itself whether the outcome is known. */
  datatype AdapterOutcome =
    | Returned(completion: Completion)
    | ManagedError(code: string, outcomeUnknown: bool, requestId: Option<string>)
    | OtherError(message: string)

  datatype Ending =
    | Delivered(row: Row, content: string)
    | InvocationError(message: string, row: Row)
    | LedgerThrew(error: LedgerError)

  /** Where one execute() stands between two awaits. */
  datatype Pc =
    | Prepared
    | AfterReserve
    | AfterDispatch
    | Answered(outcome: AdapterOutcome)
    | Refusing(message: string)
    | Done(ending: Ending)
    | Crashed

  /** `id` keys the call: it is the random id of the attempt it may create. */
  datatype Call = Call(request: Request, hash: string, pc: Pc, created: bool, invoked: bool)

  datatype System = System(
    ledger: Db,
    calls: map<string, Call>,
    adapters: set<Provider>,
    absent: set<Provider>,
    invocations: map<string, nat>)

  datatype Action =
    | Begin(id: string, request: Request, hash: string)
    | Advance(id: string, outcome: AdapterOutcome, sha: string, now: int)
    | Crash(id: string)
    | Reap(olderThanMs: int, now: int)
    | WriteOff(id: string, reason: string, evidence: string, now: int)
    | OpenScope(scope: string, maxCost: int)

  const MODEL_ABSENT := "model_absent"

  predicate Metered(p: Provider) {
    p == DeepSeek
  }

  /** withTruthfulCost(): a subscription provider's notional cost is dropped, its tokens are kept. */
  function TruthfulCost(p: Provider, c: Completion): Completion {
    if Metered(p) then c
    else
      c.(usage := c.usage.(costUsdMicros := 0),
         modelUsage := seq(|c.modelUsage|, i requires 0 <= i < |c.modelUsage| =>
           c.modelUsage[i].(usage := c.modelUsage[i].usage.(costUsdMicros := 0))))
  }

  predicate Names(slices: seq<Slice>, modelId: string) {
    exists i :: 0 <= i < |slices| && slices[i].resolvedModelId == modelId
  }

  /** The validation of a completion: the rejection code, or None for an answer to keep. */
  function Rejection(request: Request, c: Completion): Option<string> {
    if c.resolvedModelId != request.route.requestedModelId then Some("resolved_model_mismatch")
    else if c.resolutionSource.PinnedRequest? && request.route.provider != Codex then Some("untrusted_model_resolution")
    else if c.providerRequestId == "" || Text.Blank(c.content) then Some("empty_provider_response")
    else if c.usage.inputTokens < 0 || c.usage.outputTokens < 0 || c.usage.costUsdMicros < 0
         || request.maxCost < c.usage.costUsdMicros then Some("invalid_provider_accounting")
    else if c.modelUsage == [] || !Names(c.modelUsage, c.resolvedModelId)
         || SliceCost(c.modelUsage) != c.usage.costUsdMicros then Some("invalid_per_model_accounting")
    else None
  }

  function Attempt(id: string, call: Call): NewAttempt {
    NewAttempt(id, call.request.key, call.hash, call.request.route, call.request.scope, call.request.maxCost)
  }

  /** The settlement a returned completion asks the ledger for. */
  function Verdict(id: string, call: Call, raw: Completion, sha: string, now: int): Op {
    var c := TruthfulCost(call.request.route.provider, raw);
    match Rejection(call.request, c)
    case Some(code) => Reject(id, c, code, now)
    case None => Succeed(id, c, sha, now)
  }

  /** The text of a ledger error; only its presence matters to the protocol. */
  function Message(e: LedgerError): string {
    match e
    case CannotSucceed => "attempt cannot succeed"
    case CannotReject => "attempt cannot reject result"
    case CostExceedsReservation => "actual cost exceeds reservation"
    case ReservationMissing => "budget reservation missing"
    case _ => "provider failure"
  }

  /** The fail() of the catch block, for an error the adapter threw. */
  function FailureOf(id: string, outcome: AdapterOutcome, now: int): Op
    requires !outcome.Returned?
  {
    match outcome
    case ManagedError(code, unknown, requestId) => Fail(id, code, unknown || requestId.Some?, requestId, now)
    case OtherError(message) => Fail(id, message, true, None, now)
  }

  function ErrorText(outcome: AdapterOutcome): string
    requires !outcome.Returned?
  {
    match outcome
    case ManagedError(code, _, _) => code
    case OtherError(message) => message
  }

  /** The ledger transaction the next step of a call performs, if it performs one. */
  function NextOp(s: System, id: string, call: Call, a: Action): Option<Op>
    requires a.Advance?
  {
    match call.pc
    case Prepared => Some(Reserve(Attempt(id, call)))
    case AfterReserve =>
      Some(if call.request.route.provider in s.adapters then MarkDispatched(id, a.now)
           else Fail(id, "provider_unavailable", false, None, a.now))
    case Answered(outcome) =>
      Some(if outcome.Returned? then Verdict(id, call, outcome.completion, a.sha, a.now)
           else FailureOf(id, outcome, a.now))
    case Refusing(message) => Some(Fail(id, message, true, None, a.now))
    case _ => None
  }

  /** Where the reply of that transaction takes the call. */
  function After(s: System, call: Call, reply: Reply): Call {
    match call.pc
    case Prepared =>
      (match reply
       case Accepted(_) => call.(pc := AfterReserve, created := true)
       case Replayed(row) => call.(pc := Done(InvocationError("attempt already exists", row)))
       case Refused(e) => call.(pc := Done(LedgerThrew(e)))
       case _ => call)
    case AfterReserve =>
      (match reply
       case Dispatch => call.(pc := AfterDispatch)
       case Accepted(row) => call.(pc := Done(InvocationError("provider unavailable", row)))
       case Refused(e) => call.(pc := Done(LedgerThrew(e)))
       case _ => call)
    case Answered(outcome) =>
      (match reply
       case Accepted(row) =>
         if !outcome.Returned? then call.(pc := Done(InvocationError(ErrorText(outcome), row)))
         else
           var rejected := Rejection(call.request, TruthfulCost(call.request.route.provider, outcome.completion));
           call.(pc := Done(if rejected.Some? then InvocationError(rejected.value, row)
                           else Delivered(row, outcome.completion.content)))
       case Refused(e) =>
         call.(pc := if outcome.Returned? then Refusing(Message(e)) else Done(LedgerThrew(e)))
       case _ => call)
    case Refusing(message) =>
      (match reply
       case Accepted(row) => call.(pc := Done(InvocationError(message, row)))
       case Refused(e) => call.(pc := Done(LedgerThrew(e)))
       case _ => call)
    case _ => call
  }

  function Count(invocations: map<string, nat>, key: string): nat {
    if key in invocations then invocations[key] else 0
  }

  /** A provider whose CLI said "model absent" is remembered and no longer offered. */
  function NowAbsent(s: System, call: Call, reply: Reply): set<Provider> {
    if call.pc.Answered? && call.pc.outcome.ManagedError? && call.pc.outcome.code == MODEL_ABSENT && reply.Accepted?
    then s.absent + {call.request.route.provider}
    else s.absent
  }

  function AdvanceCall(s: System, a: Action): System
    requires a.Advance? && a.id in s.calls
  {
    var call := s.calls[a.id];
    if call.pc.AfterDispatch? then
      s.(calls := s.calls[a.id := call.(pc := Answered(a.outcome), invoked := true)],
         invocations := s.invocations[call.request.key := Count(s.invocations, call.request.key) + 1])
    else
      match NextOp(s, a.id, call, a)
      case None => s
      case Some(op) =>
        var (db, reply) := Step(s.ledger, op);
        s.(ledger := db, calls := s.calls[a.id := After(s, call, reply)], absent := NowAbsent(s, call, reply))
  }

  function Act(s: System, a: Action): System {
    match a
    case Begin(id, request, hash) =>
      // A random id never repeats.
      if id in s.calls || id in s.ledger.attempts then s
      else s.(calls := s.calls[id := Call(request, hash, Prepared, false, false)])
    case Advance(id, _, _, _) => if id in s.calls then AdvanceCall(s, a) else s
    case Crash(id) => if id in s.calls && !s.calls[id].pc.Done? then s.(calls := s.calls[id := s.calls[id].(pc := Crashed)]) else s
    case Reap(olderThanMs, now) => s.(ledger := Step(s.ledger, Reclaim(olderThanMs, now)).0)
    case WriteOff(id, reason, evidence, now) => s.(ledger := Step(s.ledger, Reconcile(id, reason, evidence, now)).0)
    case OpenScope(scope, maxCost) => s.(ledger := Step(s.ledger, OpenAccount(scope, maxCost)).0)
  }

  function Play(s: System, actions: seq<Action>): System {
    if actions == [] then s else Act(Play(s, actions[..|actions| - 1]), actions[|actions| - 1])
  }

  function Fresh(adapters: set<Provider>): System {
    System(EmptyDb, map[], adapters, {}, map[])
  }
}
