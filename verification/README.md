# Proofs about the orchestrator's budget, routing, streaming and coordination logic

This project models the parts of the repository whose correctness rests on more than one function, and
proves what they promise over every run, every interleaving and every input.

- **Budget ledger** (`Ledger`, `PostgresLedger`, `LedgerSafety`, `LedgerHistory`, `LedgerRows`, `LedgerUsage`).
  Accounts and attempts as the database holds them. Each SQL transaction is one step; any number of gateway
  calls, the reaper and the reconciler interleave. `PostgresLedger.AttemptLedger` is the class itself, statement by statement with its
  rollbacks, and every method is proved equal to the corresponding `Ledger.Step`. `MemoryLedger` holds the
  in-memory twin, `LedgerSimulation` and `LedgerUsage` relate the two, and `LedgerRows` says field by field what every
  call writes in either.
- **Gateway** (`Gateway`, `GatewaySafety`, `GatewayAnswers`, `GatewayWriteOff`, `GatewayBilling`).
  `AiGateway.execute()` as steps between awaits, with a crash or any adapter outcome in between, over the ledger; and what becomes, over every
  continuation, of an answer the ledger cannot accept.
- **Escalation and policy** (`Routes`, `Escalation`, `EscalationBound`, `EscalationAvailability`, `Policy`,
  `PolicyBound`). The walk over the static chain, its tight bound, also when availability changes between attempts, the policy
  validator, the permission rules, the resolver, and how often a route is asked when policies change on the way.
- **Streams** (`Text`, `EventStream`, `LineStream`, `ReplyStream`, `ReplySteps`, `ReplyStreamSafety`). Two
  incremental readers against one pass over the whole text, and the pipeline from the coalescing writer through the chunk
  table and the stream route to a reconnecting browser.
- **Canonical text** (`Canonical`, `JsonParser`, `KeyOrder`, `KeyReversal`, `KeyTies`, `Evidence`). The digest preimage of a JSON value over
  UTF-16 code units, a parser (RFC 8259 sections 4 to 7, without insignificant white space) that inverts it, and
  evidence rows.
- **Resources** (`Capacity`, `CapacityReservations`, `Ranking`, `SequenceLease`). Reservations under limits,
  fencing, ranking, the single supervisor lease and the supervisor's cycle.
- **Patches and conversations** (`Workspace`, `PathGuard`, `PatchScope`, `Conversation`,
  `ConversationHistory`).
- `Common` and `Sums` hold shared datatypes and finite sums.

Conventions. Money, tokens and versions are integers; times are integers and, unless a contract says
otherwise, arbitrary. Hashes are injective functions or their preimages; `localeCompare` is a comparator
parameter that may call different keys or ids equal; adapters, verifiers, the formatter, git's ignore rules and
clocks are parameters or arbitrary values carried by each step. Strings are sequences of characters except in
`Canonical`, where they are sequences of UTF-16 code units so that lone surrogates exist.

Where a promised property does not hold of the code, the code is kept and the exact condition is proved:

- `Capacity.RetryAcceptedIff`: a retried reservation is a replay only if the request was queued at the very
  millisecond it was reserved and lists its properties in the order a row is read back in; otherwise it is
  refused as a mismatch.
- `KeyReversal.IgnoresKeyOrderIff`, `Evidence.EveryOrderAcceptedIff`: the evidence digest of a payload ignores the
  order of its keys exactly if, within each object, the comparator tells the keys apart; `localeCompare` calls
  canonically equivalent strings equal. `KeyTies.SameTextIff` and `Evidence.AcceptedIff` say for every pair of
  values when the texts agree. The blueprint digest needs no such condition.
- `Ranking.RankingIgnoresInputOrderIff`: the ranking depends on the input order exactly if two eligible requests
  agree in score and queue time and have ids the comparator calls equal.
- `LineStream.CutIndependentIff`: the line cap changes what is delivered exactly when a line exceeds it.
- `EscalationBound.SilentTierRetriedIff`: the comment beside `nextStaticTier` promises each silent tier one
  retry; what counts is the parity of all silent attempts so far. Another comment speaks of five tiers where
  the chain has four.
- `GatewayWriteOff.AnswerCanBeWrittenOffIff`: the reconciler's guard is meant to keep a billed attempt from
  being written off. Until its verdict every answered attempt can be (the reaper may come first), and
  afterwards exactly if the verdict did not fit: the attempt was no longer dispatched, it cost more than its
  reservation, its negative cost would take the account's spending below zero, or its slices name a model
  twice or hold a negative count. In all of these the provider request id is never stored.
- `LedgerHistory.ItemisedIffAccounted`, `LedgerUsage.UsageAgreesIff`: usage events add up to the charge, and the
  usage read back agrees with the in-memory twin's, only if the completion's own slices add up.
- `LedgerSimulation.LedgersIndistinguishable`: the two ledgers refuse an unknown attempt under different names.
- `Workspace.RevertIsCleanIff`, `Workspace.WorkspaceStaysCleanIff`,
  `Workspace.RejectedFileCanBeCommittedLater`: a revert leaves the worktree clean exactly if every untracked file
  it spares as ignored is still ignored by the ignore files that are themselves tracked or spared; a file
  that is left behind is committed by the next accepted patch.
- `Policy.SilenceChangesNothing`: the one retry of the static walk has no counterpart under an active policy,
  where a silent route is selected again without bound while the record and the availability stay the same.
- `Workspace.VerifyIsWorktreeIff`: the verification directory keeps files the worktree no longer has.
- `PathGuard.DirectoryEntryOwnsBelow`: a `dir/**` entry also lets `dir/` itself through.
- `PatchScope.OnlyHeadersCount`: lines that are not headers of the one form the check reads change nothing,
  whatever they name.
- `PatchScope.HeaderReadsNameIff`: a name that holds ` b/` is read back as two other names.
- `ConversationHistory.OrdinalsAgreeIff`, `ConversationHistory.RepliesAgreeIff`,
  `ConversationHistory.ReplayIgnoresVersion`: the two conversation stores give different ordinals after a rename
  or an archiving, and answer an append under a recorded key differently exactly when it repeats the draft
  with another expected version.

## Model

| member | source | states |
|---|---|---|
| PostgresLedger.AttemptLedger.Reserve | src/gateway/postgres-ledger.ts:76-127 | the transaction, statement by statement with rollback, has the effect and reply of the ledger's reserve step, and a refusal changes nothing |
| PostgresLedger.AttemptLedger.MarkDispatched | src/gateway/postgres-ledger.ts:128-134 | only a reserved attempt is marked dispatched; otherwise nothing changes |
| PostgresLedger.AttemptLedger.ChargeAccount | src/gateway/postgres-ledger.ts:390-403 | the guarded account update moves the whole reservation out and the actual cost in, or reports which guard refused |
| PostgresLedger.AttemptLedger.Succeed | src/gateway/postgres-ledger.ts:135-181 | charge, usage rows and verdict row commit together or not at all |
| PostgresLedger.AttemptLedger.Reject | src/gateway/postgres-ledger.ts:182-229 | as succeed, ending failed with the code truncated |
| PostgresLedger.AttemptLedger.Fail | src/gateway/postgres-ledger.ts:230-267 | an unfinalized attempt ends failed, giving its reservation back, or unknown, keeping it |
| PostgresLedger.AttemptLedger.ReclaimStranded | src/gateway/postgres-ledger.ts:291-299 | exactly the attempts dispatched before the horizon become unknown |
| PostgresLedger.AttemptLedger.ReconcileUnknownAsFailed | src/gateway/postgres-ledger.ts:300-342 | an unknown attempt without provider request id and with well-formed evidence is failed and its reservation released, else nothing changes |
| LedgerSafety.StepKept | src/gateway/postgres-ledger.ts:76-342 | every transaction keeps the invariant tying accounts to attempts, keys, charges and reconciliations |
| LedgerSafety.BudgetConservation | src/gateway/postgres-ledger.ts:76-403 | after any sequence of transactions a scope's reserved total is the sum of its held reservations, its spent total the sum of its charges, and together they stay within the cap |
| LedgerSafety.ReservationCovered | src/gateway/postgres-ledger.ts:240-258 | an account always covers every reservation it holds, which is why the unguarded decrement is safe |
| LedgerHistory.GuardsNeverFire | src/gateway/postgres-ledger.ts:76-403 | in reachable states the row-count guard of charge() never fires, a CHECK constraint rejects only a negative amount or count, and a PRIMARY KEY only a repeated id or model, for every transaction; fail, reclaim, dispatch and reconcile meet neither |
| LedgerHistory.VerdictAcceptedIff | src/gateway/postgres-ledger.ts:135-229 | a verdict is accepted if and only if its attempt is dispatched, its cost is within the reservation and keeps spending at or above zero, and its slices name distinct models with no negative count |
| LedgerHistory.SettleOutcome | src/gateway/postgres-ledger.ts:135-229 | a verdict is accepted only on a dispatched attempt, and refused otherwise under the right name with nothing changed; what it writes is `LedgerRows.SucceedWrites` and `RejectWrites` |
| LedgerHistory.FailOutcome | src/gateway/postgres-ledger.ts:230-267 | fail always succeeds on an unfinalized attempt and never on a finalized one |
| LedgerHistory.SettledStays | src/gateway/postgres-ledger.ts:128-342 | succeeded and failed attempts and their charges are never touched again |
| LedgerHistory.UnknownLeavesByReconciliation | src/gateway/postgres-ledger.ts:300-342 | an unknown outcome leaves only by reconciliation, only without a provider request id, returning exactly its reservation |
| LedgerHistory.ReleasedExactlyOnce | src/gateway/postgres-ledger.ts:230-342 | over any run an attempt gives its reservation back once if it ends settled and never otherwise |
| LedgerHistory.CreatedAtMostOnce | src/gateway/postgres-ledger.ts:76-127 | over any run an idempotency key creates one attempt if it is taken and none if not |
| LedgerHistory.RefusedOnlyWithoutRoom | src/gateway/postgres-ledger.ts:95-100 | a new reservation is refused for budget exactly when it does not fit under the cap |
| LedgerHistory.EveryAttemptFundable | src/gateway/postgres-ledger.ts:95-100 | a cap of n times r funds one more attempt of at most r while fewer than n attempts of at most r exist in the scope, whatever became of those and however many calls were replays or refusals |
| LedgerHistory.GenerationTaskFunded | src/factory/generation-task.ts:255-293 | with the generation numbers no reservation is refused for budget as long as at most ten keys are used, however often any of them is delivered |
| LedgerHistory.ItemisedIffAccounted | src/gateway/postgres-ledger.ts:135-229 | usage events sum to the charge exactly when the completion's slices sum to its total |
| LedgerRows.ReserveReplays | src/gateway/postgres-ledger.ts:76-94 | a key already taken is answered with its attempt if the request hash is the same and refused otherwise, and nothing is written |
| LedgerRows.ReserveWrites | src/gateway/postgres-ledger.ts:95-127 | an accepted reservation writes one row with exactly the fields of the attempt and no answer, takes its key and reserves its cost |
| LedgerRows.ReserveAcceptedIff | src/gateway/postgres-ledger.ts:95-127 | a new attempt is accepted if and only if its scope has room for its nonnegative cost and its id is new |
| LedgerRows.DispatchWrites | src/gateway/postgres-ledger.ts:128-134 | dispatch sets outcome and time of a reserved row and nothing else |
| LedgerRows.SucceedWrites | src/gateway/postgres-ledger.ts:135-181 | field by field: outcome, the three identity columns of the completion, digest and time; all else as before; the charge, the account and one usage row per slice |
| LedgerRows.RejectWrites | src/gateway/postgres-ledger.ts:182-229 | the same for a rejection, ending failed with the code cut at 500 characters |
| LedgerRows.FailWrites | src/gateway/postgres-ledger.ts:230-267 | the outcome by whether it is known, the cut code, the given request id; the reservation returned exactly when known |
| LedgerRows.ReclaimWrites | src/gateway/postgres-ledger.ts:291-299 | within the horizon's limits exactly the rows sent long enough ago become unknown, with the standing code; others stay |
| LedgerRows.ReconcileWritesIff | src/gateway/postgres-ledger.ts:300-342 | an attempt is written off if and only if it is unknown, names no request and the evidence is 64 lower-case hexadecimal digits; then outcome, cut reason, time, reservation and evidence are written |
| LedgerRows.OpenWrites | src/factory/generation-task.ts:268-274 | a budget is opened once, with its cap and nothing in it |
| MemoryLedger.MemoryAttemptLedger.Reserve | src/gateway/memory-ledger.ts:27-38 | replays the same intent, refuses another, else creates, as the twin's step says |
| MemoryLedger.MemoryAttemptLedger.MarkDispatched | src/gateway/memory-ledger.ts:39-45 | only a reserved attempt is dispatched, and the time is kept aside |
| MemoryLedger.MemoryAttemptLedger.Succeed | src/gateway/memory-ledger.ts:46-64 | only a dispatched attempt succeeds, with all identity fields and the completion's total usage written |
| MemoryLedger.MemoryAttemptLedger.Reject | src/gateway/memory-ledger.ts:65-79 | only a dispatched attempt is rejected, keeping the provider's identity and the total usage |
| MemoryLedger.MemoryAttemptLedger.Fail | src/gateway/memory-ledger.ts:80-98 | only an unfinalized attempt fails, as failed or unknown |
| MemoryLedger.MemoryAttemptLedger.ReclaimStranded | src/gateway/memory-ledger.ts:110-131 | the loop settles exactly the stranded attempts and returns exactly their ids, in whatever order it visits them |
| LedgerRows.MemoryReserves | src/gateway/memory-ledger.ts:27-38 | replay, refusal or a new row with exactly the fields of the attempt |
| LedgerRows.MemorySends | src/gateway/memory-ledger.ts:39-45 | only the outcome of a reserved attempt, and the time kept aside |
| LedgerRows.MemorySettles | src/gateway/memory-ledger.ts:46-79 | field by field what a verdict writes: outcome, identity, digest or whole code, time and total usage |
| LedgerRows.MemoryFails | src/gateway/memory-ledger.ts:80-98 | outcome, whole code and time, keeping the request id when none is given |
| LedgerRows.MemoryReclaims | src/gateway/memory-ledger.ts:110-131 | exactly the attempts sent long enough ago become unknown under the standing code |
| LedgerSimulation.StepSimulates | src/gateway/memory-ledger.ts:27-131 | on related states the two ledgers answer one call alike and stay related exactly when the database has no money or constraint to refuse with |
| LedgerSimulation.AffordableIsNeverRefused | src/gateway/postgres-ledger.ts:76-299 | conditions a caller can check before a call rule such refusals out |
| LedgerSimulation.UnknownIdRefusedByBoth | src/gateway/memory-ledger.ts:139-143 | a call on an unknown attempt is refused by both, leaving both unchanged |
| LedgerSimulation.LedgersIndistinguishable | src/gateway/memory-ledger.ts:27-131 | over any affordable run, calls on unknown attempts included, the next observation is the same from both ledgers if and only if it does not name an attempt they do not know |
| LedgerUsage.SettledUsage | src/gateway/postgres-ledger.ts:61-73 | the database reads a settled attempt back with the field-by-field sums of its completion's slices, and with no usage if it had none |
| LedgerUsage.UsageAgreesIff | src/gateway/memory-ledger.ts:46-79 | over any affordable run an attempt is read back with the same usage from both ledgers if and only if the completion it was settled with, if any, has slices that add up to its totals |
| GatewaySafety.PlayKept | src/gateway/gateway.ts:56-237 | every interleaving of calls, crashes, reaping and reconciliation keeps the joint invariant of calls and ledger |
| GatewaySafety.AdapterInvokedAtMostOnce | src/gateway/gateway.ts:93-134 | over any number of concurrent calls a key reaches an adapter at most once |
| GatewaySafety.FinishedCallsAreFinalized | src/gateway/gateway.ts:93-236 | a finished call that created its attempt leaves it finalized, its reservation held exactly when the outcome is unknown |
| GatewaySafety.DeliveredMeansSucceeded | src/gateway/gateway.ts:139-189 | an answer is delivered only for an attempt that succeeded, was charged within the request's maximum, and still shows that row |
| GatewayAnswers.DeliveredAnswersAreSound | src/gateway/gateway.ts:134-189 | over every interleaving a delivered answer came from the model asked for and a source the route allows, has a request id and content, usage and bill in range and slices that name the model and add up; and what is delivered is that content and its row |
| GatewayAnswers.AnswerEnds | src/gateway/gateway.ts:139-189 | where nothing stands in the verdict's way, an answer passing every check is delivered and any other rejected under the code of the first check it fails, charged what its provider bills: the reported cost for DeepSeek, nothing for Codex and Claude |
| GatewayAnswers.VerdictRefusedText | src/gateway/postgres-ledger.ts:390-403 | where something does, nothing is written and the call is left with the text of the refusal |
| GatewayAnswers.FirstStep | src/gateway/gateway.ts:77-107 | the reservation asks for exactly the key, hash, route, scope and maximum of the request, or the call ends with the attempt that has the key |
| GatewayAnswers.SecondStep | src/gateway/gateway.ts:108-117 | the attempt is sent, or without an adapter failed and its reservation returned |
| GatewayAnswers.ThirdStep | src/gateway/gateway.ts:118-153 | the adapter is invoked once |
| GatewayAnswers.FailureEnds | src/gateway/gateway.ts:190-236 | an adapter failure ends unknown unless the adapter says that it is known and names no request; only a model reported absent takes its provider out of the offer |
| GatewayAnswers.RefusalEnds | src/gateway/gateway.ts:190-236 | a refused verdict ends unknown under its text, without request id, nothing spent |
| GatewayAnswers.TooLateToFail | src/gateway/gateway.ts:205-236 | a failure that comes after the reaper or the reconciler changes nothing and ends with the ledger's own error |
| GatewayAnswers.OtherActions | src/gateway/gateway.ts:56-237 | a call begins under an id of its own or dies; reaping, writing off and opening a budget are one transaction each and touch no call |
| GatewayAnswers.FreshIs | src/gateway/gateway.ts:43-55 | a gateway starts with its adapters and nothing remembered |
| GatewaySafety.AdvanceProgresses | src/gateway/gateway.ts:56-237 | every step of a live call strictly approaches its end |
| GatewaySafety.OverCostEndsUnknown | src/gateway/gateway.ts:161-236 | a completion dearer than its reservation is refused without a trace and, when nothing comes between, the catch block records an unknown outcome with nothing spent |
| GatewaySafety.OverCostCanBeWrittenOff | src/gateway/postgres-ledger.ts:300-342 | when nothing comes between, the reconciler can then write that billed attempt off, giving back exactly its reservation |
| GatewayWriteOff.UnacceptableNeverCharged | src/gateway/gateway.ts:161-236 | an answer dearer than its reservation or with slices that cannot be recorded: whatever calls, crashes, reaping and reconciliation follow, its attempt is never charged, never succeeds and never holds a request id, and its finished call leaves it unknown or written off |
| GatewayWriteOff.UnsettledCanBeWrittenOff | src/gateway/postgres-ledger.ts:291-342 | every dispatched or unknown attempt without a request id can end failed and uncharged |
| GatewayWriteOff.ChargedForEver | src/gateway/postgres-ledger.ts:300-342 | over any interleaving a settled charge is never undone or changed |
| GatewayWriteOff.AnswerCanBeWrittenOffIff | src/gateway/gateway.ts:139-236 | before its verdict every answered attempt can still end failed and uncharged; after the step that sends the verdict it can if and only if the verdict did not fit |
| GatewaySafety.PerModelMismatchChargesTheClaim | src/gateway/gateway.ts:168-182 | a rejection for per-model accounting charges the claimed total, which the usage events match exactly when the slices add up |
| GatewayBilling.SubscriptionsChargeNothing | src/gateway/provider-billing.ts:35-62 | over any interleaving, whatever costs providers report, an attempt on Codex or Claude is charged nothing |
| Escalation.SettledTiers | src/operations/policy-route-resolver.ts:190-201 | the two counting loops collect exactly the tiers with a verdict that is not a repairable DeepSeek rejection |
| Escalation.Candidates | src/operations/policy-route-resolver.ts:202-207 | filters the chain to the available tiers and to those not settled, in order |
| Escalation.NextStaticTier | src/operations/policy-route-resolver.ts:176-238 | the imperative walk selects the tier of the functional definition for every input, fallback included |
| EscalationBound.VerdictsBounded | src/operations/policy-route-resolver.ts:49-61 | before the chain is exhausted a DeepSeek tier gets at most two verdicts and any other at most one |
| EscalationBound.SelectsOpenTier | src/operations/policy-route-resolver.ts:176-238 | while a tier is open only an open, unsettled tier is selected |
| EscalationBound.SettledIff | src/operations/policy-route-resolver.ts:190-201 | a tier is settled if and only if it has a verdict that is not its only one being a DeepSeek rejection with a nonblank reason |
| EscalationBound.OpenTierAsked | src/operations/policy-route-resolver.ts:214-237 | while tiers are open the one asked is as many places down as half the unjudged attempts, or the last open one |
| EscalationBound.ExhaustedStaysLast | src/operations/policy-route-resolver.ts:208-212 | over every history, once every available tier is settled the last one is selected |
| EscalationBound.SettledChainStaysLast | src/operations/policy-route-resolver.ts:202-212 | the same for any record, availability and attempt number, said of the chain itself |
| EscalationBound.NothingAvailableFallsBack | src/operations/policy-route-resolver.ts:202-212 | with no tier of the chain available the caller's route is selected |
| EscalationBound.LastTierReached | src/operations/policy-route-resolver.ts:176-238 | whatever verdicts and silences occur, the last tier of a fixed set of available ones is selected by attempt 3d + 2c + 1 |
| EscalationAvailability.FixedSupply | src/operations/policy-route-resolver.ts:176-238 | the walk with changing availability is the walk of `EscalationBound` when availability is constant |
| EscalationAvailability.LastTierReachedUnder | src/operations/policy-route-resolver.ts:176-238 | whatever becomes available or unavailable between attempts, a last tier that stays available is selected by attempt 3d + 2c + 1 over the earlier tiers that are ever available |
| EscalationAvailability.ExhaustedStaysLastUnder | src/operations/policy-route-resolver.ts:208-212 | with availability changing at every attempt, once every tier available now is settled the last of them is selected |
| EscalationAvailability.NothingAvailableUnder | src/operations/policy-route-resolver.ts:202-212 | and with none available now the caller's route |
| EscalationBound.BoundIsTight | src/operations/policy-route-resolver.ts:176-238 | for every chain a concrete history keeps the last tier waiting for the whole budget |
| EscalationBound.BudgetCounts | src/operations/policy-route-resolver.ts:176-238 | the budget is 3 per DeepSeek tier plus 2 per other tier before the last |
| EscalationBound.ClaudeReachedInTime | src/gateway/model-policy.ts:11-37 | every programming chain asks its final tier, while available, by attempt 9 of 10 |
| EscalationAvailability.ClaudeReachedInTimeUnder | src/gateway/model-policy.ts:11-37 | the same whatever becomes of the availability of the other tiers between attempts |
| EscalationBound.SilentTierRetriedIff | src/operations/policy-route-resolver.ts:214-237 | a silent tier is retried at once if and only if an even number of attempts went unjudged before, or it is the last one open |
| EscalationBound.SecondTierLosesItsRetry | src/operations/policy-route-resolver.ts:214-237 | a concrete history of the shipped chain, one silence and two rejections of the first tier, after which the second tier gets no retry |
| Policy.ValidatePolicy | src/policy/validate-policy.ts:11-88 | the loops report no error if and only if the policy meets the declarative rules on envelope, keys, routes, priorities and tier order |
| Policy.ConcreteModelIff | src/policy/validate-policy.ts:47-88 | a model name is concrete if and only if it is not blank and, trimmed, not one of the four aliases in any case |
| Policy.FirstEligible | src/policy/simulate-route.ts:20-46 | the loop returns the first route that is available and permitted, spelled out over failures and override, or none because there is none |
| Policy.SimulateProgrammingRoute | src/policy/simulate-route.ts:11-47 | nothing is selected under an invalid policy; else the available permitted route of least priority, and none if and only if no listed route is: DeepSeek always permitted, Codex on a verified DeepSeek failure or a live override with owner and reason, Claude on both failures |
| Policy.TierOrderSafety | src/policy/execution-permission.ts:49-86 | a selected Claude route implies verified DeepSeek and Codex failures here and no available route of either; a selected Codex route implies no available DeepSeek route and a verified failure or a valid override |
| Policy.DeriveFailureEvidence | src/policy/derive-failure-evidence.ts:16-33 | the loop yields the evidence of each rejected DeepSeek or Codex record, in order |
| Policy.EvidenceIsRejection | src/policy/derive-failure-evidence.ts:16-33 | a verified failure exists exactly when such a rejection is on record, blank reasons included |
| Policy.EvidenceOfIs | src/policy/derive-failure-evidence.ts:16-33 | one record gives evidence exactly as a rejection of DeepSeek or Codex, with the trimmed reason or the standing code |
| Policy.Resolve | src/operations/policy-route-resolver.ts:98-166 | the policy decides when active and able to, with an unsettled available route it permits on this record; otherwise the static walk does |
| Policy.DecidesLeastOpen | src/operations/policy-route-resolver.ts:98-166 | under a valid policy the decision is the first tier of the chain named by the listed route of least priority that is available, unsettled and permitted by the rejections on record; none if there is no such route or tier |
| Policy.StaticRouteIs | src/operations/policy-route-resolver.ts:98-166 | a policy route is found in the chain if and only if some tier has its provider and model, as the first such |
| Policy.ProgrammingClassesShareTheChain | src/gateway/model-policy.ts:11-37 | the classes a policy decides for are exactly those with the programming chain |
| Policy.SilenceChangesNothing | src/operations/policy-route-resolver.ts:98-166 | on an unchanged record and availability the active policy gives the same answer at any later time, so a silent route is selected again without bound |
| Policy.DecidedIsOk | src/operations/policy-route-resolver.ts:98-166 | whatever route the policy decides on is in the chain, available, not settled on the record and permitted by the rejections on it |
| PolicyBound.VerdictsBoundedByPolicy | src/operations/policy-route-resolver.ts:98-238 | over any run in which policy, availability and silences change at every attempt, a DeepSeek route gets at most two verdicts and any other at most one while an available tier is open |
| PolicyBound.AtMostSixVerdicts | src/operations/policy-route-resolver.ts:98-238 | over any such run a programming task collects at most six verdicts before every available tier is settled |
| EventStream.StreamReader.Feed | src/gateway/deepseek-adapter.ts:145-232 | one read appends, consumes the finished events and keeps the unfinished one |
| EventStream.ApplyIs | src/gateway/deepseek-adapter.ts:154-175 | what one payload does to any progress: the end mark, a payload that does not parse, and each part of a chunk, reasoning and answer kept apart |
| EventStream.EventsAppend | src/gateway/deepseek-adapter.ts:145-232 | reading more input re-splits only the last event: the separator never matches differently on a prefix |
| EventStream.EventsKeepLines | src/gateway/deepseek-adapter.ts:145-194 | splitting into events and then lines yields exactly the data lines of the whole text, in order |
| EventStream.SeparatorIff | src/gateway/deepseek-adapter.ts:189 | a separator is one of the four spellings of a blank line |
| EventStream.UnfinishedIsUnseparated | src/gateway/deepseek-adapter.ts:187-192 | what is kept back after a read holds no separator, so every finished event was consumed |
| EventStream.LineDataIs | src/gateway/deepseek-adapter.ts:155-158 | a line has a payload exactly if it begins with `data:` and says something after it, and then that text trimmed |
| EventStream.ReadStream | src/gateway/deepseek-adapter.ts:145-232 | for every cut of the stream: of the payloads of the whole text, up to the first that is neither the end mark nor parses, the deltas are the nonempty fragments in order, content their concatenation, id, model and usage the last ones said, the reasoning count their total, done whether an end mark occurs, broken whether there is such a payload |
| LineStream.LineSplitter.OnData | src/gateway/cli-adapters.ts:141-161 | one piece delivers the completed nonblank lines and flushes an overlong rest |
| LineStream.Run | src/gateway/cli-adapters.ts:141-177 | the listeners together deliver what the functional splitter delivers |
| LineStream.CutIndependentIff | src/gateway/cli-adapters.ts:124-177 | delivery equals the nonblank lines of the whole output for every cut if and only if no line exceeds the cap |
| ReplyStream.CoalescingChunkWriter.Push | src/orchestrator/reply-chunks.ts:51-65 | buffers, drains at the threshold or arms the timer |
| ReplyStream.CoalescingChunkWriter.Drain | src/orchestrator/reply-chunks.ts:112-138 | a nonempty buffer becomes one queued write under the next ordinal |
| ReplyStream.CoalescingChunkWriter.Flush | src/orchestrator/reply-chunks.ts:81-104 | drains, stops the timer and counts an abandoned wait |
| ReplyStream.PostgresReplyChunkStore.Append | src/orchestrator/reply-chunks.ts:164-187 | inserts a truncated row in ordinal order unless empty or the ordinal is taken |
| ReplyStream.PostgresReplyChunkStore.SinceOrdinal | src/orchestrator/reply-chunks.ts:192-206 | returns the rows above the ordinal in order |
| ReplyStream.SendRows | src/control-api/app.ts:979-993 | sends every new row once and leaves the cursor at the last |
| ReplyStream.ReplyFollower.OnChunk | src/dashboard/conversation-workspace.tsx:379-383 | a chunk at or below the last ordinal, or after settling, is dropped |
| ReplyStream.ReplyFollower.OnRetry | src/dashboard/conversation-workspace.tsx:397-403 | a retry schedules a reconnect from the server's cursor |
| ReplyStream.ReplyFollower.OnDone | src/dashboard/conversation-workspace.tsx:384-396 | the end of the reply settles the client, text and last ordinal unchanged |
| ReplyStream.ReplyFollower.OnDisconnect | src/dashboard/conversation-workspace.tsx:404-417 | a disconnect schedules a reconnect or gives up |
| ReplySteps.DrainedIs | src/orchestrator/reply-chunks.ts:112-138 | draining queues the buffer under the next number, an empty one stops the timer |
| ReplySteps.PushedIs | src/orchestrator/reply-chunks.ts:51-65 | 240 characters drain, fewer start the timer, an empty fragment does nothing |
| ReplySteps.AppendedHas | src/orchestrator/reply-chunks.ts:164-187 | the table gains exactly the cut chunk, unless it is empty or its number is taken |
| ReplySteps.SinceIs | src/orchestrator/reply-chunks.ts:192-206 | the rows after a number are exactly those above it, in order |
| ReplySteps.WriterSteps | src/orchestrator/reply-chunks.ts:51-104 | what pushing, the timer and flushing do to writer and count of failures |
| ReplySteps.WriteSteps | src/orchestrator/reply-chunks.ts:112-146 | a settled write leaves the queue and is stored or counted as failed |
| ReplySteps.ConnectStep | src/dashboard/conversation-workspace.tsx:368-378 | a timer that fires connects after the last chunk seen or where the server said, and is spent |
| ReplySteps.ResponseSteps | src/control-api/app.ts:979-1021 | what an open response sends, and that a retry or the end closes it |
| ReplySteps.CutStep | src/dashboard/conversation-workspace.tsx:404-417 | a broken response loses the end of what it sent |
| ReplySteps.ReceiveStep | src/dashboard/conversation-workspace.tsx:379-403 | one message reaches the client and does what its kind says |
| ReplySteps.DisconnectStep | src/dashboard/conversation-workspace.tsx:404-417 | a lost connection is tried again or given up, unless the reply is over |
| ReplyStreamSafety.StepInv | src/control-api/app.ts:979-1021 | every step of writer, table, responses and client keeps the pipeline invariant, stale responses included |
| ReplyStreamSafety.TextIsStoredFragments | src/dashboard/conversation-workspace.tsx:368-425 | in every reachable state the text shown is the in-order concatenation of the stored fragments up to the last ordinal |
| ReplyStreamSafety.TextIsPrefixOfEmitted | src/orchestrator/reply-chunks.ts:51-146 | with no failed write and no oversized fragment it is a prefix of what was emitted, and all of it once everything is drained and received |
| ReplyStreamSafety.ReconnectResumes | src/dashboard/conversation-workspace.tsx:397-417 | until the client settles every reconnect resumes exactly after the last ordinal seen |
| Canonical.StableIsPrint | src/operations/execution-supervisor.ts:397-405 | the canonical text is the plain text of the value with its keys sorted |
| JsonParser.PrintRoundTrip | src/operations/execution-supervisor.ts:397-405 | parsing the plain text gives the value back, escapes, surrogates and numbers included |
| JsonParser.StableRoundTrip | src/operations/execution-supervisor.ts:397-405 | parsing the canonical text gives the value with sorted keys back |
| KeyOrder.SortOrders | src/operations/execution-supervisor.ts:400-402 | sorting by key orders the entries |
| KeyOrder.SortKeepsMembers | src/operations/execution-supervisor.ts:400-402 | and keeps exactly the members |
| KeyOrder.SortIsStable | src/operations/execution-supervisor.ts:400-402 | and keeps the property order of keys the comparator calls equal |
| KeyOrder.CanonMeans | src/operations/execution-supervisor.ts:397-405 | sorting keys does not change what a value means |
| KeyOrder.StableInjective | src/operations/execution-supervisor.ts:395-405 | equal canonical texts mean equal values up to key order, for every comparator |
| KeyOrder.StableDecides | src/operations/execution-supervisor.ts:395-405 | where the comparator tells keys apart, texts are equal if and only if the values are equal up to key order |
| KeyOrder.OrderInsensitiveIff | src/operations/execution-supervisor.ts:400-402 | the text ignores key order for all values if and only if the comparator is zero on equal keys only |
| KeyReversal.RevMeans | src/operations/execution-supervisor.ts:397-405 | listing every object backwards gives a well-formed value that means the same |
| KeyReversal.IgnoresKeyOrderIff | src/operations/execution-supervisor.ts:397-405 | for each value, its text is that of every value equal up to key order if and only if the comparator tells the keys of each of its objects apart |
| KeyTies.SameTextIff | src/operations/execution-supervisor.ts:397-405 | for every comparator two values have the same text if and only if they are equal up to key order and the keys the comparator ties come in the same order in corresponding objects |
| KeyOrder.BlueprintTextDecides | src/factory/blueprint.ts:91-102 | with the default sort order the equivalence holds for all values |
| Evidence.EvidenceLog.Record | src/operations/execution-supervisor.ts:357-383 | inserts a new row or compares digests on conflict, never overwriting |
| Evidence.RowIsFirstCall | src/operations/execution-supervisor.ts:363-374 | after any history a row is its first call |
| Evidence.AcceptedMeansSamePayload | src/operations/execution-supervisor.ts:374-382 | after any history and for every comparator, a call on a row already written is accepted only with the payload it was first written with, up to key order; the kind plays no part |
| Evidence.AcceptedIff | src/operations/execution-supervisor.ts:374-382 | after any history a call is accepted if and only if its row is new or was first written with the same payload up to the order of keys the comparator does not tie |
| Evidence.AcceptedIffSamePayload | src/operations/execution-supervisor.ts:374-382 | where the comparator tells the keys of the first payload apart, accepted means a new row or the same payload in any key order |
| Evidence.EveryOrderAcceptedIff | src/operations/execution-supervisor.ts:374-382 | a written row accepts its payload in every key order if and only if the comparator tells the keys of that payload apart |
| Capacity.EligibleIffRoom | src/factory/capacity.ts:24-51 | eligibility over any listing of the table says exactly whether budget is available and every limit leaves room |
| Capacity.CapacityTable.ReserveCapacity | src/factory/postgres-repository.ts:271-346 | expiry, replay, admission and insert with rollback, the sequence excepted, as the specification says |
| Capacity.CapacityTable.ReleaseCapacity | src/factory/postgres-repository.ts:347-353 | removes the row exactly when the fence matches |
| Capacity.NeverOverCapacity | src/factory/postgres-repository.ts:271-353 | after any interleaving at any times no count or resource total exceeds its limit |
| Capacity.StaleFenceRemovesNothing | src/factory/postgres-repository.ts:347-353 | fences of inserted leases strictly increase and only the newest fence of a request releases it |
| Capacity.FencesAreUnique | migrations/0006_factory_knowledge.sql:77-92 | two rows never share a fence, so the unique constraint never fires |
| Capacity.LeaseKept | src/factory/postgres-repository.ts:271-353 | over any run of reservations, retries, refusals and releases a row goes only by expiry or under its own fence |
| Capacity.HeldRequestInsertsNothing | src/factory/postgres-repository.ts:290-306 | a call for a held request inserts nothing and draws no fence |
| Capacity.RetryAcceptedIff | src/factory/postgres-repository.ts:294-297 | an unexpired retry of a granted call succeeds with the same lease if and only if its queue time was the instant of reservation and its properties are in the order of a row read back |
| CapacityReservations.CapacityReservations.Claim | src/factory/capacity.ts:63-72 | refuses an invalid ttl or an unexpired holder, else issues the next fence |
| CapacityReservations.CapacityReservations.Release | src/factory/capacity.ts:73-78 | removes a lease only under its fence |
| CapacityReservations.ClaimIs | src/factory/capacity.ts:63-72 | a claim succeeds if and only if its ttl is valid and no lease of the request outlasts now, and is then its one lease under the next fence |
| CapacityReservations.FreedIs | src/factory/capacity.ts:73-78 | a release takes the lease away under its own fence and does nothing under another |
| CapacityReservations.OnlyTheNewestFenceFrees | src/factory/capacity.ts:60-79 | over any run fences strictly increase and only the newest fence of a request frees it |
| Ranking.RankingIsRanked | src/factory/capacity.ts:8-23 | the ranking holds exactly the eligible requests, ordered, whatever ids the comparator calls equal |
| Ranking.ScoreIs | src/factory/capacity.ts:52-59 | the score is clamped priority, ten for interactive, and a point per minute waited up to twenty-five |
| Ranking.AheadIff | src/factory/capacity.ts:17-22 | ahead means higher score, then earlier queued, then by id |
| Ranking.RankingIgnoresInputOrderIff | src/factory/capacity.ts:8-23 | requests with distinct ids are ranked into the same list from every input order if and only if the disk is too full for any or no two eligible ones compare equal |
| Ranking.FirstQueuedFirst | src/factory/capacity.ts:17-22 | with equal clamped priority and interactivity the first queued is ahead at every time |
| Ranking.OvertakesIff | src/factory/capacity.ts:52-59 | a request that waited longer is ahead at some time if and only if the gap in base score is within the lift its waiting can give |
| SequenceLease.PostgresSequenceStore.ClaimLease | src/orchestrator/postgres-sequence-store.ts:9-25 | claims only a running, free or expired row, under a fresh token |
| SequenceLease.PostgresSequenceStore.Heartbeat | src/orchestrator/postgres-sequence-store.ts:26-35 | renews only the unexpired holder |
| SequenceLease.PostgresSequenceStore.Checkpoint | src/orchestrator/postgres-sequence-store.ts:36-57 | writes only well-formed checkpoints of the unexpired holder and counts them |
| SequenceLease.PostgresSequenceStore.WriteOperation | src/orchestrator/postgres-sequence-store.ts:58-80 | sets the last operation likewise |
| SequenceLease.PostgresSequenceStore.Release | src/orchestrator/postgres-sequence-store.ts:81-86 | clears the lease only under its own token |
| SequenceLease.ClaimSucceedsIff | src/orchestrator/postgres-sequence-store.ts:9-25 | a claim succeeds if and only if owner and ttl are valid, the sequence runs and the row is free or expired |
| SequenceLease.StatementsAre | src/orchestrator/postgres-sequence-store.ts:9-86 | each call takes effect exactly under its own conditions, spelled out, and then on its own columns |
| SequenceLease.CheckpointOkIff | src/orchestrator/postgres-sequence-store.ts:36-48 | a sequence checkpoint is well formed exactly by its characters and lengths |
| SequenceLease.OtherNamesRefused | src/orchestrator/postgres-sequence-store.ts:36-48 | and its contract and milestone begin with the fixed letters |
| SequenceLease.OperationOkIff | src/orchestrator/postgres-sequence-store.ts:58-71 | an operation checkpoint likewise |
| SequenceLease.NextRecords | src/orchestrator/postgres-sequence-store.ts:9-86 | the runs below follow the store: claims, accepted checkpoints and held leases are exactly those the row took |
| SequenceLease.TokensNeverGoBack | src/orchestrator/postgres-sequence-store.ts:9-86 | claimed tokens strictly increase, accepted checkpoints never return to an older token, and the version counts them |
| SequenceLease.StaleHolderChangesNothing | src/orchestrator/postgres-sequence-store.ts:26-86 | once a newer token is claimed nothing under an older one is accepted or changes the row |
| SequenceLease.ClaimToCheckpointIsExclusive | src/orchestrator/postgres-sequence-store.ts:9-57 | between a claim and a checkpoint accepted under it no other token's checkpoint is accepted |
| SequenceLease.AtMostOneUnexpiredLease | src/orchestrator/postgres-sequence-store.ts:9-35 | whatever order the transactions' times come in, at any moment no accepted claim lies after, at most one unreleased holder has an unexpired lease, and it is the one in the row |
| SequenceLease.SequenceSupervisor.Cycle | src/orchestrator/supervisor.ts:34-69 | a cycle succeeds exactly when the driver did, every heartbeat before succeeded and the checkpoint was accepted; in every case its token no longer holds the row afterwards |
| SequenceLease.TickedIs | src/orchestrator/supervisor.ts:34-69 | while a cycle waits every tick takes effect, and it is alive exactly if each of its heartbeats was accepted |
| SequenceLease.LastOperationSurvivesIff | src/orchestrator/postgres-sequence-store.ts:36-80 | the column holds a last operation if and only if an operation checkpoint was accepted after which no checkpoint of either kind was, and it is that one |
| SequenceLease.SequenceCheckpointIsLast | src/orchestrator/postgres-sequence-store.ts:36-57 | the column holds a sequence checkpoint if and only if one was ever accepted, and it is the last one |
| Workspace.PatchExecutor.Revert | src/operations/git-patch-applier.ts:89-100 | reset and clean leave tracked files and ignored ones |
| Workspace.IsIgnoreFileIff | src/operations/git-patch-applier.ts:89-100 | an ignore file is one by its last segment |
| Workspace.PatchExecutor.Commit | src/operations/git-patch-applier.ts:68-87 | commits everything but ignored untracked files, failing when nothing changed |
| Workspace.PatchExecutor.Copy | src/operations/workspace-copy.ts:11-28 | lays the worktree over the verification directory |
| Workspace.PatchExecutor.Execute | src/operations/ai-patch-driver.ts:203-332 | one attempt's branches, each with its worktree, history, verification directory and artifact |
| Workspace.RunIs | src/operations/ai-patch-driver.ts:203-332 | file by file what one attempt leaves: recorded only, reverted, committed exactly if the tree that would be committed differs from HEAD, or a failed commit without artifact |
| Workspace.RevertRestoresTracked | src/operations/git-patch-applier.ts:89-100 | every tracked file is restored and no untracked file is new |
| Workspace.RevertIsClean | src/operations/git-patch-applier.ts:89-100 | from a clean worktree an attempt that leaves the untracked ignore files as they were is reverted to a clean worktree |
| Workspace.RevertIsCleanIff | src/operations/git-patch-applier.ts:89-100 | for every tree it is clean if and only if each untracked file ignored before the clean is ignored by the ignore files that are tracked or were ignored themselves |
| Workspace.RejectedFileCanBeCommittedLater | src/operations/ai-patch-driver.ts:275-301 | a concrete pair of attempts in which a rejected file is committed by the next accepted one |
| Workspace.RunIsCleanIff | src/operations/ai-patch-driver.ts:203-332 | from a clean worktree one attempt ends clean if and only if it is not reverted or the revert spares only files still ignored |
| Workspace.WorkspaceStaysCleanIff | src/operations/ai-patch-driver.ts:203-332 | over any sequence the worktree is clean after every attempt if and only if no revert on the way spares a file that nothing ignores any more |
| Workspace.WorkspaceStaysClean | src/operations/ai-patch-driver.ts:203-332 | over any sequence of attempts whose rejected ones leave the untracked ignore files as they were, the worktree equals HEAD but for ignored files |
| Workspace.TrackedFilesAgree | src/operations/ai-patch-driver.ts:203-332 | over any sequence of attempts every tracked file has its committed content |
| Workspace.CommitsAndArtifactsCount | src/operations/ai-patch-driver.ts:275-355 | exactly one commit per accepted attempt and one artifact per attempt that returned, accepted ones for the accepted |
| Workspace.CommittedTreeWasVerified | src/operations/ai-patch-driver.ts:271-301 | what was verified agrees with what is committed on every committed path |
| Workspace.VerifyIsWorktreeIff | src/operations/workspace-copy.ts:11-28 | the verification directory equals the worktree exactly when it held no file the worktree lacks |
| PathGuard.AcceptedIff | src/safe-path.ts:48-107 | which paths are accepted, by their segments and characters alone, and that the answer is their names joined |
| PathGuard.GoodCharIff | src/safe-path.ts:38-59 | the characters refused, by code point |
| PathGuard.IsGitIff | src/safe-path.ts:92-104 | a segment counts as .git in any mixture of cases |
| PathGuard.Idempotent | src/safe-path.ts:48-107 | checking a checked path returns it unchanged |
| PathGuard.StaysBelowRoot | src/safe-path.ts:48-107 | resolved against any root an accepted path keeps the root and adds at least one segment, none of them dot-dot or .git in any case |
| PathGuard.EntryOwnsIff | src/safe-path.ts:109-119 | a directory entry lets through exactly what begins with the directory and a slash, the two widest patterns nothing, any other entry itself |
| PathGuard.OwnedIff | src/safe-path.ts:109-119 | a manifest owns exactly what some entry lets through |
| PathGuard.DirectoryEntryOwnsBelow | src/safe-path.ts:109-119 | a safe path owned by a directory entry lies below that directory, strictly unless it is the directory with its slash |
| PatchScope.PatchTouchedPaths | src/operations/patch-scope.ts:81-91 | the loop collects the header paths of the lines, none meaning no header |
| PatchScope.LinesAre | src/operations/patch-scope.ts:81-91 | lines end at line feeds, carriage returns and the two Unicode separators, nothing else is lost |
| PatchScope.TouchedExactly | src/operations/patch-scope.ts:81-91 | a path is collected exactly when some header names it, and once |
| PatchScope.HeaderReadsNameIff | src/operations/patch-scope.ts:83-88 | a header for one name is read back as that name exactly when the name does not hold the middle part |
| PatchScope.ValidatePatchScope | src/operations/patch-scope.ts:106-116 | replies with the safe paths or the first reason to refuse |
| PatchScope.AcceptedIffAllAllowed | src/operations/patch-scope.ts:106-116 | a patch is accepted exactly when some header names a path and every name in every header is safe and owned |
| PatchScope.AcceptedStaysInManifest | src/safe-path.ts:96-119 | whatever an accepted patch names in a header the check reads is, once normalized, an entry of the manifest or below a directory of it, never let through by the whole-repository pattern |
| PatchScope.OnlyHeadersCount | src/operations/patch-scope.ts:81-91 | appending a section none of whose lines begins like such a header changes no reply |
| Conversation.PostgresConversationStore.AppendMessage | src/orchestrator/postgres-store.ts:160-209 | replay, version check and insert with rollback as specified |
| Conversation.PostgresConversationStore.RenameConversation | src/orchestrator/postgres-store.ts:233-245 | renames at the expected version only |
| Conversation.PostgresConversationStore.SetConversationArchived | src/orchestrator/postgres-store.ts:246-258 | archives at the expected version only |
| Conversation.MemoryConversationStore.AppendMessage | src/orchestrator/memory-store.ts:26-49 | replay by key, then version check and append |
| Conversation.MemoryConversationStore.Change | src/orchestrator/memory-store.ts:70-96 | renames or archives at the expected version only |
| ConversationHistory.OrdinalsAlwaysIncrease | src/orchestrator/postgres-store.ts:160-209 | over any run ordinals strictly increase and messages never outnumber versions |
| ConversationHistory.OnlyIdsCanCollide | src/orchestrator/postgres-store.ts:182-199 | the ordinal index never fires and a replay always finds its message |
| ConversationHistory.NewAppendSucceedsIff | src/orchestrator/postgres-store.ts:179-209 | in every reachable state an append under a new key succeeds if and only if project and version match and no message has its id, and then adds exactly that message |
| ConversationHistory.EditSucceedsIff | src/orchestrator/postgres-store.ts:233-258 | a rename or archiving succeeds if and only if project and version match and the title has 1 to 200 characters, and then changes one field and the version |
| ConversationHistory.ReplayReturnsFirst | src/orchestrator/postgres-store.ts:170-178 | repeating a successful append at any later time returns the first result and changes nothing |
| ConversationHistory.AtMostOneAppendPerVersion | src/orchestrator/postgres-store.ts:179-183 | of two appends under different keys with one expected version at most one succeeds |
| ConversationHistory.MemRunInv | src/orchestrator/memory-store.ts:26-49 | the twin numbers its messages 1, 2, 3 and remembers each result |
| ConversationHistory.StepsAlikeIff | src/orchestrator/memory-store.ts:26-96 | on matching states one call is answered alike by both stores, which then still match, exactly under conditions on the call that a caller can check |
| ConversationHistory.RepliesAgreeIff | src/orchestrator/memory-store.ts:26-96 | the same after any calls answered alike |
| ConversationHistory.ReplayIgnoresVersion | src/orchestrator/memory-store.ts:212-227 | after any calls answered alike, an append under a recorded key is answered alike if and only if it is for this project and repeating the draft implies repeating the expected version; otherwise the twin replays and Postgres refuses |
| ConversationHistory.OrdinalsAgreeIff | src/orchestrator/memory-store.ts:40-46 | after the same calls both stores give a new append the same ordinal exactly when no rename or archiving succeeded before |

## Left out

- PatchScope.AcceptedStaysInManifest: speaks of names in headers of the form the check reads; quoted headers and sections with only `---` and `+++` lines are not read by it (`PatchScope.OnlyHeadersCount`), and what git makes of them is foreign code.
- ReplyStreamSafety.TextIsStoredFragments: does not model an insert that fails at the writer and commits only after a later ordinal was stored, because the model settles a write before the next one starts.
- ReplyStreamSafety.TextIsPrefixOfEmitted: does not model text pushed after the writer was flushed, nor a new attempt that clears the chunk table, because the promise is per attempt.
- HTTP routes, sessions, rate limits, Telegram, rendering, readiness, snapshots and backup: I/O without hard state.
- Process spawning, npm, Docker, formatters and the file system: foreign code, carried as arbitrary values.
- The work engine: assumed only to number attempts 1, 2, 3 and so on.
- Lost database connections and unrelated SQL errors: a transaction either runs as a step or refuses with a modelled error.
- Races inside one conversation append: each transaction is one step, so of two racing calls with one key the loser replays here, where the store may tell it the version is stale.
- `AiGateway.execute` is a state machine over its awaits and not one method; updates of its local variables between awaits are folded into the step.
- Negative provider costs in the comparison of the two ledgers: `LedgerSimulation.Affordable` excludes them; every other ledger result admits them.
- `undefined` and non-JSON objects in `Canonical`: the digests are promised for JSON values only. Numbers are integers printed in full; fractions and exponents are foreign formatting.
- The width of a character in `LineStream`, `ReplyStream` and `Common.Truncate`: one character stands for one UTF-16 code unit, so a surrogate pair is two.
- Insignificant white space in the JSON parser: the printer emits none.
- The five-reconnect limit of the stream client: a client may give up at any disconnect.
- An attempt of the patch executor that throws before its commit, because the provider, the copy or the verifier threw: the promise is about calls that return.
- Creating a conversation: it starts empty at version 0.
- The numstat line count and the text of verification output: arbitrary values in an artifact.
- Extraction of a diff from a fenced answer, proposal and attachment transitions, blueprint field validation, retry delays and telemetry: each settles by reading one table or branch.
- Wording of validation messages: whether a list of errors is empty is modelled, its texts only in outline.
- Message bodies, roles and classifications: one field of a draft; conversations other than the one modelled are independent of it.
