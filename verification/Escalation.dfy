/** The walk over the static tier chain: which tier each attempt of a task is sent to. */
module Escalation {
  import opened Common
  import opened Routes
  import Text

  /** A row of provider_artifacts: a tier's durable verdict on a task. */
  datatype Artifact = Artifact(taskId: string, providerId: string, requestedModelId: string, accepted: bool, reason: Option<string>)

  function ArtifactKey(a: Artifact): string {
    Key(a.providerId, a.requestedModelId)
  }

  /** How many verdicts a tier has. */
  function Verdicts(artifacts: seq<Artifact>, key: string): nat {
    if artifacts == [] then 0
    else
      Verdicts(artifacts[..|artifacts| - 1], key) + (if ArtifactKey(artifacts[|artifacts| - 1]) == key then 1 else 0)
  }

  /** A DeepSeek tier whose only verdict is a rejection with a reason may repair it once. */
  predicate RepairRetry(a: Artifact, verdicts: nat) {
    && verdicts == 1
    && a.providerId == "deepseek" && !a.accepted
    && !Text.Blank(if a.reason.Some? then a.reason.value else "")
  }

  predicate Settled(artifacts: seq<Artifact>, key: string) {
    exists i :: 0 <= i < |artifacts| && ArtifactKey(artifacts[i]) == key && !RepairRetry(artifacts[i], Verdicts(artifacts, key))
  }

  /** An empty availability set means nothing is known, and everything counts as available. */
  predicate IsAvailable(available: set<string>, r: Route) {
    available == {} || RouteKey(r) in available
  }

  function AvailableChain(chain: seq<Route>, available: set<string>): seq<Route> {
    if chain == [] then []
    else (if IsAvailable(available, chain[0]) then [chain[0]] else []) + AvailableChain(chain[1..], available)
  }

  function Open(tiers: seq<Route>, artifacts: seq<Artifact>): seq<Route> {
    if tiers == [] then []
    else (if Settled(artifacts, RouteKey(tiers[0])) then [] else [tiers[0]]) + Open(tiers[1..], artifacts)
  }

  /** Attempts spent without a verdict. */
  function Unjudged(attemptOrdinal: int, artifacts: seq<Artifact>): nat {
    if attemptOrdinal - 1 - |artifacts| < 0 then 0 else attemptOrdinal - 1 - |artifacts|
  }

  /** The open tier to try after so many unjudged attempts; the last tier once none is open. */
  function Pick(tiers: seq<Route>, remaining: seq<Route>, fallback: Route, unjudged: nat): Route {
    if remaining != [] then remaining[if unjudged / 2 < |remaining| then unjudged / 2 else |remaining| - 1]
    else if tiers != [] then tiers[|tiers| - 1]
    else fallback
  }

  function NextTier(chain: seq<Route>, fallback: Route, artifacts: seq<Artifact>, available: set<string>, attemptOrdinal: int): Route {
    var tiers := AvailableChain(chain, available);
    Pick(tiers, Open(tiers, artifacts), fallback, Unjudged(attemptOrdinal, artifacts))
  }

  // ---- The loops of nextStaticTier() ---------------------------------------------------------

  /** Counts verdicts per tier, then collects the tiers no attempt should return to. */
  method SettledTiers(artifacts: seq<Artifact>) returns (settled: set<string>)
    ensures forall key :: key in settled <==> Settled(artifacts, key)
  {
    var verdicts: map<string, nat> := map[];
    for i := 0 to |artifacts|
      invariant forall key :: (key in verdicts <==> Verdicts(artifacts[..i], key) > 0)
      invariant forall key :: key in verdicts ==> verdicts[key] == Verdicts(artifacts[..i], key)
    {
      assert artifacts[..i + 1][..i] == artifacts[..i];
      var key := ArtifactKey(artifacts[i]);
      verdicts := verdicts[key := (if key in verdicts then verdicts[key] else 0) + 1];
    }
    assert artifacts[..|artifacts|] == artifacts;
    settled := {};
    for i := 0 to |artifacts|
      invariant forall key :: key in settled <==>
        exists j :: 0 <= j < i && ArtifactKey(artifacts[j]) == key && !RepairRetry(artifacts[j], Verdicts(artifacts, key))
    {
      var key := ArtifactKey(artifacts[i]);
      if !RepairRetry(artifacts[i], if key in verdicts then verdicts[key] else 0) {
        settled := settled + {key};
      }
    }
  }

  /** chain.filter(...): the available tiers, and those of them that are not settled. */
  method Candidates(chain: seq<Route>, settled: set<string>, available: set<string>, ghost artifacts: seq<Artifact>)
    returns (tiers: seq<Route>, remaining: seq<Route>)
    requires forall key :: key in settled <==> Settled(artifacts, key)
    ensures tiers == AvailableChain(chain, available)
    ensures remaining == Open(tiers, artifacts)
  {
    tiers, remaining := [], [];
    for i := 0 to |chain|
      invariant tiers == AvailableChain(chain[..i], available)
      invariant remaining == Open(tiers, artifacts)
    {
      assert chain[..i + 1] == chain[..i] + [chain[i]];
      AvailableSnoc(chain[..i], chain[i], available);
      if IsAvailable(available, chain[i]) {
        OpenSnoc(tiers, chain[i], artifacts);
        tiers := tiers + [chain[i]];
        if RouteKey(chain[i]) !in settled {
          remaining := remaining + [chain[i]];
        }
      }
    }
    assert chain[..|chain|] == chain;
  }

  method NextStaticTier(chain: seq<Route>, fallback: Route, artifacts: seq<Artifact>, available: set<string>, attemptOrdinal: int)
    returns (route: Route)
    ensures route == NextTier(chain, fallback, artifacts, available, attemptOrdinal)
  {
    if chain == [] {
      assert AvailableChain(chain, available) == [] && Open([], artifacts) == [];
      return fallback;
    }
    var settled := SettledTiers(artifacts);
    var tiers, remaining := Candidates(chain, settled, available, artifacts);
    if remaining == [] && tiers == [] {
      return fallback;
    }
    if remaining == [] {
      return tiers[|tiers| - 1];
    }
    var unjudged := if attemptOrdinal - 1 - |artifacts| < 0 then 0 else attemptOrdinal - 1 - |artifacts|;
    var skip := unjudged / 2;
    route := remaining[if skip < |remaining| - 1 then skip else |remaining| - 1];
  }

  lemma {:induction false} AvailableSnoc(chain: seq<Route>, r: Route, available: set<string>)
    ensures AvailableChain(chain + [r], available) ==
      AvailableChain(chain, available) + (if IsAvailable(available, r) then [r] else [])
  {
    if chain != [] {
      AvailableSnoc(chain[1..], r, available);
      assert (chain + [r])[1..] == chain[1..] + [r];
    } else {
      assert chain + [r] == [r];
    }
  }

  lemma {:induction false} OpenSnoc(tiers: seq<Route>, r: Route, artifacts: seq<Artifact>)
    ensures Open(tiers + [r], artifacts) ==
      Open(tiers, artifacts) + (if Settled(artifacts, RouteKey(r)) then [] else [r])
  {
    if tiers != [] {
      OpenSnoc(tiers[1..], r, artifacts);
      assert (tiers + [r])[1..] == tiers[1..] + [r];
    } else {
      assert tiers + [r] == [r];
    }
  }

  // ---- A task's whole history ----------------------------------------------------------------

  /** What one attempt leaves behind. */
  datatype Event = Verdict(accepted: bool, reason: Option<string>) | NoVerdict

  /** A task that follows the resolver: attempt n goes to the tier chosen after n - 1 events. */
  datatype Task = Task(id: string, chain: seq<Route>, fallback: Route, available: set<string>)

  function Judgement(task: Task, r: Route, e: Event): seq<Artifact> {
    match e
    case Verdict(accepted, reason) =>
      [Artifact(task.id, ProviderName(r.provider), r.requestedModelId, accepted, reason)]
    case NoVerdict => []
  }

  function Artifacts(task: Task, events: seq<Event>): seq<Artifact>
    decreases |events|, 0
  {
    if events == [] then []
    else
      var before := events[..|events| - 1];
      Artifacts(task, before) + Judgement(task, Selected(task, before), events[|events| - 1])
  }

  /** The tier of attempt |events| + 1. */
  function Selected(task: Task, events: seq<Event>): Route
    decreases |events|, 1
  {
    NextTier(task.chain, task.fallback, Artifacts(task, events), task.available, |events| + 1)
  }

  function Tiers(task: Task): seq<Route> {
    AvailableChain(task.chain, task.available)
  }

  /** No two tiers of the chain share a provider and a model. */
  predicate DistinctKeys(tiers: seq<Route>) {
    forall i, j :: 0 <= i < j < |tiers| ==> RouteKey(tiers[i]) != RouteKey(tiers[j])
  }

  function LastTier(task: Task): Route
    requires Tiers(task) != []
  {
    Tiers(task)[|Tiers(task)| - 1]
  }

  /** The available tiers before the last one. */
  function Earlier(task: Task): seq<Route>
    requires Tiers(task) != []
  {
    Tiers(task)[..|Tiers(task)| - 1]
  }

  /** Attempts a tier can absorb before the walk is past it: 3 for DeepSeek, 2 for any other. */
  function Allowance(r: Route): nat {
    if r.provider == DeepSeek then 3 else 2
  }

  /** 3 d + 2 c, over d DeepSeek and c other tiers. */
  function Budget(tiers: seq<Route>): nat {
    if tiers == [] then 0 else Allowance(tiers[0]) + Budget(tiers[1..])
  }

  function MaxVerdicts(r: Route): nat {
    if r.provider == DeepSeek then 2 else 1
  }
}
