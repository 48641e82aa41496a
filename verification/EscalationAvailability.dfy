/** The escalation bound when the models that are available change from one attempt to the next. */
module EscalationAvailability {
  import opened Routes
  import opened Escalation
  import opened EscalationBound

  /** The models available at attempt n + 1. A task's own `available` set now names the models that are
      ever available, so that `Tiers` are the tiers that are. */
  type Supply = nat -> set<string>

  function ArtifactsUnder(task: Task, at: Supply, events: seq<Event>): seq<Artifact>
    decreases |events|, 0
  {
    if events == [] then []
    else
      var before := events[..|events| - 1];
      ArtifactsUnder(task, at, before) + Judgement(task, SelectedUnder(task, at, before), events[|events| - 1])
  }

  /** The tier of attempt |events| + 1. */
  function SelectedUnder(task: Task, at: Supply, events: seq<Event>): Route
    decreases |events|, 1
  {
    NextTier(task.chain, task.fallback, ArtifactsUnder(task, at, events), at(|events|), |events| + 1)
  }

  /** With one fixed supply these are the definitions of `Escalation`. */
  lemma {:induction false} FixedSupply(task: Task, at: Supply, events: seq<Event>)
    requires forall n: nat :: at(n) == task.available
    ensures ArtifactsUnder(task, at, events) == Artifacts(task, events)
    ensures SelectedUnder(task, at, events) == Selected(task, events)
  {
    if events != [] {
      FixedSupply(task, at, events[..|events| - 1]);
    }
  }

  /** What is available now is among what is ever available, and the last tier is available. */
  predicate Supplies(task: Task, available: set<string>)
    requires Tiers(task) != []
  {
    && (forall i :: 0 <= i < |task.chain| && IsAvailable(available, task.chain[i]) ==> IsAvailable(task.available, task.chain[i]))
    && IsAvailable(available, LastTier(task))
  }

  ghost predicate AlwaysSupplies(task: Task, at: Supply)
    requires Tiers(task) != []
  {
    forall n: nat :: Supplies(task, at(n))
  }

  // ---- The tiers of one attempt ----------------------------------------------------------------

  lemma {:induction false} NarrowerChain(chain: seq<Route>, available: set<string>, ever: set<string>)
    requires forall i :: 0 <= i < |chain| && IsAvailable(available, chain[i]) ==> IsAvailable(ever, chain[i])
    ensures AvailableChain(AvailableChain(chain, ever), available) == AvailableChain(chain, available)
  {
    if chain != [] {
      var rest := chain[1..];
      assert forall i :: 0 <= i < |rest| ==> rest[i] == chain[i + 1];
      NarrowerChain(rest, available, ever);
      if IsAvailable(ever, chain[0]) {
        assert ([chain[0]] + AvailableChain(rest, ever))[1..] == AvailableChain(rest, ever);
      } else {
        assert AvailableChain(chain, ever) == AvailableChain(rest, ever);
        assert AvailableChain(chain, available) == AvailableChain(rest, available);
      }
    }
  }

  /** The tiers of an attempt: some of the earlier ones, then the last. */
  lemma TiersNow(task: Task, available: set<string>)
    requires Tiers(task) != [] && Supplies(task, available)
    ensures AvailableChain(task.chain, available) == AvailableChain(Earlier(task), available) + [LastTier(task)]
  {
    NarrowerChain(task.chain, available, task.available);
    ChainEnds(task);
    AvailableSnoc(Earlier(task), LastTier(task), available);
  }

  lemma OpenCons(r: Route, tiers: seq<Route>, artifacts: seq<Artifact>)
    ensures Open([r] + tiers, artifacts) == (if Settled(artifacts, RouteKey(r)) then [] else [r]) + Open(tiers, artifacts)
  {
    assert ([r] + tiers)[1..] == tiers;
  }

  lemma {:induction false} FewerOpen(tiers: seq<Route>, available: set<string>, artifacts: seq<Artifact>)
    ensures |Open(AvailableChain(tiers, available), artifacts)| <= |Open(tiers, artifacts)|
    ensures forall r :: r in Open(AvailableChain(tiers, available), artifacts) ==> r in Open(tiers, artifacts)
  {
    if tiers != [] {
      FewerOpen(tiers[1..], available, artifacts);
      var rest := AvailableChain(tiers[1..], available);
      if IsAvailable(available, tiers[0]) {
        OpenCons(tiers[0], rest, artifacts);
      } else {
        assert AvailableChain(tiers, available) == rest;
      }
      OpenCons(tiers[0], tiers[1..], artifacts);
      assert [tiers[0]] + tiers[1..] == tiers;
    }
  }

  lemma LastIsOpen(tiers: seq<Route>, last: Route, artifacts: seq<Artifact>)
    requires Verdicts(artifacts, RouteKey(last)) == 0
    ensures Open(tiers + [last], artifacts) == Open(tiers, artifacts) + [last]
  {
    VerdictsFind(artifacts, RouteKey(last));
    OpenSnoc(tiers, last, artifacts);
  }

  /** As long as the last tier has no verdict, an attempt goes to an open tier, and to an earlier one only
      while the unjudged attempts have not skipped all of those. */
  lemma SelectionUnder(task: Task, available: set<string>, artifacts: seq<Artifact>, attemptOrdinal: int)
    requires Tiers(task) != [] && Supplies(task, available) && Verdicts(artifacts, RouteKey(LastTier(task))) == 0
    ensures var r := NextTier(task.chain, task.fallback, artifacts, available, attemptOrdinal);
      && r in Tiers(task) && !Settled(artifacts, RouteKey(r))
      && (r != LastTier(task) ==> Unjudged(attemptOrdinal, artifacts) / 2 < |Open(Earlier(task), artifacts)|)
  {
    var some := AvailableChain(Earlier(task), available);
    var last := LastTier(task);
    var open := Open(some, artifacts);
    TiersNow(task, available);
    LastIsOpen(some, last, artifacts);
    FewerOpen(Earlier(task), available, artifacts);
    OpenIsSubsequence(Earlier(task), artifacts);
    VerdictsFind(artifacts, RouteKey(last));
    ChainEnds(task);
    PickOpen(some + [last], open, last, task.fallback, Unjudged(attemptOrdinal, artifacts));
  }

  lemma PickOpen(tiers: seq<Route>, open: seq<Route>, last: Route, fallback: Route, unjudged: nat)
    ensures var r := Pick(tiers, open + [last], fallback, unjudged);
      (r == last || r in open) && (r != last ==> unjudged / 2 < |open|)
  {
  }

  // ---- The potential argument ------------------------------------------------------------------

  predicate LastNotYetUnder(task: Task, at: Supply, events: seq<Event>)
    requires Tiers(task) != []
  {
    forall i :: 0 <= i < |events| ==> SelectedUnder(task, at, events[..i]) != LastTier(task)
  }

  lemma NotYetBefore(task: Task, at: Supply, before: seq<Event>, e: Event)
    requires Tiers(task) != [] && LastNotYetUnder(task, at, before + [e])
    ensures LastNotYetUnder(task, at, before) && SelectedUnder(task, at, before) != LastTier(task)
  {
    var events := before + [e];
    assert events[..|before|] == before;
    forall i | 0 <= i < |before| ensures SelectedUnder(task, at, before[..i]) != LastTier(task) {
      assert before[..i] == events[..i];
    }
  }

  ghost predicate WithinVerdicts(artifacts: seq<Artifact>) {
    forall r: Route :: Verdicts(artifacts, RouteKey(r)) <= MaxVerdicts(r)
  }

  lemma AfterEventUnder(task: Task, at: Supply, before: seq<Event>, e: Event)
    ensures ArtifactsUnder(task, at, before + [e]) ==
      ArtifactsUnder(task, at, before) + Judgement(task, SelectedUnder(task, at, before), e)
  {
    assert (before + [e])[..|before|] == before;
  }

  lemma JudgedWithin(task: Task, artifacts: seq<Artifact>, selected: Route, e: Event)
    requires Tiers(task) != [] && DistinctKeys(Tiers(task))
    requires AllEarlier(task, artifacts) && WithinVerdicts(artifacts)
    requires selected in Tiers(task) && selected != LastTier(task) && !Settled(artifacts, RouteKey(selected))
    ensures AllEarlier(task, artifacts + Judgement(task, selected, e)) && WithinVerdicts(artifacts + Judgement(task, selected, e))
  {
    AllEarlierJudgement(task, artifacts, selected, e);
    forall r: Route ensures Verdicts(artifacts + Judgement(task, selected, e), RouteKey(r)) <= MaxVerdicts(r) {
      JudgementBounded(task, artifacts, selected, e, r);
    }
  }

  /** Until the last tier is selected every verdict is an earlier tier's, and no tier has too many. */
  lemma {:induction false} EarlierUnder(task: Task, at: Supply, events: seq<Event>)
    requires Tiers(task) != [] && DistinctKeys(Tiers(task)) && AlwaysSupplies(task, at) && LastNotYetUnder(task, at, events)
    ensures AllEarlier(task, ArtifactsUnder(task, at, events)) && WithinVerdicts(ArtifactsUnder(task, at, events))
    ensures |ArtifactsUnder(task, at, events)| <= |events|
  {
    if events == [] {
      NoVerdictsYet(Earlier(task));
    } else {
      var before, e := events[..|events| - 1], events[|events| - 1];
      assert before + [e] == events;
      NotYetBefore(task, at, before, e);
      EarlierUnder(task, at, before);
      EarlierStepUnder(task, at, before, e);
    }
  }

  lemma EarlierStepUnder(task: Task, at: Supply, before: seq<Event>, e: Event)
    requires Tiers(task) != [] && DistinctKeys(Tiers(task)) && AlwaysSupplies(task, at)
    requires AllEarlier(task, ArtifactsUnder(task, at, before)) && WithinVerdicts(ArtifactsUnder(task, at, before))
    requires SelectedUnder(task, at, before) != LastTier(task)
    ensures var artifacts := ArtifactsUnder(task, at, before + [e]);
      && AllEarlier(task, artifacts) && WithinVerdicts(artifacts)
      && |artifacts| <= |ArtifactsUnder(task, at, before)| + 1
  {
    assert Supplies(task, at(|before|));
    SelectionUnder(task, at(|before|), ArtifactsUnder(task, at, before), |before| + 1);
    JudgedWithin(task, ArtifactsUnder(task, at, before), SelectedUnder(task, at, before), e);
    AfterEventUnder(task, at, before, e);
  }

  /** A history that has avoided the last tier is shorter than the budget. */
  lemma AvoidanceIsShortUnder(task: Task, at: Supply, events: seq<Event>)
    requires Tiers(task) != [] && DistinctKeys(Tiers(task)) && AlwaysSupplies(task, at)
    requires LastNotYetUnder(task, at, events) && SelectedUnder(task, at, events) != LastTier(task)
    ensures |events| < Budget(Earlier(task))
  {
    var artifacts := ArtifactsUnder(task, at, events);
    EarlierUnder(task, at, events);
    PotentialBounded(Earlier(task), artifacts);
    assert Supplies(task, at(|events|));
    SelectionUnder(task, at(|events|), artifacts, |events| + 1);
    assert Unjudged(|events| + 1, artifacts) == |events| - |artifacts|;
  }

  /** Whatever becomes available or unavailable between attempts, a last tier that stays available is
      selected no later than attempt 3 d + 2 c + 1, over the d DeepSeek and c other earlier tiers that
      are ever available. */
  lemma LastTierReachedUnder(task: Task, at: Supply, events: seq<Event>)
    requires Tiers(task) != [] && DistinctKeys(Tiers(task)) && AlwaysSupplies(task, at)
    requires |events| == Budget(Earlier(task))
    ensures exists i :: 0 <= i <= Budget(Earlier(task)) && SelectedUnder(task, at, events[..i]) == LastTier(task)
  {
    if SelectedUnder(task, at, events) == LastTier(task) {
      assert events[..|events|] == events;
    } else if LastNotYetUnder(task, at, events) {
      AvoidanceIsShortUnder(task, at, events);
    }
  }

  /** Every programming task asks its final Claude tier, while that stays available and whatever happens to
      the others, by attempt 9 of its 10. */
  lemma ClaudeReachedInTimeUnder(task: Task, taskClass: TaskClass, at: Supply, events: seq<Event>)
    requires Programming(taskClass) && task.chain == ModelRoutes(taskClass) && task.available == {}
    requires forall n: nat :: IsAvailable(at(n), PROGRAMMING_CHAIN[3])
    requires |events| == MAX_ATTEMPTS - 1
    ensures exists i :: 0 <= i <= 8 && i < MAX_ATTEMPTS && SelectedUnder(task, at, events[..i]) == PROGRAMMING_CHAIN[3]
  {
    ProgrammingChainDistinct();
    AvailableDistinct(PROGRAMMING_CHAIN, task.available);
    EarlyProgrammingTiers(task, PROGRAMMING_CHAIN[..3]);
    var n := Budget(Earlier(task));
    assert AlwaysSupplies(task, at);
    LastTierReachedUnder(task, at, events[..n]);
    var i :| 0 <= i <= n && SelectedUnder(task, at, events[..n][..i]) == LastTier(task);
    assert events[..n][..i] == events[..i];
  }

  /** Whatever was available before: once every tier available now is settled, the last of those is asked. */
  lemma {:induction false} ExhaustedStaysLastUnder(task: Task, at: Supply, events: seq<Event>, i: nat)
    requires AllSettled(task.chain, at(|events|), ArtifactsUnder(task, at, events))
    requires LastAvailable(task.chain, at(|events|), i)
    ensures SelectedUnder(task, at, events) == task.chain[i]
  {
    SettledChainStaysLast(task.chain, task.fallback, ArtifactsUnder(task, at, events), at(|events|), |events| + 1, i);
  }

  /** And while no tier of the chain is available, the caller's own route. */
  lemma NothingAvailableUnder(task: Task, at: Supply, events: seq<Event>)
    requires at(|events|) != {} && forall r :: r in task.chain ==> RouteKey(r) !in at(|events|)
    ensures SelectedUnder(task, at, events) == task.fallback
  {
    NothingAvailableFallsBack(task.chain, task.fallback, ArtifactsUnder(task, at, events), at(|events|), |events| + 1);
  }
}
