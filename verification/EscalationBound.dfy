/** The last tier of a chain is reached in time, and no sooner bound holds. */
module EscalationBound {
  import opened Common
  import opened Routes
  import opened Escalation
  import Text

  lemma {:induction false} VerdictsSnoc(artifacts: seq<Artifact>, a: Artifact, key: string)
    ensures Verdicts(artifacts + [a], key) == Verdicts(artifacts, key) + (if ArtifactKey(a) == key then 1 else 0)
  {
    assert (artifacts + [a])[..|artifacts|] == artifacts;
  }

  /** A tier with a matching verdict has one, and vice versa. */
  lemma {:induction false} VerdictsFind(artifacts: seq<Artifact>, key: string)
    ensures Verdicts(artifacts, key) > 0 <==> exists i :: 0 <= i < |artifacts| && ArtifactKey(artifacts[i]) == key
  {
    if artifacts != [] {
      var init := artifacts[..|artifacts| - 1];
      VerdictsFind(init, key);
      assert forall i :: 0 <= i < |init| ==> init[i] == artifacts[i];
    }
  }

  lemma KeyNamesProvider(r: Route, a: Artifact)
    requires RouteKey(r) == ArtifactKey(a) && a.providerId == "deepseek"
    ensures r.provider == DeepSeek
  {
    assert RouteKey(r)[0] == ProviderName(r.provider)[0] == 'd';
  }

  /** A tier still open has at most one verdict, and none unless it is DeepSeek's. */
  lemma OpenTierVerdicts(artifacts: seq<Artifact>, r: Route)
    requires !Settled(artifacts, RouteKey(r))
    ensures Verdicts(artifacts, RouteKey(r)) <= MaxVerdicts(r) - 1
  {
    VerdictsFind(artifacts, RouteKey(r));
    if Verdicts(artifacts, RouteKey(r)) > 0 {
      var i :| 0 <= i < |artifacts| && ArtifactKey(artifacts[i]) == RouteKey(r);
      assert RepairRetry(artifacts[i], Verdicts(artifacts, RouteKey(r)));
      KeyNamesProvider(r, artifacts[i]);
    }
  }

  /** Settled tiers stay settled. */
  lemma SettledStays(artifacts: seq<Artifact>, a: Artifact, key: string)
    requires Settled(artifacts, key)
    ensures Settled(artifacts + [a], key)
  {
    var i :| 0 <= i < |artifacts| && ArtifactKey(artifacts[i]) == key && !RepairRetry(artifacts[i], Verdicts(artifacts, key));
    VerdictsSnoc(artifacts, a, key);
    VerdictsFind(artifacts, key);
    assert (artifacts + [a])[i] == artifacts[i];
  }

  lemma {:induction false} OpenIsSubsequence(tiers: seq<Route>, artifacts: seq<Artifact>)
    ensures forall r :: r in Open(tiers, artifacts) <==> r in tiers && !Settled(artifacts, RouteKey(r))
    ensures |Open(tiers, artifacts)| <= |tiers|
  {
    if tiers != [] {
      OpenIsSubsequence(tiers[1..], artifacts);
      assert tiers == [tiers[0]] + tiers[1..];
    }
  }

  /** The attempts of a history that went unjudged. */
  function Silences(task: Task, events: seq<Event>): int {
    |events| - |Artifacts(task, events)|
  }

  lemma {:induction false} SilencesNonNegative(task: Task, events: seq<Event>)
    ensures 0 <= Silences(task, events)
  {
    if events != [] {
      SilencesNonNegative(task, events[..|events| - 1]);
    }
  }

  lemma SelectedIs(task: Task, events: seq<Event>) returns (open: seq<Route>, silences: nat)
    ensures open == Open(Tiers(task), Artifacts(task, events)) && silences == Silences(task, events)
    ensures Selected(task, events) == Pick(Tiers(task), open, task.fallback, silences)
  {
    SilencesNonNegative(task, events);
    open := Open(Tiers(task), Artifacts(task, events));
    silences := Silences(task, events);
    assert Unjudged(|events| + 1, Artifacts(task, events)) == silences;
  }

  /** While any tier is open, only an open tier is selected. */
  lemma {:induction false} SelectsOpenTier(task: Task, events: seq<Event>)
    requires Open(Tiers(task), Artifacts(task, events)) != []
    ensures Selected(task, events) in Tiers(task)
    ensures !Settled(Artifacts(task, events), RouteKey(Selected(task, events)))
  {
    OpenIsSubsequence(Tiers(task), Artifacts(task, events));
    var open, silences := SelectedIs(task, events);
    assert Selected(task, events) in open;
  }

  lemma AfterEvent(task: Task, events: seq<Event>, e: Event)
    ensures Artifacts(task, events + [e]) == Artifacts(task, events) + Judgement(task, Selected(task, events), e)
  {
    assert (events + [e])[..|events|] == events;
  }

  // ---- What settles a tier, and what follows once all are --------------------------------------

  /** A rejected DeepSeek patch with something to repair. */
  predicate Repairable(a: Artifact) {
    && a.providerId == "deepseek" && !a.accepted && a.reason.Some?
    && exists i :: 0 <= i < |a.reason.value| && !Text.Space(a.reason.value[i])
  }

  /** A tier is settled exactly if it has a verdict and not only one that DeepSeek may repair. */
  lemma {:induction false} SettledIff(artifacts: seq<Artifact>, key: string)
    ensures Settled(artifacts, key) <==>
      exists i :: 0 <= i < |artifacts| && ArtifactKey(artifacts[i]) == key
        && (Repairable(artifacts[i]) ==> exists j :: 0 <= j < |artifacts| && j != i && ArtifactKey(artifacts[j]) == key)
  {
    forall i | 0 <= i < |artifacts| && ArtifactKey(artifacts[i]) == key
      ensures RepairRetry(artifacts[i], Verdicts(artifacts, key)) <==>
        Repairable(artifacts[i]) && !exists j :: 0 <= j < |artifacts| && j != i && ArtifactKey(artifacts[j]) == key
    {
      OnlyVerdictIff(artifacts, key, i);
    }
  }

  /** One verdict of a tier is its only one exactly if its count is one. */
  lemma {:induction false} OnlyVerdictIff(artifacts: seq<Artifact>, key: string, i: nat)
    requires i < |artifacts| && ArtifactKey(artifacts[i]) == key
    ensures Verdicts(artifacts, key) == 1 <==> !exists j :: 0 <= j < |artifacts| && j != i && ArtifactKey(artifacts[j]) == key
  {
    var init, last := artifacts[..|artifacts| - 1], |artifacts| - 1;
    assert forall j :: 0 <= j < |init| ==> init[j] == artifacts[j];
    VerdictsFind(init, key);
    if i == last {
      if j :| 0 <= j < |artifacts| && j != i && ArtifactKey(artifacts[j]) == key {
        assert ArtifactKey(init[j]) == key;
      }
    } else {
      OnlyVerdictIff(init, key, i);
      assert ArtifactKey(init[i]) == key;
      if j :| 0 <= j < |artifacts| && j != i && ArtifactKey(artifacts[j]) == key && j < last {
        assert ArtifactKey(init[j]) == key;
      }
    }
  }

  /** Every tier of the chain that is available is settled. */
  predicate AllSettled(chain: seq<Route>, available: set<string>, artifacts: seq<Artifact>) {
    forall r :: r in chain && (available == {} || RouteKey(r) in available) ==> Settled(artifacts, RouteKey(r))
  }

  lemma {:induction false} AvailableChainIs(chain: seq<Route>, available: set<string>)
    ensures forall r :: r in AvailableChain(chain, available) <==> r in chain && (available == {} || RouteKey(r) in available)
  {
    if chain != [] {
      AvailableChainIs(chain[1..], available);
      assert chain == [chain[0]] + chain[1..];
    }
  }

  lemma NoMembers(routes: seq<Route>)
    requires forall r :: r !in routes
    ensures routes == []
  {
    if |routes| > 0 {
      FirstIn(routes);
      assert false;
    }
  }

  lemma FirstIn(routes: seq<Route>)
    requires |routes| > 0
    ensures routes[0] in routes
  {
  }

  /** The last available tier of a chain: available, and nothing after it is. */
  predicate LastAvailable(chain: seq<Route>, available: set<string>, i: nat) {
    && i < |chain| && (available == {} || RouteKey(chain[i]) in available)
    && forall j :: i < j < |chain| ==> available != {} && RouteKey(chain[j]) !in available
  }

  lemma {:induction false} LastAvailableEnds(chain: seq<Route>, available: set<string>, i: nat)
    requires LastAvailable(chain, available, i)
    ensures var tiers := AvailableChain(chain, available); tiers != [] && tiers[|tiers| - 1] == chain[i]
  {
    if i == 0 {
      AvailableChainIs(chain[1..], available);
      NoMembers(AvailableChain(chain[1..], available));
    } else {
      LastAvailableEnds(chain[1..], available, i - 1);
    }
  }

  lemma {:induction false} NoneAvailable(chain: seq<Route>, available: set<string>)
    requires available != {} && forall r :: r in chain ==> RouteKey(r) !in available
    ensures AvailableChain(chain, available) == []
  {
    AvailableChainIs(chain, available);
    NoMembers(AvailableChain(chain, available));
  }

  /** Once every available tier is settled the walk stays on the last available one, whatever the attempt. */
  lemma {:induction false} SettledChainStaysLast(chain: seq<Route>, fallback: Route, artifacts: seq<Artifact>,
                                                 available: set<string>, attemptOrdinal: int, i: nat)
    requires AllSettled(chain, available, artifacts) && LastAvailable(chain, available, i)
    ensures NextTier(chain, fallback, artifacts, available, attemptOrdinal) == chain[i]
  {
    var tiers := AvailableChain(chain, available);
    AvailableChainIs(chain, available);
    LastAvailableEnds(chain, available, i);
    OpenIsSubsequence(tiers, artifacts);
    NoMembers(Open(tiers, artifacts));
  }

  /** With no tier of the chain available the caller's own route is used. */
  lemma NothingAvailableFallsBack(chain: seq<Route>, fallback: Route, artifacts: seq<Artifact>, available: set<string>,
                                  attemptOrdinal: int)
    requires available != {} && forall r :: r in chain ==> RouteKey(r) !in available
    ensures NextTier(chain, fallback, artifacts, available, attemptOrdinal) == fallback
  {
    NoneAvailable(chain, available);
  }

  /** So over every history of a task. */
  lemma {:induction false} ExhaustedStaysLast(task: Task, events: seq<Event>)
    requires Tiers(task) != []
    requires forall r :: r in Tiers(task) ==> Settled(Artifacts(task, events), RouteKey(r))
    ensures Selected(task, events) == LastTier(task)
  {
    OpenIsSubsequence(Tiers(task), Artifacts(task, events));
    NoMembers(Open(Tiers(task), Artifacts(task, events)));
  }

  /** With open tiers, the one asked is the open tier as many places down as half the unjudged attempts, or
      the last open one. */
  lemma {:induction false} OpenTierAsked(chain: seq<Route>, fallback: Route, artifacts: seq<Artifact>,
                                         available: set<string>, attemptOrdinal: int)
    requires Open(AvailableChain(chain, available), artifacts) != []
    ensures var open := Open(AvailableChain(chain, available), artifacts);
      var unjudged := attemptOrdinal - 1 - |artifacts|;
      NextTier(chain, fallback, artifacts, available, attemptOrdinal) ==
        if unjudged <= 1 then open[0]
        else if unjudged / 2 < |open| then open[unjudged / 2]
        else open[|open| - 1]
  {
  }

  /** The chain has not been exhausted before the last of these events. */
  predicate Unexhausted(task: Task, events: seq<Event>) {
    forall i :: 0 <= i < |events| ==> Open(Tiers(task), Artifacts(task, events[..i])) != []
  }

  /** One more judgement of an open tier keeps every tier within its verdicts. */
  lemma JudgementBounded(task: Task, artifacts: seq<Artifact>, selected: Route, e: Event, r: Route)
    requires !Settled(artifacts, RouteKey(selected))
    requires Verdicts(artifacts, RouteKey(r)) <= MaxVerdicts(r)
    ensures Verdicts(artifacts + Judgement(task, selected, e), RouteKey(r)) <= MaxVerdicts(r)
  {
    if e.Verdict? {
      var a := Judgement(task, selected, e)[0];
      VerdictsSnoc(artifacts, a, RouteKey(r));
      if RouteKey(selected) == RouteKey(r) {
        OpenTierVerdicts(artifacts, r);
      }
    } else {
      assert artifacts + Judgement(task, selected, e) == artifacts;
    }
  }

  lemma {:induction false} VerdictsStep(task: Task, before: seq<Event>, e: Event, r: Route)
    requires Open(Tiers(task), Artifacts(task, before)) != []
    requires Verdicts(Artifacts(task, before), RouteKey(r)) <= MaxVerdicts(r)
    ensures Verdicts(Artifacts(task, before + [e]), RouteKey(r)) <= MaxVerdicts(r)
  {
    SelectsOpenTier(task, before);
    JudgementBounded(task, Artifacts(task, before), Selected(task, before), e, r);
    AfterEvent(task, before, e);
  }

  /** Before the chain is exhausted a DeepSeek tier gets at most two verdicts, any other at most one. */
  lemma {:induction false} VerdictsBounded(task: Task, events: seq<Event>, r: Route)
    requires Unexhausted(task, events)
    ensures Verdicts(Artifacts(task, events), RouteKey(r)) <= MaxVerdicts(r)
  {
    if events != [] {
      var before := events[..|events| - 1];
      assert before + [events[|events| - 1]] == events;
      assert forall i :: 0 <= i < |before| ==> before[..i] == events[..i];
      VerdictsBounded(task, before, r);
      VerdictsStep(task, before, events[|events| - 1], r);
    }
  }

  // ---- The potential -------------------------------------------------------------------------

  function VerdictSum(tiers: seq<Route>, artifacts: seq<Artifact>): nat {
    if tiers == [] then 0 else Verdicts(artifacts, RouteKey(tiers[0])) + VerdictSum(tiers[1..], artifacts)
  }

  lemma {:induction false} VerdictSumSnoc(tiers: seq<Route>, artifacts: seq<Artifact>, a: Artifact)
    requires DistinctKeys(tiers)
    ensures VerdictSum(tiers, artifacts + [a]) ==
      VerdictSum(tiers, artifacts) + (if exists i :: 0 <= i < |tiers| && RouteKey(tiers[i]) == ArtifactKey(a) then 1 else 0)
  {
    if tiers != [] {
      VerdictSumSnoc(tiers[1..], artifacts, a);
      VerdictsSnoc(artifacts, a, RouteKey(tiers[0]));
      if RouteKey(tiers[0]) == ArtifactKey(a) {
        forall i | 0 <= i < |tiers[1..]| ensures RouteKey(tiers[1..][i]) != ArtifactKey(a) {
          assert tiers[1..][i] == tiers[i + 1];
        }
      } else if exists i :: 0 <= i < |tiers| && RouteKey(tiers[i]) == ArtifactKey(a) {
        var i :| 0 <= i < |tiers| && RouteKey(tiers[i]) == ArtifactKey(a);
        assert tiers[1..][i - 1] == tiers[i];
      } else {
        assert forall i :: 0 <= i < |tiers[1..]| ==> tiers[1..][i] == tiers[i + 1];
      }
    }
  }

  /** Verdicts so far plus two per open tier never exceed the budget of the tiers. */
  lemma {:induction false} PotentialBounded(tiers: seq<Route>, artifacts: seq<Artifact>)
    requires forall i :: 0 <= i < |tiers| ==> Verdicts(artifacts, RouteKey(tiers[i])) <= MaxVerdicts(tiers[i])
    ensures VerdictSum(tiers, artifacts) + 2 * |Open(tiers, artifacts)| <= Budget(tiers)
  {
    if tiers != [] {
      assert forall i :: 0 <= i < |tiers[1..]| ==> tiers[1..][i] == tiers[i + 1];
      PotentialBounded(tiers[1..], artifacts);
      if !Settled(artifacts, RouteKey(tiers[0])) {
        OpenTierVerdicts(artifacts, tiers[0]);
      }
    }
  }

  /** The last tier was not selected for any of the first |events| attempts. */
  predicate LastNotYet(task: Task, events: seq<Event>)
    requires Tiers(task) != []
  {
    forall i :: 0 <= i < |events| ==> Selected(task, events[..i]) != LastTier(task)
  }

  lemma ChainEnds(task: Task)
    requires Tiers(task) != []
    ensures Tiers(task) == Earlier(task) + [LastTier(task)]
  {
  }

  /** All verdicts so far belong to the tiers before the last one. */
  predicate AllEarlier(task: Task, artifacts: seq<Artifact>)
    requires Tiers(task) != []
  {
    && VerdictSum(Earlier(task), artifacts) == |artifacts|
    && Verdicts(artifacts, RouteKey(LastTier(task))) == 0
  }

  lemma AllEarlierJudgement(task: Task, artifacts: seq<Artifact>, selected: Route, e: Event)
    requires Tiers(task) != [] && DistinctKeys(Tiers(task))
    requires AllEarlier(task, artifacts) && selected in Tiers(task) && selected != LastTier(task)
    ensures AllEarlier(task, artifacts + Judgement(task, selected, e))
  {
    if e.Verdict? {
      var a := Judgement(task, selected, e)[0];
      var tiers := Earlier(task);
      var j :| 0 <= j < |Tiers(task)| && Tiers(task)[j] == selected;
      assert tiers[j] == selected && ArtifactKey(a) == RouteKey(selected);
      assert RouteKey(Tiers(task)[j]) != RouteKey(Tiers(task)[|tiers|]);
      VerdictSumSnoc(tiers, artifacts, a);
      VerdictsSnoc(artifacts, a, RouteKey(LastTier(task)));
    } else {
      assert artifacts + Judgement(task, selected, e) == artifacts;
    }
  }

  lemma {:induction false} AllEarlierStep(task: Task, before: seq<Event>, e: Event)
    requires Tiers(task) != [] && DistinctKeys(Tiers(task))
    requires AllEarlier(task, Artifacts(task, before)) && Selected(task, before) != LastTier(task)
    ensures AllEarlier(task, Artifacts(task, before + [e]))
    ensures |Artifacts(task, before + [e])| <= |Artifacts(task, before)| + 1
  {
    LastStaysOpen(task, Artifacts(task, before));
    SelectsOpenTier(task, before);
    AllEarlierJudgement(task, Artifacts(task, before), Selected(task, before), e);
    AfterEvent(task, before, e);
  }

  /** Until the last tier is selected, every verdict belongs to an earlier one. */
  lemma {:induction false} VerdictsAreEarlier(task: Task, events: seq<Event>)
    requires Tiers(task) != [] && DistinctKeys(Tiers(task)) && LastNotYet(task, events)
    ensures AllEarlier(task, Artifacts(task, events))
    ensures |Artifacts(task, events)| <= |events|
  {
    if events == [] {
      NoVerdictsYet(Earlier(task));
    } else {
      var before := events[..|events| - 1];
      var e := events[|events| - 1];
      assert before + [e] == events;
      LastNotYetPrefix(task, before, e);
      VerdictsAreEarlier(task, before);
      AllEarlierStep(task, before, e);
    }
  }

  lemma LastNotYetPrefix(task: Task, before: seq<Event>, e: Event)
    requires Tiers(task) != [] && LastNotYet(task, before + [e])
    ensures LastNotYet(task, before) && Selected(task, before) != LastTier(task)
  {
    var events := before + [e];
    assert events[..|before|] == before;
    forall i | 0 <= i < |before| ensures Selected(task, before[..i]) != LastTier(task) {
      assert before[..i] == events[..i];
    }
  }

  lemma {:induction false} NoVerdictsYet(tiers: seq<Route>)
    ensures VerdictSum(tiers, []) == 0
  {
    if tiers != [] {
      NoVerdictsYet(tiers[1..]);
    }
  }

  /** A tier without verdicts is open. */
  lemma {:induction false} LastStaysOpen(task: Task, artifacts: seq<Artifact>)
    requires Tiers(task) != []
    requires Verdicts(artifacts, RouteKey(LastTier(task))) == 0
    ensures Open(Tiers(task), artifacts) == Open(Earlier(task), artifacts) + [LastTier(task)]
  {
    VerdictsFind(artifacts, RouteKey(LastTier(task)));
    ChainEnds(task);
    OpenSnoc(Earlier(task), LastTier(task), artifacts);
  }

  lemma {:induction false} LastNotYetUnexhausted(task: Task, events: seq<Event>)
    requires Tiers(task) != [] && DistinctKeys(Tiers(task)) && LastNotYet(task, events)
    ensures Unexhausted(task, events)
  {
    forall i | 0 <= i < |events| ensures Open(Tiers(task), Artifacts(task, events[..i])) != [] {
      assert forall j :: 0 <= j < i ==> events[..i][..j] == events[..j];
      VerdictsAreEarlier(task, events[..i]);
      LastStaysOpen(task, Artifacts(task, events[..i]));
    }
  }

  /** With the last tier open, it is skipped to exactly once enough attempts went unjudged. */
  lemma SelectedByUnjudged(task: Task, events: seq<Event>)
    requires Tiers(task) != []
    requires Verdicts(Artifacts(task, events), RouteKey(LastTier(task))) == 0
    requires |Artifacts(task, events)| <= |events|
    requires Selected(task, events) != LastTier(task)
    ensures (|events| - |Artifacts(task, events)|) / 2 < |Open(Earlier(task), Artifacts(task, events))|
  {
    LastStaysOpen(task, Artifacts(task, events));
    var open, silences := SelectedIs(task, events);
  }

  /** The potential argument: a history that has avoided the last tier is shorter than the budget. */
  lemma {:induction false} AvoidanceIsShort(task: Task, events: seq<Event>)
    requires Tiers(task) != [] && DistinctKeys(Tiers(task))
    requires LastNotYet(task, events) && Selected(task, events) != LastTier(task)
    ensures |events| < Budget(Earlier(task))
  {
    var artifacts := Artifacts(task, events);
    VerdictsAreEarlier(task, events);
    LastNotYetUnexhausted(task, events);
    forall i | 0 <= i < |Earlier(task)|
      ensures Verdicts(artifacts, RouteKey(Earlier(task)[i])) <= MaxVerdicts(Earlier(task)[i])
    {
      VerdictsBounded(task, events, Earlier(task)[i]);
    }
    PotentialBounded(Earlier(task), artifacts);
    SelectedByUnjudged(task, events);
  }

  /** Escalation bound: whatever verdicts and silences the attempts produce, the last available tier
      is selected no later than attempt 3 d + 2 c + 1, the attempt after Budget events. */
  lemma LastTierReached(task: Task, events: seq<Event>)
    requires Tiers(task) != [] && DistinctKeys(Tiers(task))
    requires |events| == Budget(Earlier(task))
    ensures exists i :: 0 <= i <= Budget(Earlier(task)) && Selected(task, events[..i]) == LastTier(task)
  {
    if Selected(task, events) == LastTier(task) {
      assert events[..|events|] == events;
    } else if LastNotYet(task, events) {
      AvoidanceIsShort(task, events);
    }
  }

  // ---- No sooner bound -----------------------------------------------------------------------

  const REJECTION := Verdict(false, Some("failing check"))

  /** The slowest history of a tier: DeepSeek is rejected once with a reason, then two silences. */
  function SlowBlock(r: Route): seq<Event> {
    (if r.provider == DeepSeek then [REJECTION] else []) + [NoVerdict, NoVerdict]
  }

  function SlowHistory(tiers: seq<Route>): seq<Event> {
    if tiers == [] then [] else SlowHistory(tiers[..|tiers| - 1]) + SlowBlock(tiers[|tiers| - 1])
  }

  /** Nothing but single reasoned DeepSeek rejections, each of a tier of its own. */
  predicate OneRejectionEach(artifacts: seq<Artifact>) {
    && (forall i :: 0 <= i < |artifacts| ==>
          artifacts[i].providerId == "deepseek" && !artifacts[i].accepted && artifacts[i].reason == Some("failing check"))
    && (forall i, j :: 0 <= i < j < |artifacts| ==> ArtifactKey(artifacts[i]) != ArtifactKey(artifacts[j]))
  }

  lemma {:induction false} OneVerdictEach(artifacts: seq<Artifact>, key: string)
    requires forall i, j :: 0 <= i < j < |artifacts| ==> ArtifactKey(artifacts[i]) != ArtifactKey(artifacts[j])
    ensures Verdicts(artifacts, key) <= 1
  {
    if artifacts != [] {
      var init := artifacts[..|artifacts| - 1];
      OneVerdictEach(init, key);
      VerdictsFind(init, key);
    }
  }

  lemma NothingSettled(artifacts: seq<Artifact>, key: string)
    requires OneRejectionEach(artifacts)
    ensures !Settled(artifacts, key)
  {
    OneVerdictEach(artifacts, key);
    VerdictsFind(artifacts, key);
    assert !Text.Space("failing check"[0]);
  }

  lemma {:induction false} EverythingOpen(tiers: seq<Route>, artifacts: seq<Artifact>)
    requires OneRejectionEach(artifacts)
    ensures Open(tiers, artifacts) == tiers
  {
    if tiers != [] {
      EverythingOpen(tiers[1..], artifacts);
      NothingSettled(artifacts, RouteKey(tiers[0]));
    }
  }

  lemma SelectedWhenOpen(task: Task, events: seq<Event>, k: nat)
    requires OneRejectionEach(Artifacts(task, events)) && k < |Tiers(task)|
    requires 2 * k <= |events| - |Artifacts(task, events)| <= 2 * k + 1
    ensures Selected(task, events) == Tiers(task)[k]
  {
    EverythingOpen(Tiers(task), Artifacts(task, events));
    var open, silences := SelectedIs(task, events);
    PickAt(Tiers(task), task.fallback, k, silences);
  }

  lemma PickAt(tiers: seq<Route>, fallback: Route, k: nat, silences: nat)
    requires k < |tiers| && 2 * k <= silences <= 2 * k + 1
    ensures Pick(tiers, tiers, fallback, silences) == tiers[k]
  {
    assert silences / 2 == k;
  }

  /** Where the slowest history stands after `k` tiers. */
  predicate SlowState(task: Task, events: seq<Event>, k: nat)
    requires k < |Tiers(task)|
  {
    var artifacts := Artifacts(task, events);
    && |events| - |artifacts| == 2 * k
    && OneRejectionEach(artifacts)
    && LastNotYet(task, events)
    && AmongFirst(Tiers(task), k, artifacts)
  }

  predicate KeyAmong(tiers: seq<Route>, k: nat, key: string)
    requires k <= |tiers|
  {
    exists t :: 0 <= t < k && RouteKey(tiers[t]) == key
  }

  /** Every verdict belongs to one of the first `k` tiers. */
  predicate AmongFirst(tiers: seq<Route>, k: nat, artifacts: seq<Artifact>)
    requires k <= |tiers|
  {
    forall i :: 0 <= i < |artifacts| ==> KeyAmong(tiers, k, ArtifactKey(artifacts[i]))
  }

  /** The key of tier `k` is none of the keys before it. */
  lemma LaterKey(tiers: seq<Route>, k: nat, key: string)
    requires DistinctKeys(tiers) && k < |tiers| && KeyAmong(tiers, k, key)
    ensures key != RouteKey(tiers[k]) && KeyAmong(tiers, k + 1, key)
  {
    var t :| 0 <= t < k && RouteKey(tiers[t]) == key;
  }

  /** A rejection of tier `k` is the first verdict on that tier. */
  lemma FreshRejection(tiers: seq<Route>, artifacts: seq<Artifact>, a: Artifact, k: nat)
    requires DistinctKeys(tiers) && k < |tiers| && OneRejectionEach(artifacts) && AmongFirst(tiers, k, artifacts)
    requires ArtifactKey(a) == RouteKey(tiers[k])
    requires a.providerId == "deepseek" && !a.accepted && a.reason == Some("failing check")
    ensures OneRejectionEach(artifacts + [a]) && AmongFirst(tiers, k + 1, artifacts + [a])
  {
    var after := artifacts + [a];
    assert RouteKey(tiers[k]) == ArtifactKey(a);
    forall i | 0 <= i < |artifacts|
      ensures ArtifactKey(artifacts[i]) != ArtifactKey(a) && KeyAmong(tiers, k + 1, ArtifactKey(after[i]))
    {
      LaterKey(tiers, k, ArtifactKey(artifacts[i]));
    }
  }

  lemma LastNotYetSnoc(task: Task, events: seq<Event>, e: Event)
    requires Tiers(task) != [] && LastNotYet(task, events) && Selected(task, events) != LastTier(task)
    ensures LastNotYet(task, events + [e])
  {
    forall i | 0 <= i < |events + [e]| ensures Selected(task, (events + [e])[..i]) != LastTier(task) {
      if i < |events| {
        assert (events + [e])[..i] == events[..i];
      } else {
        assert (events + [e])[..i] == events;
      }
    }
  }

  lemma {:induction false} SlowSilences(task: Task, events: seq<Event>, k: nat)
    requires DistinctKeys(Tiers(task)) && k + 1 < |Tiers(task)|
    requires OneRejectionEach(Artifacts(task, events)) && LastNotYet(task, events)
    requires |events| - |Artifacts(task, events)| == 2 * k
    ensures var after := events + [NoVerdict, NoVerdict];
      LastNotYet(task, after) && Artifacts(task, after) == Artifacts(task, events)
  {
    var one := events + [NoVerdict];
    assert RouteKey(Tiers(task)[k]) != RouteKey(LastTier(task));
    SelectedWhenOpen(task, events, k);
    LastNotYetSnoc(task, events, NoVerdict);
    AfterEvent(task, events, NoVerdict);
    SelectedWhenOpen(task, one, k);
    LastNotYetSnoc(task, one, NoVerdict);
    AfterEvent(task, one, NoVerdict);
    assert one + [NoVerdict] == events + [NoVerdict, NoVerdict];
  }

  lemma {:induction false} SlowRejection(task: Task, events: seq<Event>, k: nat)
    requires DistinctKeys(Tiers(task)) && k + 1 < |Tiers(task)| && SlowState(task, events, k)
    requires Tiers(task)[k].provider == DeepSeek
    ensures var after := events + [REJECTION];
      && LastNotYet(task, after) && OneRejectionEach(Artifacts(task, after))
      && |Artifacts(task, after)| == |Artifacts(task, events)| + 1
      && AmongFirst(Tiers(task), k + 1, Artifacts(task, after))
  {
    assert RouteKey(Tiers(task)[k]) != RouteKey(LastTier(task));
    SelectedWhenOpen(task, events, k);
    LastNotYetSnoc(task, events, REJECTION);
    AfterEvent(task, events, REJECTION);
    var a := Judgement(task, Tiers(task)[k], REJECTION);
    assert a == [a[0]] && ArtifactKey(a[0]) == RouteKey(Tiers(task)[k]);
    FreshRejection(Tiers(task), Artifacts(task, events), a[0], k);
  }

  lemma {:induction false} SlowDeepSeekStep(task: Task, events: seq<Event>, k: nat)
    requires DistinctKeys(Tiers(task)) && k + 1 < |Tiers(task)| && SlowState(task, events, k)
    requires Tiers(task)[k].provider == DeepSeek
    ensures SlowState(task, events + [REJECTION] + [NoVerdict, NoVerdict], k + 1)
  {
    var judged := events + [REJECTION];
    SlowRejection(task, events, k);
    SlowSilences(task, judged, k);
    SlowStateHolds(task, judged + [NoVerdict, NoVerdict], Artifacts(task, judged), k + 1);
  }

  lemma SlowPlainStep(task: Task, events: seq<Event>, k: nat)
    requires DistinctKeys(Tiers(task)) && k + 1 < |Tiers(task)| && SlowState(task, events, k)
    ensures SlowState(task, events + [NoVerdict, NoVerdict], k + 1)
  {
    SlowSilences(task, events, k);
    SlowStateHolds(task, events + [NoVerdict, NoVerdict], Artifacts(task, events), k + 1);
  }

  lemma SlowStep(task: Task, events: seq<Event>, k: nat, block: seq<Event>)
    requires DistinctKeys(Tiers(task)) && k + 1 < |Tiers(task)| && SlowState(task, events, k)
    requires block == SlowBlock(Tiers(task)[k])
    ensures SlowState(task, events + block, k + 1)
  {
    if Tiers(task)[k].provider == DeepSeek {
      SlowDeepSeekStep(task, events, k);
      assert events + [REJECTION] + [NoVerdict, NoVerdict] == events + block;
    } else {
      SlowPlainStep(task, events, k);
      assert [NoVerdict, NoVerdict] == block;
    }
  }

  lemma SelectedInSlowState(task: Task, events: seq<Event>, k: nat)
    requires k < |Tiers(task)| && SlowState(task, events, k)
    ensures Selected(task, events) == Tiers(task)[k] && LastNotYet(task, events)
  {
    SelectedWhenOpen(task, events, k);
  }

  lemma SlowStateHolds(task: Task, events: seq<Event>, artifacts: seq<Artifact>, k: nat)
    requires 0 < k < |Tiers(task)| && artifacts == Artifacts(task, events)
    requires |events| - |artifacts| == 2 * k
    requires OneRejectionEach(artifacts) && LastNotYet(task, events)
    requires AmongFirst(Tiers(task), k, artifacts) || AmongFirst(Tiers(task), k - 1, artifacts)
    ensures SlowState(task, events, k)
  {
  }

  lemma {:induction false} SlowReaches(task: Task, k: nat)
    requires DistinctKeys(Tiers(task)) && k < |Tiers(task)|
    ensures SlowState(task, SlowHistory(Tiers(task)[..k]), k)
  {
    if k > 0 {
      SlowReaches(task, k - 1);
      SlowStep(task, SlowHistory(Tiers(task)[..k - 1]), k - 1, SlowBlock(Tiers(task)[k - 1]));
      assert Tiers(task)[..k][..k - 1] == Tiers(task)[..k - 1];
    }
  }

  lemma {:induction false} BudgetSnoc(tiers: seq<Route>, r: Route)
    ensures Budget(tiers + [r]) == Budget(tiers) + Allowance(r)
  {
    if tiers != [] {
      BudgetSnoc(tiers[1..], r);
      assert (tiers + [r])[1..] == tiers[1..] + [r];
    } else {
      assert tiers + [r] == [r];
    }
  }

  lemma {:induction false} SlowLength(tiers: seq<Route>)
    ensures |SlowHistory(tiers)| == Budget(tiers)
  {
    if tiers != [] {
      var init := tiers[..|tiers| - 1];
      SlowLength(init);
      BudgetSnoc(init, tiers[|tiers| - 1]);
      assert init + [tiers[|tiers| - 1]] == tiers;
    }
  }

  lemma SlowStateAtLast(task: Task, events: seq<Event>)
    requires Tiers(task) != [] && DistinctKeys(Tiers(task)) && events == SlowHistory(Earlier(task))
    ensures SlowState(task, events, |Tiers(task)| - 1)
  {
    SlowReaches(task, |Tiers(task)| - 1);
  }

  /** For every chain some history keeps the last tier waiting for the whole budget. */
  lemma {:induction false} BoundIsTight(task: Task, events: seq<Event>)
    requires Tiers(task) != [] && DistinctKeys(Tiers(task)) && events == SlowHistory(Earlier(task))
    ensures |events| == Budget(Earlier(task))
    ensures LastNotYet(task, events)
    ensures Selected(task, events) == LastTier(task)
  {
    SlowStateAtLast(task, events);
    SlowLength(Earlier(task));
    SelectedInSlowState(task, events, |Tiers(task)| - 1);
  }

  function DeepSeekTiers(tiers: seq<Route>): nat {
    if tiers == [] then 0 else (if tiers[0].provider == DeepSeek then 1 else 0) + DeepSeekTiers(tiers[1..])
  }

  lemma {:induction false} BudgetCounts(tiers: seq<Route>)
    ensures DeepSeekTiers(tiers) <= |tiers|
    ensures Budget(tiers) == 3 * DeepSeekTiers(tiers) + 2 * (|tiers| - DeepSeekTiers(tiers))
  {
    if tiers != [] {
      BudgetCounts(tiers[1..]);
    }
  }

  // ---- The shipped programming chain ---------------------------------------------------------

  const MAX_ATTEMPTS: nat := 10

  predicate Programming(taskClass: TaskClass) {
    taskClass.BulkCode? || taskClass.ComplexBackend? || taskClass.BoundedRepair?
  }

  lemma {:induction false} AvailableMembers(chain: seq<Route>, available: set<string>)
    ensures forall r :: r in AvailableChain(chain, available) ==> r in chain && IsAvailable(available, r)
    ensures Budget(AvailableChain(chain, available)) <= Budget(chain)
  {
    if chain != [] {
      AvailableMembers(chain[1..], available);
      var rest := AvailableChain(chain[1..], available);
      assert chain == [chain[0]] + chain[1..];
      if IsAvailable(available, chain[0]) {
        assert AvailableChain(chain, available) == [chain[0]] + rest;
        assert ([chain[0]] + rest)[1..] == rest;
        assert Budget(AvailableChain(chain, available)) == Allowance(chain[0]) + Budget(rest);
      } else {
        assert AvailableChain(chain, available) == rest;
      }
    }
  }

  lemma {:induction false} AvailableDistinct(chain: seq<Route>, available: set<string>)
    requires DistinctKeys(chain)
    ensures DistinctKeys(AvailableChain(chain, available))
  {
    if chain != [] {
      var rest := AvailableChain(chain[1..], available);
      AvailableDistinct(chain[1..], available);
      AvailableMembers(chain[1..], available);
      forall j | 0 <= j < |rest| ensures RouteKey(rest[j]) != RouteKey(chain[0]) {
        assert rest[j] in chain[1..];
      }
    }
  }

  lemma KeysApart(p: Provider, m: string, q: Provider, n: string)
    requires p != q || |m| != |n|
    ensures Key(ProviderName(p), m) != Key(ProviderName(q), n)
  {
    if p == q {
      assert |Key(ProviderName(p), m)| != |Key(ProviderName(q), n)|;
    } else {
      assert Key(ProviderName(p), m)[1] == ProviderName(p)[1] && Key(ProviderName(q), n)[1] == ProviderName(q)[1];
    }
  }

  lemma ProgrammingChainDistinct()
    ensures DistinctKeys(PROGRAMMING_CHAIN)
  {
    var chain := PROGRAMMING_CHAIN;
    forall i, j | 0 <= i < j < |chain| ensures RouteKey(chain[i]) != RouteKey(chain[j]) {
      KeysApart(chain[i].provider, chain[i].requestedModelId, chain[j].provider, chain[j].requestedModelId);
    }
  }

  /** Every programming task asks its final Claude tier, while available, by attempt 9 of its 10. */
  lemma ClaudeReachedInTime(task: Task, taskClass: TaskClass, events: seq<Event>)
    requires Programming(taskClass) && task.chain == ModelRoutes(taskClass)
    requires IsAvailable(task.available, PROGRAMMING_CHAIN[3])
    requires |events| == MAX_ATTEMPTS - 1
    ensures exists i :: 0 <= i <= 8 && i < MAX_ATTEMPTS && Selected(task, events[..i]) == PROGRAMMING_CHAIN[3]
  {
    ProgrammingChainDistinct();
    AvailableDistinct(PROGRAMMING_CHAIN, task.available);
    var early := PROGRAMMING_CHAIN[..3];
    EarlyProgrammingTiers(task, early);
    var n := Budget(Earlier(task));
    LastTierReached(task, events[..n]);
    var i :| 0 <= i <= n && Selected(task, events[..n][..i]) == LastTier(task);
    assert events[..n][..i] == events[..i];
  }

  lemma EarlyProgrammingTiers(task: Task, early: seq<Route>)
    requires task.chain == PROGRAMMING_CHAIN && early == PROGRAMMING_CHAIN[..3]
    requires IsAvailable(task.available, PROGRAMMING_CHAIN[3])
    ensures Tiers(task) != [] && LastTier(task) == PROGRAMMING_CHAIN[3]
    ensures Budget(Earlier(task)) <= 8
  {
    assert early + [PROGRAMMING_CHAIN[3]] == PROGRAMMING_CHAIN;
    AvailableSnoc(early, PROGRAMMING_CHAIN[3], task.available);
    assert Earlier(task) == AvailableChain(early, task.available);
    AvailableMembers(early, task.available);
    BudgetCounts(early);
    assert DeepSeekTiers(early) == 2 by {
      assert early[1..][1..][1..] == [];
      assert DeepSeekTiers(early[1..][1..]) == 0;
      assert DeepSeekTiers(early[1..]) == 1;
    }
  }

  // ---- The one retry of a silent tier --------------------------------------------------------

  /** A tier that ends without a verdict is retried at once if and only if an even number of attempts,
      on whichever tiers, went unjudged before it, or it is the last tier still open. */
  lemma SilentTierRetriedIff(task: Task, events: seq<Event>, open: seq<Route>, silences: int)
    requires DistinctKeys(Tiers(task)) && open != []
    requires open == Open(Tiers(task), Artifacts(task, events)) && silences == Silences(task, events)
    ensures Selected(task, events + [NoVerdict]) == Selected(task, events) <==>
      silences % 2 == 0 || |open| - 1 <= silences / 2
  {
    var after := events + [NoVerdict];
    NoVerdictKeeps(task, events);
    SelectionIs(task, events, open, silences);
    SelectionIs(task, after, open, silences + 1);
    OpenDistinct(Tiers(task), Artifacts(task, events));
    PickAdvances(Tiers(task), open, task.fallback, silences);
  }

  lemma SelectionIs(task: Task, events: seq<Event>, open: seq<Route>, silences: int)
    requires open == Open(Tiers(task), Artifacts(task, events)) && silences == Silences(task, events)
    ensures 0 <= silences && Selected(task, events) == Pick(Tiers(task), open, task.fallback, silences)
  {
    var _, _ := SelectedIs(task, events);
  }

  lemma NoVerdictKeeps(task: Task, events: seq<Event>)
    ensures Artifacts(task, events + [NoVerdict]) == Artifacts(task, events)
    ensures Silences(task, events + [NoVerdict]) == Silences(task, events) + 1
  {
    AfterEvent(task, events, NoVerdict);
  }

  lemma PickAdvances(tiers: seq<Route>, open: seq<Route>, fallback: Route, silences: nat)
    requires DistinctKeys(open) && open != []
    ensures Pick(tiers, open, fallback, silences + 1) == Pick(tiers, open, fallback, silences) <==>
      silences % 2 == 0 || |open| - 1 <= silences / 2
  {
    if silences % 2 == 1 && silences / 2 < |open| - 1 {
      assert RouteKey(open[silences / 2]) != RouteKey(open[silences / 2 + 1]);
    }
  }

  lemma {:induction false} OpenDistinct(tiers: seq<Route>, artifacts: seq<Artifact>)
    requires DistinctKeys(tiers)
    ensures DistinctKeys(Open(tiers, artifacts))
  {
    if tiers != [] {
      OpenDistinct(tiers[1..], artifacts);
      OpenIsSubsequence(tiers[1..], artifacts);
      var rest := Open(tiers[1..], artifacts);
      forall j | 0 <= j < |rest| ensures RouteKey(rest[j]) != RouteKey(tiers[0]) {
        assert rest[j] in tiers[1..];
      }
    }
  }

  /** While at most one attempt was silent and nothing is settled, the verdict is the first tier's. */
  lemma FirstTierJudged(task: Task, events: seq<Event>, artifacts: seq<Artifact>, next: seq<Event>)
    requires Tiers(task) == PROGRAMMING_CHAIN && artifacts == Artifacts(task, events) && OneRejectionEach(artifacts)
    requires 0 <= |events| - |artifacts| <= 1 && next == events + [REJECTION]
    ensures Artifacts(task, next) == artifacts + Judgement(task, PROGRAMMING_CHAIN[0], REJECTION)
  {
    SelectedWhenOpen(task, events, 0);
    AfterEvent(task, events, REJECTION);
  }

  /** A silence and two rejections: both verdicts are the first tier's, its repair included. */
  lemma SilenceThenTwoRejections(task: Task, one: seq<Event>, two: seq<Event>, three: seq<Event>)
    requires Tiers(task) == PROGRAMMING_CHAIN
    requires one == [NoVerdict] && two == one + [REJECTION] && three == two + [REJECTION]
    ensures Artifacts(task, three) == Judgement(task, PROGRAMMING_CHAIN[0], REJECTION) + Judgement(task, PROGRAMMING_CHAIN[0], REJECTION)
  {
    var first := Judgement(task, PROGRAMMING_CHAIN[0], REJECTION);
    NoVerdictKeeps(task, []);
    assert [] + [NoVerdict] == one;
    FirstTierJudged(task, one, [], two);
    assert [] + first == first;
    FirstTierJudged(task, two, first, three);
  }

  lemma PickAfterFirst(task: Task, events: seq<Event>)
    requires task.chain == PROGRAMMING_CHAIN && Tiers(task) == PROGRAMMING_CHAIN
    requires Artifacts(task, events) == Judgement(task, PROGRAMMING_CHAIN[0], REJECTION) + Judgement(task, PROGRAMMING_CHAIN[0], REJECTION)
    requires 3 <= |events| <= 4
    ensures Selected(task, events) == PROGRAMMING_CHAIN[|events| - 2]
  {
    OnlyFirstSettled(task, Artifacts(task, events));
    var open, silences := SelectedIs(task, events);
  }

  /** So "one retry, then the chain moves on" is not what happens to the second tier of a task whose
      DeepSeek tier was silent once and then rejected twice: that tier's single silence moves it on. */
  lemma SecondTierLosesItsRetry(task: Task, events: seq<Event>)
    requires task.chain == PROGRAMMING_CHAIN && task.available == {}
    requires events == [NoVerdict, REJECTION, REJECTION]
    ensures Selected(task, events) == PROGRAMMING_CHAIN[1]
    ensures Selected(task, events + [NoVerdict]) == PROGRAMMING_CHAIN[2]
  {
    AllAvailable(PROGRAMMING_CHAIN);
    SilenceThenTwoRejections(task, [NoVerdict], [NoVerdict, REJECTION], events);
    PickAfterFirst(task, events);
    AfterEvent(task, events, NoVerdict);
    PickAfterFirst(task, events + [NoVerdict]);
  }

  lemma {:induction false} AllAvailable(chain: seq<Route>)
    ensures AvailableChain(chain, {}) == chain
  {
    if chain != [] {
      AllAvailable(chain[1..]);
    }
  }

  lemma OnlyFirstSettled(task: Task, artifacts: seq<Artifact>)
    requires artifacts == Judgement(task, PROGRAMMING_CHAIN[0], REJECTION) + Judgement(task, PROGRAMMING_CHAIN[0], REJECTION)
    ensures Open(PROGRAMMING_CHAIN, artifacts) == PROGRAMMING_CHAIN[1..]
  {
    ProgrammingChainDistinct();
    var chain := PROGRAMMING_CHAIN;
    var key := RouteKey(chain[0]);
    assert ArtifactKey(artifacts[0]) == key && ArtifactKey(artifacts[1]) == key;
    assert artifacts == [artifacts[0]] + [artifacts[1]];
    VerdictsSnoc([], artifacts[0], key);
    assert [] + [artifacts[0]] == [artifacts[0]];
    VerdictsSnoc([artifacts[0]], artifacts[1], key);
    assert Settled(artifacts, key);
    NoneSettled(chain[1..], artifacts);
  }

  lemma {:induction false} NoneSettled(tiers: seq<Route>, artifacts: seq<Artifact>)
    requires forall i, j :: 0 <= i < |tiers| && 0 <= j < |artifacts| ==> RouteKey(tiers[i]) != ArtifactKey(artifacts[j])
    ensures Open(tiers, artifacts) == tiers
  {
    if tiers != [] {
      NoneSettled(tiers[1..], artifacts);
    }
  }
}
