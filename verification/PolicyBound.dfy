/** How often a route is asked when an owner's policy is in force, in part or throughout. */
module PolicyBound {
  import opened Common
  import opened Routes
  import opened Escalation
  import opened EscalationBound
  import opened Policy

  /** One attempt: the policy, availability and time it was resolved at, the route and what came of it.
      Everything may differ from one attempt to the next. */
  datatype Attempt = Attempt(active: Option<RuntimePolicy>, available: set<string>, now: int, route: Route, event: Event)

  function Record(task: Task, attempts: seq<Attempt>): seq<Artifact> {
    if attempts == [] then []
    else
      var last := attempts[|attempts| - 1];
      Record(task, attempts[..|attempts| - 1]) + Judgement(task, last.route, last.event)
  }

  /** Each route is what the resolver answered on the record so far. */
  ghost predicate Resolved(task: Task, taskClass: TaskClass, attempts: seq<Attempt>)
    requires IsProgramming(taskClass)
  {
    attempts != [] ==>
      var before, last := attempts[..|attempts| - 1], attempts[|attempts| - 1];
      && Resolved(task, taskClass, before)
      && ResolvesTo(last.route, taskClass, task.id, task.fallback, |attempts|, last.active, Record(task, before),
                    last.available, last.now)
  }

  function OpenNow(task: Task, taskClass: TaskClass, record: seq<Artifact>, available: set<string>): seq<Route> {
    Open(AvailableChain(ModelRoutes(taskClass), available), record)
  }

  /** At every attempt some available tier was still open. */
  predicate NeverExhausted(task: Task, taskClass: TaskClass, attempts: seq<Attempt>) {
    attempts != [] ==>
      var before, last := attempts[..|attempts| - 1], attempts[|attempts| - 1];
      NeverExhausted(task, taskClass, before) && OpenNow(task, taskClass, Record(task, before), last.available) != []
  }

  lemma {:induction false} AvailableInChain(chain: seq<Route>, available: set<string>)
    ensures forall r :: r in AvailableChain(chain, available) ==> r in chain
  {
    if chain != [] {
      AvailableInChain(chain[1..], available);
      assert chain == [chain[0]] + chain[1..];
    }
  }

  /** By policy or by the walk, an open tier of the chain is asked. */
  lemma ResolvesToOpen(task: Task, taskClass: TaskClass, ordinal: int, record: seq<Artifact>, a: Attempt)
    requires IsProgramming(taskClass) && OpenNow(task, taskClass, record, a.available) != []
    requires ResolvesTo(a.route, taskClass, task.id, task.fallback, ordinal, a.active, record, a.available, a.now)
    ensures a.route in ModelRoutes(taskClass) && !Settled(record, RouteKey(a.route))
  {
    if a.active.Some? && PolicyDecides(Some(a.route), taskClass, task.id, a.active.value, record, a.available, a.now) {
      DecidedIsOk(a.route, taskClass, task.id, a.active.value, record, a.available, a.now);
    } else {
      var tiers := AvailableChain(ModelRoutes(taskClass), a.available);
      OpenIsSubsequence(tiers, record);
      AvailableInChain(ModelRoutes(taskClass), a.available);
      assert a.route in Open(tiers, record);
    }
  }

  lemma RecordStep(task: Task, taskClass: TaskClass, attempts: seq<Attempt>)
    requires IsProgramming(taskClass) && attempts != []
    requires Resolved(task, taskClass, attempts) && NeverExhausted(task, taskClass, attempts)
    ensures var before, last := attempts[..|attempts| - 1], attempts[|attempts| - 1];
      && Resolved(task, taskClass, before) && NeverExhausted(task, taskClass, before)
      && last.route in ModelRoutes(taskClass) && !Settled(Record(task, before), RouteKey(last.route))
  {
    var before, last := attempts[..|attempts| - 1], attempts[|attempts| - 1];
    ResolvesToOpen(task, taskClass, |attempts|, Record(task, before), last);
  }

  /** Under any policies, availability and silences a DeepSeek route gets at most two verdicts and any
      other at most one, as long as an available tier is open. */
  lemma {:induction false} VerdictsBoundedByPolicy(task: Task, taskClass: TaskClass, attempts: seq<Attempt>, r: Route)
    requires IsProgramming(taskClass)
    requires Resolved(task, taskClass, attempts) && NeverExhausted(task, taskClass, attempts)
    ensures Verdicts(Record(task, attempts), RouteKey(r)) <= MaxVerdicts(r)
  {
    if attempts != [] {
      var before, last := attempts[..|attempts| - 1], attempts[|attempts| - 1];
      RecordStep(task, taskClass, attempts);
      VerdictsBoundedByPolicy(task, taskClass, before, r);
      JudgementBounded(task, Record(task, before), last.route, last.event, r);
    }
  }

  // ---- All verdicts together -------------------------------------------------------------------

  function MostVerdicts(tiers: seq<Route>): nat {
    if tiers == [] then 0 else MaxVerdicts(tiers[0]) + MostVerdicts(tiers[1..])
  }

  lemma {:induction false} SumBounded(tiers: seq<Route>, record: seq<Artifact>)
    requires forall r :: r in tiers ==> Verdicts(record, RouteKey(r)) <= MaxVerdicts(r)
    ensures VerdictSum(tiers, record) <= MostVerdicts(tiers)
  {
    if tiers != [] {
      assert tiers == [tiers[0]] + tiers[1..];
      SumBounded(tiers[1..], record);
    }
  }

  /** Every verdict is a tier's of the chain. */
  lemma {:induction false} AllOfChain(task: Task, taskClass: TaskClass, attempts: seq<Attempt>)
    requires IsProgramming(taskClass)
    requires Resolved(task, taskClass, attempts) && NeverExhausted(task, taskClass, attempts)
    ensures VerdictSum(ModelRoutes(taskClass), Record(task, attempts)) == |Record(task, attempts)|
  {
    var chain := ModelRoutes(taskClass);
    ProgrammingChainDistinct();
    if attempts == [] {
      NoVerdictsYet(chain);
    } else {
      var before, last := attempts[..|attempts| - 1], attempts[|attempts| - 1];
      RecordStep(task, taskClass, attempts);
      AllOfChain(task, taskClass, before);
      if last.event.Verdict? {
        var a := Judgement(task, last.route, last.event)[0];
        var i :| 0 <= i < |chain| && chain[i] == last.route;
        assert RouteKey(chain[i]) == ArtifactKey(a);
        VerdictSumSnoc(chain, Record(task, before), a);
      } else {
        assert Record(task, attempts) == Record(task, before);
      }
    }
  }

  lemma SixVerdicts()
    ensures MostVerdicts(PROGRAMMING_CHAIN) == 6
  {
    var c := PROGRAMMING_CHAIN;
    assert c[1..][1..] == c[2..] && c[2..][1..] == c[3..] && c[3..][1..] == [];
    assert MostVerdicts(c[3..]) == 1;
    assert MostVerdicts(c[2..]) == 2;
    assert MostVerdicts(c[1..]) == 4;
  }

  /** So a programming task collects at most six verdicts before every available tier is settled, however
      the policies changed on the way. */
  lemma AtMostSixVerdicts(task: Task, taskClass: TaskClass, attempts: seq<Attempt>)
    requires IsProgramming(taskClass)
    requires Resolved(task, taskClass, attempts) && NeverExhausted(task, taskClass, attempts)
    ensures |Record(task, attempts)| <= 6
  {
    forall r | r in ModelRoutes(taskClass) ensures Verdicts(Record(task, attempts), RouteKey(r)) <= MaxVerdicts(r) {
      VerdictsBoundedByPolicy(task, taskClass, attempts, r);
    }
    AllOfChain(task, taskClass, attempts);
    SumBounded(ModelRoutes(taskClass), Record(task, attempts));
    SixVerdicts();
  }
}
