/** The owner's runtime policy: validation, simulation, and the resolver that prefers it. */
module Policy {
  import opened Common
  import opened Routes
  import opened Escalation
  import Text

  datatype PolicyRoute = PolicyRoute(provider: string, requestedModelId: string, priority: int)

  datatype Envelope = Envelope(
    softBudget: int, emergencyCeiling: int, maxOutputTokens: int, maxTurns: int, timeoutMs: int, concurrency: int)

  /** routesByTaskClass may carry any keys: nothing but validatePolicy() restricts them. */
  datatype RuntimePolicy = RuntimePolicy(routes: map<string, seq<PolicyRoute>>, envelope: Envelope)

  datatype FailureEvidence = FailureEvidence(taskId: string, provider: string, code: string)

  datatype OwnerOverride = OwnerOverride(taskId: string, ownerId: string, reason: string, expiresAt: int, codexExecution: bool)

  datatype Simulation = Simulation(selected: Option<PolicyRoute>, reasons: seq<string>)

  const PROGRAMMING_CLASSES: seq<string> := ["bulk_code", "complex_backend", "bounded_repair"]

  const BLOCKED_ALIASES: set<string> := {"sonnet", "opus", "codex", "default"}

  function Lower(c: char): char {
    if 'A' <= c <= 'Z' then ((c as int) + 32) as char else c
  }

  /** toLowerCase() as far as comparison with the all-ASCII aliases can tell. */
  function LowerCase(s: string): string {
    seq(|s|, i requires 0 <= i < |s| => Lower(s[i]))
  }

  function PolicyKey(r: PolicyRoute): string {
    Key(r.provider, r.requestedModelId)
  }

  /** Unknown providers rank below every tier. */
  function Rank(provider: string): int {
    if provider == "deepseek" then 0 else if provider == "codex" then 1 else if provider == "claude" then 2 else -1
  }

  // ---- What a valid policy is ----------------------------------------------------------------

  predicate EnvelopeOk(e: Envelope) {
    && SafeInteger(e.softBudget) && 0 <= e.softBudget
    && SafeInteger(e.emergencyCeiling) && e.softBudget < e.emergencyCeiling
    && SafeInteger(e.maxOutputTokens) && 0 < e.maxOutputTokens
    && SafeInteger(e.maxTurns) && 0 < e.maxTurns
    && SafeInteger(e.timeoutMs) && 0 < e.timeoutMs
    && SafeInteger(e.concurrency) && 0 < e.concurrency
  }

  predicate ConcreteModel(modelId: string) {
    !Text.Blank(modelId) && LowerCase(Text.Trim(modelId)) !in BLOCKED_ALIASES
  }

  /** The same but for the case of ASCII letters. */
  predicate SameLetters(s: string, lower: string) {
    |s| == |lower| && forall i :: 0 <= i < |s| ==> s[i] == lower[i] || ('A' <= s[i] <= 'Z' && lower[i] as int == s[i] as int + 32)
  }

  predicate LowerLetters(s: string) {
    forall i :: 0 <= i < |s| ==> 'a' <= s[i] <= 'z'
  }

  lemma LowerCaseIs(s: string, lower: string)
    requires LowerLetters(lower)
    ensures LowerCase(s) == lower <==> SameLetters(s, lower)
  {
    if SameLetters(s, lower) {
      assert forall i :: 0 <= i < |s| ==> LowerCase(s)[i] == lower[i];
    }
    if LowerCase(s) == lower {
      forall i | 0 <= i < |s| ensures s[i] == lower[i] || ('A' <= s[i] <= 'Z' && lower[i] as int == s[i] as int + 32) {
        assert LowerCase(s)[i] == lower[i];
      }
    }
  }

  /** A model name is refused if it is blank or, trimmed and in whatever case, one of the four aliases. */
  lemma ConcreteModelIff(modelId: string)
    ensures var name := Text.Trim(modelId);
      ConcreteModel(modelId) <==>
        && (exists i :: 0 <= i < |modelId| && !Text.Space(modelId[i]))
        && !SameLetters(name, "sonnet") && !SameLetters(name, "opus")
        && !SameLetters(name, "codex") && !SameLetters(name, "default")
  {
    var name := Text.Trim(modelId);
    LowerCaseIs(name, "sonnet");
    LowerCaseIs(name, "opus");
    LowerCaseIs(name, "codex");
    LowerCaseIs(name, "default");
  }

  predicate RouteOk(r: PolicyRoute) {
    && SafeInteger(r.priority) && 0 <= r.priority
    && 0 <= Rank(r.provider)
    && ConcreteModel(r.requestedModelId)
  }

  /** Distinct priorities that never put a cheaper tier behind a dearer one, DeepSeek first. */
  predicate RoutesOk(routes: seq<PolicyRoute>) {
    && routes != []
    && (forall r :: r in routes ==> RouteOk(r))
    && (forall i, j :: 0 <= i < j < |routes| ==> routes[i].priority != routes[j].priority)
    && (forall i, j :: 0 <= i < |routes| && 0 <= j < |routes| && routes[i].priority < routes[j].priority ==>
          Rank(routes[i].provider) <= Rank(routes[j].provider))
    && (exists i :: 0 <= i < |routes| && routes[i].provider == "deepseek")
  }

  predicate PolicyOk(p: RuntimePolicy) {
    && EnvelopeOk(p.envelope)
    && p.routes.Keys == set k | k in PROGRAMMING_CLASSES
    && forall k :: k in PROGRAMMING_CLASSES && k in p.routes ==> RoutesOk(p.routes[k])
  }

  // ---- Sorting by priority -------------------------------------------------------------------

  function Insert(r: PolicyRoute, sorted: seq<PolicyRoute>): seq<PolicyRoute> {
    if sorted == [] || r.priority <= sorted[0].priority then [r] + sorted
    else [sorted[0]] + Insert(r, sorted[1..])
  }

  /** The stable sort by ascending priority. */
  function ByPriority(routes: seq<PolicyRoute>): seq<PolicyRoute> {
    if routes == [] then [] else Insert(routes[0], ByPriority(routes[1..]))
  }

  predicate Ascending(routes: seq<PolicyRoute>) {
    forall i, j :: 0 <= i < j < |routes| ==> routes[i].priority <= routes[j].priority
  }

  lemma {:induction false} InsertKeeps(r: PolicyRoute, sorted: seq<PolicyRoute>)
    ensures multiset(Insert(r, sorted)) == multiset(sorted) + multiset{r}
  {
    if sorted != [] && sorted[0].priority < r.priority {
      InsertKeeps(r, sorted[1..]);
      assert sorted == [sorted[0]] + sorted[1..];
    }
  }

  lemma InsertedOrOld(r: PolicyRoute, sorted: seq<PolicyRoute>, x: PolicyRoute)
    requires x in Insert(r, sorted)
    ensures x == r || x in sorted
  {
    InsertKeeps(r, sorted);
    assert x in multiset(Insert(r, sorted));
  }

  lemma {:induction false} InsertSorts(r: PolicyRoute, sorted: seq<PolicyRoute>)
    requires Ascending(sorted)
    ensures Ascending(Insert(r, sorted))
  {
    if sorted != [] && sorted[0].priority < r.priority {
      InsertSorts(r, sorted[1..]);
      var rest := Insert(r, sorted[1..]);
      forall j | 0 <= j < |rest| ensures sorted[0].priority <= rest[j].priority {
        InsertedOrOld(r, sorted[1..], rest[j]);
      }
    }
  }

  lemma {:induction false} ByPrioritySorts(routes: seq<PolicyRoute>)
    ensures Ascending(ByPriority(routes))
    ensures multiset(ByPriority(routes)) == multiset(routes)
  {
    if routes != [] {
      ByPrioritySorts(routes[1..]);
      InsertSorts(routes[0], ByPriority(routes[1..]));
      InsertKeeps(routes[0], ByPriority(routes[1..]));
      assert routes == [routes[0]] + routes[1..];
    }
  }

  lemma ByPriorityMembers(routes: seq<PolicyRoute>)
    ensures |ByPriority(routes)| == |routes|
    ensures forall r :: r in ByPriority(routes) <==> r in routes
  {
    ByPrioritySorts(routes);
    assert |multiset(ByPriority(routes))| == |multiset(routes)|;
    forall r ensures r in ByPriority(routes) <==> r in routes {
      assert r in multiset(ByPriority(routes)) <==> r in multiset(routes);
    }
  }

  // ---- validatePolicy() ----------------------------------------------------------------------

  method EnvelopeErrors(e: Envelope) returns (errors: seq<string>)
    ensures errors == [] <==> EnvelopeOk(e)
  {
    errors := [];
    if !SafeInteger(e.softBudget) || e.softBudget < 0 {
      errors := errors + ["softBudgetUsdMicros must be a safe integer >= 0"];
    }
    if !SafeInteger(e.emergencyCeiling) || e.emergencyCeiling <= e.softBudget {
      errors := errors + ["emergencyCostCeilingUsdMicros must exceed softBudgetUsdMicros"];
    }
    var limits := [("maxOutputTokens", e.maxOutputTokens), ("maxTurns", e.maxTurns),
                   ("timeoutMs", e.timeoutMs), ("concurrency", e.concurrency)];
    var more := LimitErrors(limits);
    errors := errors + more;
    assert limits[0].1 == e.maxOutputTokens && limits[1].1 == e.maxTurns;
    assert limits[2].1 == e.timeoutMs && limits[3].1 == e.concurrency;
  }

  method LimitErrors(limits: seq<(string, int)>) returns (errors: seq<string>)
    ensures errors == [] <==> forall i :: 0 <= i < |limits| ==> SafeInteger(limits[i].1) && 0 < limits[i].1
  {
    errors := [];
    for i := 0 to |limits|
      invariant errors == [] <==> forall j :: 0 <= j < i ==> SafeInteger(limits[j].1) && 0 < limits[j].1
    {
      if !SafeInteger(limits[i].1) || limits[i].1 <= 0 {
        errors := errors + [limits[i].0 + " must be a safe integer > 0"];
      }
    }
  }

  /** Each route on its own, and no priority twice, in order of priority. */
  method RouteErrors(taskClass: string, sorted: seq<PolicyRoute>) returns (errors: seq<string>)
    ensures errors == [] <==>
      (forall i :: 0 <= i < |sorted| ==> RouteOk(sorted[i]))
      && (forall i, j :: 0 <= i < j < |sorted| ==> sorted[i].priority != sorted[j].priority)
  {
    errors := [];
    var priorities: set<int> := {};
    for i := 0 to |sorted|
      invariant priorities == set j | 0 <= j < i :: sorted[j].priority
      invariant errors == [] <==>
        (forall k :: 0 <= k < i ==> RouteOk(sorted[k]))
        && (forall k, j :: 0 <= k < j < i ==> sorted[k].priority != sorted[j].priority)
    {
      var route := sorted[i];
      if !SafeInteger(route.priority) || route.priority < 0 {
        errors := errors + [taskClass + ": priority must be safe integer >= 0"];
      } else if route.priority in priorities {
        errors := errors + [taskClass + ": duplicate priority"];
      }
      priorities := priorities + {route.priority};
      if route.provider != "deepseek" && route.provider != "codex" && route.provider != "claude" {
        errors := errors + [taskClass + ": provider must be deepseek, codex, or claude"];
      }
      var model := Text.Trim(route.requestedModelId);
      TrimEmptyIffBlank(route.requestedModelId);
      if model == "" || LowerCase(model) in BLOCKED_ALIASES {
        errors := errors + [taskClass + ": concrete requestedModelId required"];
      }
    }
  }

  lemma {:induction false} TrimStartBlank(s: string)
    ensures Text.TrimStart(s) == "" <==> Text.Blank(s)
    ensures Text.TrimStart(s) == "" || !Text.Space(Text.TrimStart(s)[0])
  {
    if s != "" && Text.Space(s[0]) {
      TrimStartBlank(s[1..]);
      assert forall i :: 0 <= i < |s| - 1 ==> s[1..][i] == s[i + 1];
    }
  }

  lemma {:induction false} TrimEndKeepsFirst(s: string)
    requires s != "" && !Text.Space(s[0])
    ensures Text.TrimEnd(s) != ""
  {
    if Text.Space(s[|s| - 1]) {
      TrimEndKeepsFirst(s[..|s| - 1]);
    }
  }

  lemma TrimEmptyIffBlank(s: string)
    ensures Text.Trim(s) == "" <==> Text.Blank(s)
  {
    TrimStartBlank(s);
    if Text.TrimStart(s) != "" {
      TrimEndKeepsFirst(Text.TrimStart(s));
    }
  }

  /** The tier order along the sorted routes. */
  method OrderErrors(taskClass: string, sorted: seq<PolicyRoute>) returns (errors: seq<string>)
    ensures errors == [] <==> forall i, j :: 0 <= i < j < |sorted| ==> Rank(sorted[i].provider) <= Rank(sorted[j].provider)
  {
    errors := [];
    var highestSeen := -1;
    for i := 0 to |sorted|
      invariant forall k :: 0 <= k < i ==> Rank(sorted[k].provider) <= highestSeen
      invariant highestSeen == -1 || exists k :: 0 <= k < i && Rank(sorted[k].provider) == highestSeen
      invariant errors == [] <==> forall k, j :: 0 <= k < j < i ==> Rank(sorted[k].provider) <= Rank(sorted[j].provider)
    {
      var rank := Rank(sorted[i].provider);
      if rank < highestSeen {
        errors := errors + [taskClass + ": " + sorted[i].provider + " cannot follow a more expensive tier"];
      }
      if highestSeen < rank {
        highestSeen := rank;
      }
    }
  }

  method ClassErrors(taskClass: string, p: RuntimePolicy) returns (errors: seq<string>)
    ensures errors == [] <==> taskClass in p.routes && RoutesOk(p.routes[taskClass])
  {
    if taskClass !in p.routes || p.routes[taskClass] == [] {
      return [taskClass + " routes must be nonempty"];
    }
    var routes := p.routes[taskClass];
    var sorted := ByPriority(routes);
    errors := RouteErrors(taskClass, sorted);
    ByPriorityMembers(routes);
    if sorted[0].provider != "deepseek" {
      errors := errors + [taskClass + ": first route must be deepseek"];
    }
    var order := OrderErrors(taskClass, sorted);
    errors := errors + order;
    SortedOkIffRoutesOk(routes);
  }

  /** What the loops check along the sorted list, said of the list itself. */
  predicate SortedOk(sorted: seq<PolicyRoute>) {
    && sorted != [] && sorted[0].provider == "deepseek"
    && (forall i :: 0 <= i < |sorted| ==> RouteOk(sorted[i]))
    && (forall i, j :: 0 <= i < j < |sorted| ==> sorted[i].priority != sorted[j].priority)
    && (forall i, j :: 0 <= i < j < |sorted| ==> Rank(sorted[i].provider) <= Rank(sorted[j].provider))
  }

  lemma SortedOkIffRoutesOk(routes: seq<PolicyRoute>)
    ensures SortedOk(ByPriority(routes)) <==> RoutesOk(routes)
  {
    ByPrioritySorts(routes);
    ByPriorityMembers(routes);
    if SortedOk(ByPriority(routes)) {
      SortedImpliesRoutes(routes, ByPriority(routes));
    }
    if RoutesOk(routes) {
      RoutesImplySorted(routes, ByPriority(routes));
    }
  }

  lemma PriorityUnique(routes: seq<PolicyRoute>, i: nat, j: nat)
    requires i < |routes| && j < |routes|
    requires forall i, j :: 0 <= i < j < |routes| ==> routes[i].priority != routes[j].priority
    requires routes[i].priority == routes[j].priority
    ensures i == j
  {
  }

  /** Two lists with the same elements have equal priorities nowhere or both somewhere. */
  lemma DistinctPriorities(a: seq<PolicyRoute>, b: seq<PolicyRoute>)
    requires multiset(a) == multiset(b)
    requires forall i, j :: 0 <= i < j < |a| ==> a[i].priority != a[j].priority
    ensures forall i, j :: 0 <= i < j < |b| ==> b[i].priority != b[j].priority
  {
    forall i, j | 0 <= i < j < |b| ensures b[i].priority != b[j].priority {
      if b[i].priority == b[j].priority {
        var x, y := b[i], b[j];
        assert x in multiset(a) && y in multiset(a);
        var p :| 0 <= p < |a| && a[p] == x;
        var q :| 0 <= q < |a| && a[q] == y;
        PriorityUnique(a, p, q);
        TwiceInSeq(b, i, j);
        OnceInSeq(a, p);
      }
    }
  }

  lemma TwiceInSeq(s: seq<PolicyRoute>, i: nat, j: nat)
    requires i < j < |s| && s[i] == s[j]
    ensures 2 <= multiset(s)[s[i]]
  {
    assert s == s[..j] + [s[j]] + s[j + 1..];
    assert s[..j][i] == s[i];
    assert s[i] in multiset(s[..j]);
  }

  lemma OnceInSeq(s: seq<PolicyRoute>, p: nat)
    requires p < |s|
    requires forall i, j :: 0 <= i < j < |s| ==> s[i].priority != s[j].priority
    ensures multiset(s)[s[p]] == 1
  {
    assert s == s[..p] + [s[p]] + s[p + 1..];
    assert s[p] !in s[..p];
    assert s[p] !in s[p + 1..];
    assert multiset(s)[s[p]] == multiset(s[..p])[s[p]] + 1 + multiset(s[p + 1..])[s[p]];
  }

  lemma SortedImpliesRoutes(routes: seq<PolicyRoute>, sorted: seq<PolicyRoute>)
    requires multiset(sorted) == multiset(routes) && Ascending(sorted) && SortedOk(sorted)
    requires |sorted| == |routes| && forall r :: r in sorted <==> r in routes
    ensures RoutesOk(routes)
  {
    DistinctPriorities(sorted, routes);
    forall i, j | 0 <= i < |routes| && 0 <= j < |routes| && routes[i].priority < routes[j].priority
      ensures Rank(routes[i].provider) <= Rank(routes[j].provider)
    {
      assert routes[i] in sorted && routes[j] in sorted;
      var p :| 0 <= p < |sorted| && sorted[p] == routes[i];
      var q :| 0 <= q < |sorted| && sorted[q] == routes[j];
      assert p < q;
    }
    assert sorted[0] in routes;
  }

  lemma RoutesImplySorted(routes: seq<PolicyRoute>, sorted: seq<PolicyRoute>)
    requires multiset(sorted) == multiset(routes) && Ascending(sorted) && RoutesOk(routes)
    requires |sorted| == |routes| && forall r :: r in sorted <==> r in routes
    ensures SortedOk(sorted)
  {
    DistinctPriorities(routes, sorted);
    forall i, j | 0 <= i < j < |sorted| ensures Rank(sorted[i].provider) <= Rank(sorted[j].provider) {
      assert sorted[i] in routes && sorted[j] in routes;
    }
    var d :| 0 <= d < |routes| && routes[d].provider == "deepseek";
    assert routes[d] in sorted;
    var p :| 0 <= p < |sorted| && sorted[p] == routes[d];
    assert Rank(sorted[0].provider) <= 0;
    assert RouteOk(sorted[0]);
  }

  method ValidatePolicy(p: RuntimePolicy) returns (errors: seq<string>)
    ensures errors == [] <==> PolicyOk(p)
  {
    errors := EnvelopeErrors(p.envelope);
    ghost var envelope := errors;
    var left := p.routes.Keys;
    var unexpected: seq<string> := [];
    while left != {}
      invariant left <= p.routes.Keys
      invariant unexpected == [] <==> forall k :: k in p.routes && k !in left ==> k in PROGRAMMING_CLASSES
      decreases left
    {
      var k :| k in left;
      left := left - {k};
      if k !in PROGRAMMING_CLASSES {
        unexpected := unexpected + ["unexpected route key: " + k];
      }
    }
    errors := errors + unexpected;
    var missing: seq<string> := [];
    for i := 0 to |PROGRAMMING_CLASSES|
      invariant missing == [] <==> forall j :: 0 <= j < i ==> PROGRAMMING_CLASSES[j] in p.routes
    {
      if PROGRAMMING_CLASSES[i] !in p.routes {
        missing := missing + ["missing route key: " + PROGRAMMING_CLASSES[i]];
      }
    }
    errors := errors + missing;
    var perClass: seq<string> := [];
    for i := 0 to |PROGRAMMING_CLASSES|
      invariant perClass == [] <==> forall j :: 0 <= j < i ==>
        PROGRAMMING_CLASSES[j] in p.routes && RoutesOk(p.routes[PROGRAMMING_CLASSES[j]])
    {
      var more := ClassErrors(PROGRAMMING_CLASSES[i], p);
      perClass := perClass + more;
    }
    errors := errors + perClass;
  }

  // ---- technicalExecutionAllowed() and simulateProgrammingRoute() -----------------------------

  /** Evidence of a verified failure of `provider` on this task. */
  predicate VerifiedFailure(failures: seq<FailureEvidence>, taskId: string, provider: string) {
    exists i :: 0 <= i < |failures| && failures[i].taskId == taskId && failures[i].provider == provider
             && !Text.Blank(failures[i].code)
  }

  predicate ValidOverride(over: Option<OwnerOverride>, taskId: string, now: int) {
    && over.Some? && over.value.taskId == taskId && over.value.codexExecution
    && now < over.value.expiresAt
    && !Text.Blank(over.value.ownerId) && !Text.Blank(over.value.reason)
  }

  /** DeepSeek always; Codex after a verified DeepSeek failure or by override; Claude after both. */
  predicate ExecutionAllowed(provider: string, taskId: string, now: int, failures: seq<FailureEvidence>, over: Option<OwnerOverride>) {
    if provider == "deepseek" then true
    else if provider == "codex" then
      VerifiedFailure(failures, taskId, "deepseek") || ValidOverride(over, taskId, now)
    else
      VerifiedFailure(failures, taskId, "deepseek") && VerifiedFailure(failures, taskId, "codex")
  }

  method SimulateProgrammingRoute(
    taskClass: string, taskId: string, policy: RuntimePolicy, availability: set<string>, now: int,
    failures: seq<FailureEvidence>, over: Option<OwnerOverride>)
    returns (result: Simulation)
    requires taskClass in PROGRAMMING_CLASSES
    ensures !PolicyOk(policy) ==> result.selected == None && result.reasons != []
    ensures PolicyOk(policy) ==>
      Chosen(ByPriority(policy.routes[taskClass]), taskId, availability, now, failures, over, result.selected)
    ensures PolicyOk(policy) ==> LeastPermitted(policy.routes[taskClass], taskId, availability, now, failures, over, result.selected)
  {
    var errors := ValidatePolicy(policy);
    if errors != [] {
      return Simulation(None, errors);
    }
    result := FirstEligible(ByPriority(policy.routes[taskClass]), taskId, availability, now, failures, over);
    SelectionIs(taskClass, taskId, policy, availability, now, failures, over, result.selected);
  }

  /** The loop over the sorted routes. */
  method FirstEligible(routes: seq<PolicyRoute>, taskId: string, availability: set<string>, now: int,
                       failures: seq<FailureEvidence>, over: Option<OwnerOverride>) returns (result: Simulation)
    ensures Chosen(routes, taskId, availability, now, failures, over, result.selected)
    ensures FirstPermitted(routes, taskId, availability, now, failures, over, result.selected)
  {
    forall r ensures Eligible(r, taskId, availability, now, failures, over) <==> MayRun(r, taskId, availability, now, failures, over) {
      EligibleIsMayRun(r, taskId, availability, now, failures, over);
    }
    var reasons: seq<string> := [];
    for i := 0 to |routes|
      invariant forall j :: 0 <= j < i ==> !Eligible(routes[j], taskId, availability, now, failures, over)
    {
      var key := PolicyKey(routes[i]);
      if key !in availability {
        reasons := reasons + [key + " unavailable"];
        continue;
      }
      if !ExecutionAllowed(routes[i].provider, taskId, now, failures, over) {
        reasons := reasons + [key + " denied"];
        continue;
      }
      return Simulation(Some(routes[i]), reasons);
    }
    return Simulation(None, reasons + ["No eligible programming route"]);
  }

  predicate Eligible(r: PolicyRoute, taskId: string, availability: set<string>, now: int,
                     failures: seq<FailureEvidence>, over: Option<OwnerOverride>)
  {
    PolicyKey(r) in availability && ExecutionAllowed(r.provider, taskId, now, failures, over)
  }

  /** The first eligible route, or none because no route is eligible. */
  predicate Chosen(routes: seq<PolicyRoute>, taskId: string, availability: set<string>, now: int,
                   failures: seq<FailureEvidence>, over: Option<OwnerOverride>, selected: Option<PolicyRoute>)
  {
    match selected
    case None => forall i :: 0 <= i < |routes| ==> !Eligible(routes[i], taskId, availability, now, failures, over)
    case Some(r) =>
      exists i :: 0 <= i < |routes| && routes[i] == r && Eligible(r, taskId, availability, now, failures, over)
        && forall j :: 0 <= j < i ==> !Eligible(routes[j], taskId, availability, now, failures, over)
  }

  // ---- The selection, said of the inputs -------------------------------------------------------

  predicate NotBlank(s: string) {
    exists i :: 0 <= i < |s| && !Text.Space(s[i])
  }

  predicate FailedHere(failures: seq<FailureEvidence>, taskId: string, provider: string) {
    exists f :: f in failures && f.taskId == taskId && f.provider == provider && NotBlank(f.code)
  }

  /** The owner lets Codex run on this task for now, and says who and why. */
  predicate OwnerAllows(over: Option<OwnerOverride>, taskId: string, now: int) {
    && over.Some? && over.value.codexExecution && over.value.taskId == taskId && now < over.value.expiresAt
    && NotBlank(over.value.ownerId) && NotBlank(over.value.reason)
  }

  /** Available and permitted. Any provider but the first two needs both failures; validation leaves only Claude. */
  predicate MayRun(r: PolicyRoute, taskId: string, availability: set<string>, now: int,
                   failures: seq<FailureEvidence>, over: Option<OwnerOverride>)
  {
    && r.provider + ":" + r.requestedModelId in availability
    && (|| r.provider == "deepseek"
        || (r.provider == "codex" && (FailedHere(failures, taskId, "deepseek") || OwnerAllows(over, taskId, now)))
        || (r.provider != "deepseek" && r.provider != "codex"
            && FailedHere(failures, taskId, "deepseek") && FailedHere(failures, taskId, "codex")))
  }

  /** Nothing, because no route may run; or the first in the list that may. */
  predicate FirstPermitted(routes: seq<PolicyRoute>, taskId: string, availability: set<string>, now: int,
                           failures: seq<FailureEvidence>, over: Option<OwnerOverride>, selected: Option<PolicyRoute>)
  {
    match selected
    case None => forall i :: 0 <= i < |routes| ==> !MayRun(routes[i], taskId, availability, now, failures, over)
    case Some(r) =>
      exists i :: 0 <= i < |routes| && routes[i] == r && MayRun(r, taskId, availability, now, failures, over)
        && forall j :: 0 <= j < i ==> !MayRun(routes[j], taskId, availability, now, failures, over)
  }

  /** Nothing, because no listed route may run; or the one of least priority that may. */
  predicate LeastPermitted(routes: seq<PolicyRoute>, taskId: string, availability: set<string>, now: int,
                           failures: seq<FailureEvidence>, over: Option<OwnerOverride>, selected: Option<PolicyRoute>)
  {
    match selected
    case None => forall r :: r in routes ==> !MayRun(r, taskId, availability, now, failures, over)
    case Some(r) =>
      && r in routes && MayRun(r, taskId, availability, now, failures, over)
      && forall other :: other in routes && other != r && MayRun(other, taskId, availability, now, failures, over) ==>
           r.priority < other.priority
  }

  lemma BlankIff(s: string)
    ensures Text.Blank(s) <==> !NotBlank(s)
  {
  }

  lemma FailedHereIff(failures: seq<FailureEvidence>, taskId: string, provider: string)
    ensures VerifiedFailure(failures, taskId, provider) <==> FailedHere(failures, taskId, provider)
  {
    if VerifiedFailure(failures, taskId, provider) {
      var i :| 0 <= i < |failures| && failures[i].taskId == taskId && failures[i].provider == provider && !Text.Blank(failures[i].code);
      BlankIff(failures[i].code);
      assert failures[i] in failures;
    }
    if FailedHere(failures, taskId, provider) {
      var f :| f in failures && f.taskId == taskId && f.provider == provider && NotBlank(f.code);
      var i :| 0 <= i < |failures| && failures[i] == f;
      BlankIff(f.code);
    }
  }

  lemma EligibleIsMayRun(r: PolicyRoute, taskId: string, availability: set<string>, now: int,
                         failures: seq<FailureEvidence>, over: Option<OwnerOverride>)
    ensures Eligible(r, taskId, availability, now, failures, over) <==> MayRun(r, taskId, availability, now, failures, over)
  {
    FailedHereIff(failures, taskId, "deepseek");
    FailedHereIff(failures, taskId, "codex");
    if over.Some? {
      BlankIff(over.value.ownerId);
      BlankIff(over.value.reason);
    }
  }

  lemma SelectionIs(taskClass: string, taskId: string, policy: RuntimePolicy, availability: set<string>, now: int,
                    failures: seq<FailureEvidence>, over: Option<OwnerOverride>, selected: Option<PolicyRoute>)
    requires PolicyOk(policy) && taskClass in PROGRAMMING_CLASSES
    requires Chosen(ByPriority(policy.routes[taskClass]), taskId, availability, now, failures, over, selected)
    ensures LeastPermitted(policy.routes[taskClass], taskId, availability, now, failures, over, selected)
  {
    var routes := policy.routes[taskClass];
    var sorted := ByPriority(routes);
    ByPriorityMembers(routes);
    ByPrioritySorts(routes);
    SortedOkIffRoutesOk(routes);
    forall r | r in routes
      ensures Eligible(r, taskId, availability, now, failures, over) <==> MayRun(r, taskId, availability, now, failures, over)
    {
      EligibleIsMayRun(r, taskId, availability, now, failures, over);
    }
    ChosenIsLeast(sorted, taskId, availability, now, failures, over, selected);
  }

  lemma ChosenIsLeast(sorted: seq<PolicyRoute>, taskId: string, availability: set<string>, now: int,
                      failures: seq<FailureEvidence>, over: Option<OwnerOverride>, selected: Option<PolicyRoute>)
    requires SortedOk(sorted) && Ascending(sorted) && Chosen(sorted, taskId, availability, now, failures, over, selected)
    ensures match selected
      case None => forall r :: r in sorted ==> !Eligible(r, taskId, availability, now, failures, over)
      case Some(r) =>
        && r in sorted && Eligible(r, taskId, availability, now, failures, over)
        && forall other :: other in sorted && other != r && Eligible(other, taskId, availability, now, failures, over) ==>
             r.priority < other.priority
  {
    if selected.Some? {
      var r := selected.value;
      var i :| 0 <= i < |sorted| && sorted[i] == r
        && forall j :: 0 <= j < i ==> !Eligible(sorted[j], taskId, availability, now, failures, over);
      forall other | other in sorted && other != r && Eligible(other, taskId, availability, now, failures, over)
        ensures r.priority < other.priority
      {
        var j :| 0 <= j < |sorted| && sorted[j] == other;
        assert i < j;
      }
    }
  }

  /** Tier-order safety. Claude runs only after verified DeepSeek and Codex failures on this task, and
      only when no DeepSeek or Codex route of the class is available; Codex runs only after a verified
      DeepSeek failure or by the owner's override, and only when no DeepSeek route is available. */
  lemma TierOrderSafety(
    taskClass: string, taskId: string, policy: RuntimePolicy, availability: set<string>, now: int,
    failures: seq<FailureEvidence>, over: Option<OwnerOverride>, selected: PolicyRoute)
    requires PolicyOk(policy) && taskClass in PROGRAMMING_CLASSES
    requires Chosen(ByPriority(policy.routes[taskClass]), taskId, availability, now, failures, over, Some(selected))
    ensures selected in policy.routes[taskClass] && PolicyKey(selected) in availability
    ensures selected.provider == "claude" ==>
      && VerifiedFailure(failures, taskId, "deepseek") && VerifiedFailure(failures, taskId, "codex")
      && forall r :: r in policy.routes[taskClass] && (r.provider == "deepseek" || r.provider == "codex") ==>
           PolicyKey(r) !in availability
    ensures selected.provider == "codex" ==>
      && (VerifiedFailure(failures, taskId, "deepseek") || ValidOverride(over, taskId, now))
      && forall r :: r in policy.routes[taskClass] && r.provider == "deepseek" ==> PolicyKey(r) !in availability
    ensures selected.provider == "deepseek" || selected.provider == "codex" || selected.provider == "claude"
  {
    var routes := policy.routes[taskClass];
    var sorted := ByPriority(routes);
    ByPriorityMembers(routes);
    SortedOkIffRoutesOk(routes);
    ChosenIsAllowed(sorted, taskId, availability, now, failures, over, selected);
    forall r | r in routes && Rank(r.provider) < Rank(selected.provider) ensures !Eligible(r, taskId, availability, now, failures, over) {
      CheaperIsIneligible(sorted, taskId, availability, now, failures, over, selected, r);
    }
  }

  lemma ChosenIsAllowed(sorted: seq<PolicyRoute>, taskId: string, availability: set<string>, now: int,
                        failures: seq<FailureEvidence>, over: Option<OwnerOverride>, selected: PolicyRoute)
    requires SortedOk(sorted) && Chosen(sorted, taskId, availability, now, failures, over, Some(selected))
    ensures selected in sorted && RouteOk(selected) && Eligible(selected, taskId, availability, now, failures, over)
  {
    var i :| 0 <= i < |sorted| && sorted[i] == selected;
    assert RouteOk(sorted[i]);
  }

  lemma CheaperIsIneligible(sorted: seq<PolicyRoute>, taskId: string, availability: set<string>, now: int,
                            failures: seq<FailureEvidence>, over: Option<OwnerOverride>, selected: PolicyRoute, r: PolicyRoute)
    requires SortedOk(sorted) && Chosen(sorted, taskId, availability, now, failures, over, Some(selected))
    requires r in sorted && Rank(r.provider) < Rank(selected.provider)
    ensures !Eligible(r, taskId, availability, now, failures, over)
  {
    var i :| 0 <= i < |sorted| && sorted[i] == selected
      && forall j :: 0 <= j < i ==> !Eligible(sorted[j], taskId, availability, now, failures, over);
    var j :| 0 <= j < |sorted| && sorted[j] == r;
    CheaperComesFirst(sorted, i, j);
  }

  lemma CheaperComesFirst(sorted: seq<PolicyRoute>, i: nat, j: nat)
    requires SortedOk(sorted) && i < |sorted| && j < |sorted|
    requires Rank(sorted[j].provider) < Rank(sorted[i].provider)
    ensures j < i
  {
  }

  // ---- deriveFailureEvidence() and resolve() --------------------------------------------------

  function EvidenceOf(a: Artifact): seq<FailureEvidence> {
    if a.accepted || (a.providerId != "deepseek" && a.providerId != "codex") then []
    else
      var reason := Text.Trim(if a.reason.Some? then a.reason.value else "");
      [FailureEvidence(a.taskId, a.providerId, if reason == "" then "verified_patch_rejection" else reason)]
  }

  function Evidence(records: seq<Artifact>): seq<FailureEvidence> {
    if records == [] then [] else Evidence(records[..|records| - 1]) + EvidenceOf(records[|records| - 1])
  }

  method DeriveFailureEvidence(records: seq<Artifact>) returns (evidence: seq<FailureEvidence>)
    ensures evidence == Evidence(records)
  {
    evidence := [];
    for i := 0 to |records|
      invariant evidence == Evidence(records[..i])
    {
      assert records[..i + 1][..i] == records[..i];
      var record := records[i];
      if record.accepted {
        continue;
      }
      if record.providerId != "deepseek" && record.providerId != "codex" {
        continue;
      }
      var reason := Text.Trim(if record.reason.Some? then record.reason.value else "");
      evidence := evidence + [FailureEvidence(record.taskId, record.providerId,
                                              if reason == "" then "verified_patch_rejection" else reason)];
    }
    assert records[..|records|] == records;
  }

  /** A rejection row of this provider on this task. */
  predicate Rejected(records: seq<Artifact>, taskId: string, provider: string) {
    exists i :: 0 <= i < |records| && records[i].taskId == taskId && records[i].providerId == provider && !records[i].accepted
  }

  lemma {:induction false} TrimIsBlankOnlyIfEmpty(s: string)
    ensures Text.Blank(Text.Trim(s)) ==> Text.Trim(s) == ""
  {
    TrimStartBlank(s);
    var t := Text.TrimStart(s);
    if t != "" {
      TrimEndFirst(t);
    }
  }

  lemma {:induction false} TrimEndFirst(s: string)
    requires s != "" && !Text.Space(s[0])
    ensures Text.TrimEnd(s) != "" && Text.TrimEnd(s)[0] == s[0]
  {
    if Text.Space(s[|s| - 1]) {
      TrimEndFirst(s[..|s| - 1]);
    }
  }

  /** The evidence is exactly the rejections: every rejection is one, whatever its reason says. */
  lemma {:induction false} EvidenceIsRejection(records: seq<Artifact>, taskId: string, provider: string)
    requires provider == "deepseek" || provider == "codex"
    ensures VerifiedFailure(Evidence(records), taskId, provider) <==> Rejected(records, taskId, provider)
  {
    if records != [] {
      var init := records[..|records| - 1];
      var last := records[|records| - 1];
      EvidenceIsRejection(init, taskId, provider);
      EvidenceOfRejection(last, taskId, provider);
      var before := Evidence(init);
      var added := EvidenceOf(last);
      assert Evidence(records) == before + added;
      assert VerifiedFailure(before + added, taskId, provider) <==>
        VerifiedFailure(before, taskId, provider) || VerifiedFailure(added, taskId, provider) by {
        VerifiedFailureConcat(before, added, taskId, provider);
      }
      assert forall i :: 0 <= i < |init| ==> init[i] == records[i];
    }
  }

  lemma VerifiedFailureConcat(a: seq<FailureEvidence>, b: seq<FailureEvidence>, taskId: string, provider: string)
    ensures VerifiedFailure(a + b, taskId, provider) <==>
      VerifiedFailure(a, taskId, provider) || VerifiedFailure(b, taskId, provider)
  {
    if VerifiedFailure(a, taskId, provider) {
      var i :| 0 <= i < |a| && a[i].taskId == taskId && a[i].provider == provider && !Text.Blank(a[i].code);
      assert (a + b)[i] == a[i];
    }
    if VerifiedFailure(b, taskId, provider) {
      var i :| 0 <= i < |b| && b[i].taskId == taskId && b[i].provider == provider && !Text.Blank(b[i].code);
      assert (a + b)[|a| + i] == b[i];
    }
  }

  /** The evidence of one record: none unless it is a rejection of DeepSeek or Codex; else the trimmed reason, or
      a standing code where there is none. */
  lemma EvidenceOfIs(a: Artifact)
    ensures if a.accepted || (a.providerId != "deepseek" && a.providerId != "codex") then EvidenceOf(a) == []
      else
        && |EvidenceOf(a)| == 1
        && var f := EvidenceOf(a)[0];
           && f.taskId == a.taskId && f.provider == a.providerId
           && if a.reason.Some? && NotBlank(a.reason.value) then Text.Trimmed(a.reason.value, f.code)
              else f.code == "verified_patch_rejection"
  {
    if a.reason.Some? {
      Text.TrimIs(a.reason.value);
      BlankIff(a.reason.value);
      TrimEmptyIffBlank(a.reason.value);
    }
  }

  lemma EvidenceOfRejection(a: Artifact, taskId: string, provider: string)
    requires provider == "deepseek" || provider == "codex"
    ensures VerifiedFailure(EvidenceOf(a), taskId, provider) <==>
      a.taskId == taskId && a.providerId == provider && !a.accepted
  {
    TrimIsBlankOnlyIfEmpty(if a.reason.Some? then a.reason.value else "");
    if EvidenceOf(a) != [] {
      var code := EvidenceOf(a)[0].code;
      assert code == "verified_patch_rejection" ==> !Text.Space(code[0]);
      assert !Text.Blank(code);
    }
  }

  /** modelRoutes(taskClass).find(...) */
  function StaticRoute(chain: seq<Route>, r: PolicyRoute): Option<Route> {
    if chain == [] then None
    else if ProviderName(chain[0].provider) == r.provider && chain[0].requestedModelId == r.requestedModelId then Some(chain[0])
    else StaticRoute(chain[1..], r)
  }

  lemma {:induction false} StaticRouteMatches(chain: seq<Route>, r: PolicyRoute)
    ensures StaticRoute(chain, r).Some? ==>
      StaticRoute(chain, r).value in chain && RouteKey(StaticRoute(chain, r).value) == PolicyKey(r)
      && ProviderName(StaticRoute(chain, r).value.provider) == r.provider
  {
    if chain != [] {
      StaticRouteMatches(chain[1..], r);
    }
  }

  predicate NamesRoute(r: PolicyRoute, route: Route) {
    ProviderName(route.provider) == r.provider && route.requestedModelId == r.requestedModelId
  }

  /** Tier `i` is the first of the chain that the policy route names. */
  predicate FirstNamed(r: PolicyRoute, chain: seq<Route>, i: int) {
    0 <= i < |chain| && NamesRoute(r, chain[i]) && forall j :: 0 <= j < i ==> !NamesRoute(r, chain[j])
  }

  /** A policy route is found in the chain if its provider and model are there, as the first such tier. */
  lemma {:induction false} StaticRouteIs(chain: seq<Route>, r: PolicyRoute)
    ensures StaticRoute(chain, r).None? <==> forall i :: 0 <= i < |chain| ==> !NamesRoute(r, chain[i])
    ensures StaticRoute(chain, r).Some? ==> exists i :: FirstNamed(r, chain, i) && chain[i] == StaticRoute(chain, r).value
  {
    if chain != [] {
      var rest := chain[1..];
      StaticRouteIs(rest, r);
      assert forall i :: 0 <= i < |rest| ==> rest[i] == chain[i + 1];
      if NamesRoute(r, chain[0]) {
        assert FirstNamed(r, chain, 0);
      } else if StaticRoute(chain, r).Some? {
        var i :| FirstNamed(r, rest, i) && rest[i] == StaticRoute(rest, r).value;
        assert forall j :: 0 < j < i + 1 ==> chain[j] == rest[j - 1];
        assert FirstNamed(r, chain, i + 1);
      }
    }
  }

  function ClassName(taskClass: TaskClass): string {
    match taskClass
    case BulkCode => "bulk_code"
    case ComplexBackend => "complex_backend"
    case BoundedRepair => "bounded_repair"
    case _ => "other"
  }

  predicate IsProgramming(taskClass: TaskClass) {
    taskClass.BulkCode? || taskClass.ComplexBackend? || taskClass.BoundedRepair?
  }

  /** What a route chosen by an owner's policy has going for it. */
  predicate PolicyRouteOk(route: Route, chain: seq<Route>, artifacts: seq<Artifact>, taskId: string, available: set<string>) {
    && route in chain && RouteKey(route) in available && !Settled(artifacts, RouteKey(route))
    && (route.provider == Codex ==> Rejected(artifacts, taskId, "deepseek"))
    && (route.provider == Claude ==> Rejected(artifacts, taskId, "deepseek") && Rejected(artifacts, taskId, "codex"))
  }

  /** The models that are available and not settled on this task. */
  predicate Offers(offered: set<string>, artifacts: seq<Artifact>, available: set<string>) {
    offered == set key | key in available && !Settled(artifacts, key)
  }

  /** `route` is the static route of the first eligible policy route; None if there is neither. */
  ghost predicate PolicyDecides(route: Option<Route>, taskClass: TaskClass, taskId: string, active: RuntimePolicy,
                                artifacts: seq<Artifact>, available: set<string>, now: int)
    requires IsProgramming(taskClass)
  {
    if !PolicyOk(active) then route == None
    else
      exists selected, offered ::
        && Offers(offered, artifacts, available)
        && Chosen(ByPriority(active.routes[ClassName(taskClass)]), taskId, offered, now, Evidence(artifacts), None, selected)
        && route == if selected.None? then None else StaticRoute(ModelRoutes(taskClass), selected.value)
  }

  /** What the record says when a policy route is chosen without an override. */
  lemma ChosenOnRecord(taskClass: TaskClass, taskId: string, active: RuntimePolicy, artifacts: seq<Artifact>,
                       offered: set<string>, now: int, chosen: PolicyRoute)
    requires IsProgramming(taskClass) && PolicyOk(active)
    requires Chosen(ByPriority(active.routes[ClassName(taskClass)]), taskId, offered, now, Evidence(artifacts), None, Some(chosen))
    ensures PolicyKey(chosen) in offered
    ensures chosen.provider == "codex" ==> Rejected(artifacts, taskId, "deepseek")
    ensures chosen.provider == "claude" ==> Rejected(artifacts, taskId, "deepseek") && Rejected(artifacts, taskId, "codex")
  {
    TierOrderSafety(ClassName(taskClass), taskId, active, offered, now, Evidence(artifacts), None, chosen);
    EvidenceIsRejection(artifacts, taskId, "deepseek");
    EvidenceIsRejection(artifacts, taskId, "codex");
  }

  lemma {:induction false} ChosenRouteOk(taskClass: TaskClass, taskId: string, active: RuntimePolicy, artifacts: seq<Artifact>,
                      available: set<string>, offered: set<string>, now: int, chosen: PolicyRoute)
    requires IsProgramming(taskClass) && PolicyOk(active) && Offers(offered, artifacts, available)
    requires Chosen(ByPriority(active.routes[ClassName(taskClass)]), taskId, offered, now, Evidence(artifacts), None, Some(chosen))
    ensures var route := StaticRoute(ModelRoutes(taskClass), chosen);
      route.Some? ==> PolicyRouteOk(route.value, ModelRoutes(taskClass), artifacts, taskId, available)
  {
    ChosenOnRecord(taskClass, taskId, active, artifacts, offered, now, chosen);
    StaticRouteMatches(ModelRoutes(taskClass), chosen);
  }

  lemma ChosenIsOne(routes: seq<PolicyRoute>, taskId: string, availability: set<string>, now: int, later: int,
                    failures: seq<FailureEvidence>, a: Option<PolicyRoute>, b: Option<PolicyRoute>)
    requires Chosen(routes, taskId, availability, now, failures, None, a)
    requires Chosen(routes, taskId, availability, later, failures, None, b)
    ensures a == b
  {
    assert forall i :: 0 <= i < |routes| ==>
      (Eligible(routes[i], taskId, availability, now, failures, None) <==>
       Eligible(routes[i], taskId, availability, later, failures, None));
  }

  /** An attempt that ends without a verdict leaves no record, so under an active policy the same answer
      follows at any later time, however often: unlike the static walk, which moves on from a silent
      tier, nothing here counts attempts. */
  lemma SilenceChangesNothing(first: Option<Route>, again: Option<Route>, taskClass: TaskClass, taskId: string,
                              active: RuntimePolicy, artifacts: seq<Artifact>, available: set<string>, now: int, later: int)
    requires IsProgramming(taskClass)
    requires PolicyDecides(first, taskClass, taskId, active, artifacts, available, now)
    requires PolicyDecides(again, taskClass, taskId, active, artifacts, available, later)
    ensures again == first
  {
    if PolicyOk(active) {
      var sorted := ByPriority(active.routes[ClassName(taskClass)]);
      var a, offered :| Offers(offered, artifacts, available)
        && Chosen(sorted, taskId, offered, now, Evidence(artifacts), None, a)
        && first == if a.None? then None else StaticRoute(ModelRoutes(taskClass), a.value);
      var b, still :| Offers(still, artifacts, available)
        && Chosen(sorted, taskId, still, later, Evidence(artifacts), None, b)
        && again == if b.None? then None else StaticRoute(ModelRoutes(taskClass), b.value);
      assert offered == still;
      ChosenIsOne(sorted, taskId, offered, now, later, Evidence(artifacts), a, b);
    }
  }

  /** Whatever the policy decides on is open on the record, available and permitted. */
  lemma DecidedIsOk(route: Route, taskClass: TaskClass, taskId: string, active: RuntimePolicy,
                    artifacts: seq<Artifact>, available: set<string>, now: int)
    requires IsProgramming(taskClass)
    requires PolicyDecides(Some(route), taskClass, taskId, active, artifacts, available, now)
    ensures PolicyRouteOk(route, ModelRoutes(taskClass), artifacts, taskId, available)
  {
    var selected, offered :| Offers(offered, artifacts, available)
      && Chosen(ByPriority(active.routes[ClassName(taskClass)]), taskId, offered, now, Evidence(artifacts), None, selected)
      && Some(route) == if selected.None? then None else StaticRoute(ModelRoutes(taskClass), selected.value);
    ChosenRouteOk(taskClass, taskId, active, artifacts, available, offered, now, selected.value);
  }

  /** The classes a policy has a say in are those that share the programming chain. */
  lemma ProgrammingClassesShareTheChain(taskClass: TaskClass)
    ensures IsProgramming(taskClass) <==> ModelRoutes(taskClass) == PROGRAMMING_CHAIN
  {
    assert PROGRAMMING_CHAIN[0].role == "primary-executor";
    assert ModelRoutes(Orchestration)[0].role == "orchestrator";
  }

  /** Under the policy's name for a class. */
  predicate Named(taskClass: TaskClass, name: string) {
    match taskClass
    case BulkCode => name == "bulk_code"
    case ComplexBackend => name == "complex_backend"
    case BoundedRepair => name == "bounded_repair"
    case _ => false
  }

  /** Open to the policy on this record: available, not settled and permitted by the rejections. */
  predicate OpenToPolicy(r: PolicyRoute, taskId: string, artifacts: seq<Artifact>, available: set<string>) {
    var key := r.provider + ":" + r.requestedModelId;
    && key in available && !Settled(artifacts, key)
    && (|| r.provider == "deepseek"
        || (r.provider == "codex" && Rejected(artifacts, taskId, "deepseek"))
        || (r.provider != "deepseek" && r.provider != "codex"
            && Rejected(artifacts, taskId, "deepseek") && Rejected(artifacts, taskId, "codex")))
  }

  /** No listed route is open, or `r` is the open one of least priority. */
  predicate LeastOpen(routes: seq<PolicyRoute>, taskId: string, artifacts: seq<Artifact>, available: set<string>,
                      selected: Option<PolicyRoute>)
  {
    match selected
    case None => forall r :: r in routes ==> !OpenToPolicy(r, taskId, artifacts, available)
    case Some(r) =>
      && r in routes && OpenToPolicy(r, taskId, artifacts, available)
      && forall other :: other in routes && other != r && OpenToPolicy(other, taskId, artifacts, available) ==> r.priority < other.priority
  }

  lemma ChosenIsLeastOpen(taskClass: TaskClass, name: string, taskId: string, active: RuntimePolicy, artifacts: seq<Artifact>,
                          available: set<string>, offered: set<string>, now: int, selected: Option<PolicyRoute>)
    requires IsProgramming(taskClass) && Named(taskClass, name) && PolicyOk(active) && Offers(offered, artifacts, available)
    requires Chosen(ByPriority(active.routes[ClassName(taskClass)]), taskId, offered, now, Evidence(artifacts), None, selected)
    ensures LeastOpen(active.routes[name], taskId, artifacts, available, selected)
  {
    SelectionIs(name, taskId, active, offered, now, Evidence(artifacts), None, selected);
    forall r ensures MayRun(r, taskId, offered, now, Evidence(artifacts), None) <==> OpenToPolicy(r, taskId, artifacts, available) {
      MayRunIsOpen(r, taskId, artifacts, available, offered, now);
    }
  }

  lemma MayRunIsOpen(r: PolicyRoute, taskId: string, artifacts: seq<Artifact>, available: set<string>, offered: set<string>, now: int)
    requires Offers(offered, artifacts, available)
    ensures MayRun(r, taskId, offered, now, Evidence(artifacts), None) <==> OpenToPolicy(r, taskId, artifacts, available)
  {
    EvidenceIsRejection(artifacts, taskId, "deepseek");
    EvidenceIsRejection(artifacts, taskId, "codex");
    FailedHereIff(Evidence(artifacts), taskId, "deepseek");
    FailedHereIff(Evidence(artifacts), taskId, "codex");
  }

  /** What a valid policy decides, said of the record: the first tier of the class's chain that the open listed
      route of least priority names, if there are such a route and tier. */
  lemma DecidesLeastOpen(route: Option<Route>, taskClass: TaskClass, name: string, taskId: string, active: RuntimePolicy,
                         artifacts: seq<Artifact>, available: set<string>, now: int) returns (selected: Option<PolicyRoute>)
    requires IsProgramming(taskClass) && Named(taskClass, name) && PolicyOk(active)
    requires PolicyDecides(route, taskClass, taskId, active, artifacts, available, now)
    ensures LeastOpen(active.routes[name], taskId, artifacts, available, selected)
    ensures var chain := ModelRoutes(taskClass);
      match route
      case None => selected.None? || forall i :: 0 <= i < |chain| ==> !NamesRoute(selected.value, chain[i])
      case Some(r) => selected.Some? && exists i :: FirstNamed(selected.value, chain, i) && chain[i] == r
  {
    var offered;
    selected, offered :| Offers(offered, artifacts, available)
      && Chosen(ByPriority(active.routes[ClassName(taskClass)]), taskId, offered, now, Evidence(artifacts), None, selected)
      && route == if selected.None? then None else StaticRoute(ModelRoutes(taskClass), selected.value);
    ChosenIsLeastOpen(taskClass, name, taskId, active, artifacts, available, offered, now, selected);
    if selected.Some? {
      StaticRouteIs(ModelRoutes(taskClass), selected.value);
    }
  }

  /** What resolve() answers for a programming task: the policy's route, or the static walk's when there is no
      policy or it decides on none. */
  ghost predicate ResolvesTo(route: Route, taskClass: TaskClass, taskId: string, fallback: Route, attemptOrdinal: int,
                             active: Option<RuntimePolicy>, artifacts: seq<Artifact>, available: set<string>, now: int)
    requires IsProgramming(taskClass)
  {
    || (active.Some? && PolicyDecides(Some(route), taskClass, taskId, active.value, artifacts, available, now))
    || (&& (active.Some? ==> PolicyDecides(None, taskClass, taskId, active.value, artifacts, available, now))
        && route == NextTier(ModelRoutes(taskClass), fallback, artifacts, available, attemptOrdinal))
  }

  /** The policy's answer on this task's own record, if it names a known route. */
  method PolicyChoice(
    taskClass: TaskClass, taskId: string, active: RuntimePolicy, artifacts: seq<Artifact>, available: set<string>, now: int)
    returns (route: Option<Route>)
    requires IsProgramming(taskClass) && forall i :: 0 <= i < |artifacts| ==> artifacts[i].taskId == taskId
    ensures PolicyDecides(route, taskClass, taskId, active, artifacts, available, now)
    ensures route.Some? ==> PolicyRouteOk(route.value, ModelRoutes(taskClass), artifacts, taskId, available)
  {
    var failures := DeriveFailureEvidence(artifacts);
    var attempted := SettledTiers(artifacts);
    var offered := set key | key in available && key !in attempted;
    assert Offers(offered, artifacts, available);
    var simulated := SimulateProgrammingRoute(ClassName(taskClass), taskId, active, offered, now, failures, None);
    if simulated.selected.None? {
      return None;
    }
    route := StaticRoute(ModelRoutes(taskClass), simulated.selected.value);
    ChosenRouteOk(taskClass, taskId, active, artifacts, available, offered, now, simulated.selected.value);
  }

  /** resolve(): the owner's policy when one is active and offers something, else the static walk. */
  method Resolve(
    taskClass: TaskClass, taskId: string, fallback: Route, attemptOrdinal: int,
    active: Option<RuntimePolicy>, artifacts: seq<Artifact>, available: set<string>, now: int)
    returns (route: Route, byPolicy: bool)
    requires forall i :: 0 <= i < |artifacts| ==> artifacts[i].taskId == taskId
    ensures !IsProgramming(taskClass) ==> route == fallback && !byPolicy
    ensures IsProgramming(taskClass) && !byPolicy ==>
      route == NextTier(ModelRoutes(taskClass), fallback, artifacts, available, attemptOrdinal)
    ensures active.None? ==> !byPolicy
    ensures IsProgramming(taskClass) && active.Some? ==>
      PolicyDecides(if byPolicy then Some(route) else None, taskClass, taskId, active.value, artifacts, available, now)
    ensures byPolicy ==> PolicyRouteOk(route, ModelRoutes(taskClass), artifacts, taskId, available)
    ensures IsProgramming(taskClass) ==>
      ResolvesTo(route, taskClass, taskId, fallback, attemptOrdinal, active, artifacts, available, now)
  {
    if !IsProgramming(taskClass) {
      return fallback, false;
    }
    if active.Some? {
      var chosen := PolicyChoice(taskClass, taskId, active.value, artifacts, available, now);
      if chosen.Some? {
        return chosen.value, true;
      }
    }
    route := NextStaticTier(ModelRoutes(taskClass), fallback, artifacts, available, attemptOrdinal);
    byPolicy := false;
  }
}
