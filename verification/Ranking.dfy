/** The order in which waiting requests are served. */
module Ranking {
  import opened Capacity

  function Clamp(x: int, low: int, high: int): int {
    if high < x then high else if x < low then low else x
  }

  function AgeMinutes(r: Request, nowMs: int): real {
    (if nowMs < r.queuedAtMs then 0 else nowMs - r.queuedAtMs) as real / 60_000.0
  }

  /** The waiting bonus stops at 25 points. */
  function Bonus(minutes: real): real {
    if 25.0 < minutes then 25.0 else minutes
  }

  function Base(r: Request): int {
    Clamp(r.priority, 0, 100) + if r.interactive then 10 else 0
  }

  function Score(r: Request, nowMs: int): real {
    Base(r) as real + Bonus(AgeMinutes(r, nowMs))
  }

  /** `a.localeCompare(b)` on ids, which may call different ids equal. */
  type IdOrder = (Id, Id) -> int

  ghost predicate Consistent(cmp: IdOrder) {
    && (forall a, b :: cmp(a, b) <= 0 <==> 0 <= cmp(b, a))
    && (forall a, b, c :: cmp(a, b) <= 0 && cmp(b, c) <= 0 ==> cmp(a, c) <= 0)
  }

  /** The sort's comparator is not positive on (a, b). */
  predicate NotAfter(cmp: IdOrder, nowMs: int, a: Request, b: Request) {
    if Score(a, nowMs) != Score(b, nowMs) then Score(b, nowMs) < Score(a, nowMs)
    else if a.queuedAtMs != b.queuedAtMs then a.queuedAtMs < b.queuedAtMs
    else cmp(a.id, b.id) <= 0
  }

  function Insert(cmp: IdOrder, nowMs: int, r: Request, ranked: seq<Request>): (all: seq<Request>)
    ensures multiset(all) == multiset{r} + multiset(ranked)
  {
    if ranked == [] || NotAfter(cmp, nowMs, r, ranked[0]) then [r] + ranked
    else
      assert ranked == [ranked[0]] + ranked[1..];
      [ranked[0]] + Insert(cmp, nowMs, r, ranked[1..])
  }

  function Sort(cmp: IdOrder, nowMs: int, requests: seq<Request>): (all: seq<Request>)
    ensures multiset(all) == multiset(requests)
  {
    if requests == [] then []
    else
      assert requests == [requests[0]] + requests[1..];
      Insert(cmp, nowMs, requests[0], Sort(cmp, nowMs, requests[1..]))
  }

  function OnlyEligible(requests: seq<Request>, active: seq<Request>, limits: Limits): seq<Request> {
    if requests == [] then []
    else (if Eligible(requests[0], active, limits) then [requests[0]] else []) + OnlyEligible(requests[1..], active, limits)
  }

  function RankEligible(cmp: IdOrder, requests: seq<Request>, freeDiskMiB: int, active: seq<Request>, limits: Limits, nowMs: int)
    : seq<Request>
  {
    if freeDiskMiB < limits.minimumFreeDiskMiB then [] else Sort(cmp, nowMs, OnlyEligible(requests, active, limits))
  }

  // ---- What the score is -----------------------------------------------------------------------

  /** Priority between 0 and 100, ten points for an interactive request, and a point for each minute waited up
      to twenty-five. */
  lemma ScoreIs(r: Request, nowMs: int)
    ensures var priority := if r.priority < 0 then 0 else if r.priority < 100 then r.priority else 100;
      var waited := if nowMs < r.queuedAtMs then 0 else nowMs - r.queuedAtMs;
      Score(r, nowMs) ==
        priority as real + (if r.interactive then 10.0 else 0.0)
        + (if 1_500_000 <= waited then 25.0 else waited as real / 60_000.0)
  {
  }

  /** Higher score first, then earlier queued, then by id. */
  lemma AheadIff(cmp: IdOrder, nowMs: int, a: Request, b: Request)
    ensures NotAfter(cmp, nowMs, a, b) <==>
      || Score(a, nowMs) > Score(b, nowMs)
      || (Score(a, nowMs) == Score(b, nowMs)
          && (a.queuedAtMs < b.queuedAtMs || (a.queuedAtMs == b.queuedAtMs && cmp(a.id, b.id) <= 0)))
  {
  }

  // ---- The list does not depend on the input order ---------------------------------------------

  lemma NotAfterIsTotal(cmp: IdOrder, nowMs: int, a: Request, b: Request, c: Request)
    requires Consistent(cmp)
    ensures NotAfter(cmp, nowMs, a, b) || NotAfter(cmp, nowMs, b, a)
    ensures NotAfter(cmp, nowMs, a, b) && NotAfter(cmp, nowMs, b, c) ==> NotAfter(cmp, nowMs, a, c)
  {
    assert cmp(a.id, b.id) <= 0 || cmp(b.id, a.id) <= 0;
  }

  predicate Ranked(cmp: IdOrder, nowMs: int, requests: seq<Request>) {
    forall i, j :: 0 <= i < j < |requests| ==> NotAfter(cmp, nowMs, requests[i], requests[j])
  }

  lemma {:induction false} InsertRanks(cmp: IdOrder, nowMs: int, r: Request, ranked: seq<Request>)
    requires Consistent(cmp) && Ranked(cmp, nowMs, ranked)
    ensures Ranked(cmp, nowMs, Insert(cmp, nowMs, r, ranked))
  {
    if ranked == [] {
    } else if NotAfter(cmp, nowMs, r, ranked[0]) {
      forall j | 0 < j < |ranked| ensures NotAfter(cmp, nowMs, r, ranked[j]) {
        NotAfterIsTotal(cmp, nowMs, r, ranked[0], ranked[j]);
      }
    } else {
      var rest := Insert(cmp, nowMs, r, ranked[1..]);
      InsertRanks(cmp, nowMs, r, ranked[1..]);
      NotAfterIsTotal(cmp, nowMs, r, ranked[0], r);
      forall j | 0 <= j < |rest| ensures NotAfter(cmp, nowMs, ranked[0], rest[j]) {
        assert rest[j] in multiset(rest);
        assert rest[j] == r || rest[j] in multiset(ranked[1..]);
      }
    }
  }

  lemma {:induction false} SortRanks(cmp: IdOrder, nowMs: int, requests: seq<Request>)
    requires Consistent(cmp)
    ensures Ranked(cmp, nowMs, Sort(cmp, nowMs, requests))
  {
    if requests != [] {
      SortRanks(cmp, nowMs, requests[1..]);
      InsertRanks(cmp, nowMs, requests[0], Sort(cmp, nowMs, requests[1..]));
    }
  }

  predicate DistinctIds(requests: seq<Request>) {
    forall i, j :: 0 <= i < j < |requests| ==> requests[i].id != requests[j].id
  }

  /** Neither comes before the other: score, queue time and id compare equal. */
  predicate Tie(cmp: IdOrder, nowMs: int, a: Request, b: Request) {
    NotAfter(cmp, nowMs, a, b) && NotAfter(cmp, nowMs, b, a)
  }

  predicate Untied(cmp: IdOrder, nowMs: int, requests: seq<Request>) {
    forall a, b :: a in requests && b in requests && Tie(cmp, nowMs, a, b) ==> a == b
  }

  lemma HeadFirst(cmp: IdOrder, nowMs: int, xs: seq<Request>, x: Request)
    requires Consistent(cmp) && Ranked(cmp, nowMs, xs) && x in xs
    ensures NotAfter(cmp, nowMs, xs[0], x)
  {
    var i :| 0 <= i < |xs| && xs[i] == x;
    NotAfterIsTotal(cmp, nowMs, x, x, x);
  }

  lemma SameLength(xs: seq<Request>, ys: seq<Request>)
    requires multiset(xs) == multiset(ys)
    ensures |xs| == |ys|
  {
    assert |multiset(xs)| == |xs|;
  }

  lemma SameHead(cmp: IdOrder, nowMs: int, xs: seq<Request>, ys: seq<Request>)
    requires Consistent(cmp) && Ranked(cmp, nowMs, xs) && Ranked(cmp, nowMs, ys)
    requires multiset(xs) == multiset(ys) && Untied(cmp, nowMs, xs) && xs != [] && ys != []
    ensures xs[0] == ys[0]
  {
    var x, y := xs[0], ys[0];
    assert x in multiset(ys) && y in multiset(xs);
    HeadFirst(cmp, nowMs, xs, y);
    HeadFirst(cmp, nowMs, ys, x);
    assert y in xs && Tie(cmp, nowMs, x, y);
  }

  lemma TailMultiset(xs: seq<Request>)
    requires xs != []
    ensures multiset(xs[1..]) == multiset(xs) - multiset{xs[0]}
  {
    assert xs == [xs[0]] + xs[1..];
  }

  /** Two rankings of the same untied requests are the same list. */
  lemma {:induction false} RankingIsUnique(cmp: IdOrder, nowMs: int, xs: seq<Request>, ys: seq<Request>)
    requires Consistent(cmp) && Ranked(cmp, nowMs, xs) && Ranked(cmp, nowMs, ys)
    requires multiset(xs) == multiset(ys) && Untied(cmp, nowMs, xs)
    ensures xs == ys
    decreases |xs|
  {
    SameLength(xs, ys);
    if xs != [] {
      SameHead(cmp, nowMs, xs, ys);
      TailMultiset(xs);
      TailMultiset(ys);
      assert forall r :: r in xs[1..] ==> r in xs;
      RankingIsUnique(cmp, nowMs, xs[1..], ys[1..]);
      assert xs == [xs[0]] + xs[1..] && ys == [ys[0]] + ys[1..];
    }
  }

  lemma {:induction false} EligibleCount(requests: seq<Request>, active: seq<Request>, limits: Limits, r: Request)
    ensures multiset(OnlyEligible(requests, active, limits))[r] == if Eligible(r, active, limits) then multiset(requests)[r] else 0
  {
    if requests != [] {
      EligibleCount(requests[1..], active, limits, r);
      assert requests == [requests[0]] + requests[1..];
    }
  }

  lemma {:induction false} SortSameIn(cmp: IdOrder, nowMs: int, requests: seq<Request>)
    ensures forall r :: r in Sort(cmp, nowMs, requests) <==> r in requests
  {
    forall r ensures r in Sort(cmp, nowMs, requests) <==> r in requests {
      assert r in Sort(cmp, nowMs, requests) <==> r in multiset(Sort(cmp, nowMs, requests));
      assert r in requests <==> r in multiset(requests);
    }
  }

  /** The ranking holds exactly the eligible requests, in order. */
  lemma RankingIsRanked(cmp: IdOrder, xs: seq<Request>, freeDiskMiB: int, active: seq<Request>, limits: Limits, nowMs: int)
    requires Consistent(cmp)
    ensures var ranked := RankEligible(cmp, xs, freeDiskMiB, active, limits, nowMs);
      && Ranked(cmp, nowMs, ranked)
      && forall r :: multiset(ranked)[r] ==
           if limits.minimumFreeDiskMiB <= freeDiskMiB && Eligible(r, active, limits) then multiset(xs)[r] else 0
  {
    forall r ensures multiset(OnlyEligible(xs, active, limits))[r] == if Eligible(r, active, limits) then multiset(xs)[r] else 0 {
      EligibleCount(xs, active, limits, r);
    }
    SortRanks(cmp, nowMs, OnlyEligible(xs, active, limits));
  }

  // ---- Ties keep their input order -------------------------------------------------------------

  /** The requests that tie with `r`, in order. */
  function Ties(cmp: IdOrder, nowMs: int, r: Request, requests: seq<Request>): seq<Request> {
    if requests == [] then []
    else (if Tie(cmp, nowMs, r, requests[0]) then [requests[0]] else []) + Ties(cmp, nowMs, r, requests[1..])
  }

  lemma {:induction false} TiesConcat(cmp: IdOrder, nowMs: int, r: Request, xs: seq<Request>, ys: seq<Request>)
    ensures Ties(cmp, nowMs, r, xs + ys) == Ties(cmp, nowMs, r, xs) + Ties(cmp, nowMs, r, ys)
  {
    if xs == [] {
      assert xs + ys == ys;
    } else {
      assert (xs + ys)[1..] == xs[1..] + ys;
      TiesConcat(cmp, nowMs, r, xs[1..], ys);
    }
  }

  lemma TiesCons(cmp: IdOrder, nowMs: int, r: Request, first: Request, rest: seq<Request>)
    ensures var ties := Ties(cmp, nowMs, r, rest);
      Ties(cmp, nowMs, r, [first] + rest) == if Tie(cmp, nowMs, r, first) then [first] + ties else ties
  {
    assert ([first] + rest)[1..] == rest;
    assert [] + Ties(cmp, nowMs, r, rest) == Ties(cmp, nowMs, r, rest);
  }

  lemma NotBothTie(cmp: IdOrder, nowMs: int, r: Request, a: Request, b: Request)
    requires Consistent(cmp) && !NotAfter(cmp, nowMs, a, b)
    ensures !(Tie(cmp, nowMs, r, a) && Tie(cmp, nowMs, r, b))
  {
    NotAfterIsTotal(cmp, nowMs, a, r, b);
  }

  lemma {:induction false} InsertKeepsTies(cmp: IdOrder, nowMs: int, e: Request, ranked: seq<Request>, r: Request)
    requires Consistent(cmp)
    ensures Ties(cmp, nowMs, r, Insert(cmp, nowMs, e, ranked)) == Ties(cmp, nowMs, r, [e] + ranked)
  {
    if !(ranked == [] || NotAfter(cmp, nowMs, e, ranked[0])) {
      var first, rest := ranked[0], ranked[1..];
      assert ranked == [first] + rest;
      InsertKeepsTies(cmp, nowMs, e, rest, r);
      NotBothTie(cmp, nowMs, r, e, first);
      MovedPast(cmp, nowMs, r, e, first, rest);
      TiesCons(cmp, nowMs, r, first, Insert(cmp, nowMs, e, rest));
    }
  }

  lemma MovedPast(cmp: IdOrder, nowMs: int, r: Request, e: Request, first: Request, rest: seq<Request>)
    requires !(Tie(cmp, nowMs, r, e) && Tie(cmp, nowMs, r, first))
    ensures var others := Ties(cmp, nowMs, r, [e] + rest);
      Ties(cmp, nowMs, r, [e] + ([first] + rest)) == if Tie(cmp, nowMs, r, first) then [first] + others else others
  {
    TiesCons(cmp, nowMs, r, e, rest);
    TiesCons(cmp, nowMs, r, first, rest);
    TiesCons(cmp, nowMs, r, e, [first] + rest);
  }

  lemma {:induction false} SortKeepsTies(cmp: IdOrder, nowMs: int, requests: seq<Request>, r: Request)
    requires Consistent(cmp)
    ensures Ties(cmp, nowMs, r, Sort(cmp, nowMs, requests)) == Ties(cmp, nowMs, r, requests)
  {
    if requests != [] {
      var sorted := Sort(cmp, nowMs, requests[1..]);
      SortKeepsTies(cmp, nowMs, requests[1..], r);
      InsertKeepsTies(cmp, nowMs, requests[0], sorted, r);
      TiesCons(cmp, nowMs, r, requests[0], sorted);
      TiesCons(cmp, nowMs, r, requests[0], requests[1..]);
      assert [requests[0]] + requests[1..] == requests;
    }
  }

  function Backwards(requests: seq<Request>): (r: seq<Request>)
    ensures |r| == |requests| && forall i :: 0 <= i < |r| ==> r[i] == requests[|requests| - 1 - i]
    ensures multiset(r) == multiset(requests)
  {
    if requests == [] then []
    else
      assert requests == [requests[0]] + requests[1..];
      Backwards(requests[1..]) + [requests[0]]
  }

  lemma BackwardsSnoc(requests: seq<Request>, r: Request)
    ensures Backwards([r] + requests) == Backwards(requests) + [r]
  {
    assert ([r] + requests)[1..] == requests;
  }

  lemma TiesSnoc(cmp: IdOrder, nowMs: int, r: Request, requests: seq<Request>, last: Request)
    ensures var ties := Ties(cmp, nowMs, r, requests);
      Ties(cmp, nowMs, r, requests + [last]) == if Tie(cmp, nowMs, r, last) then ties + [last] else ties
  {
    TiesConcat(cmp, nowMs, r, requests, [last]);
    TiesCons(cmp, nowMs, r, last, []);
    assert [last] + [] == [last];
  }

  lemma {:induction false} TiesBackwards(cmp: IdOrder, nowMs: int, r: Request, requests: seq<Request>)
    ensures Ties(cmp, nowMs, r, Backwards(requests)) == Backwards(Ties(cmp, nowMs, r, requests))
  {
    if requests != [] {
      var first, rest := requests[0], requests[1..];
      TiesBackwards(cmp, nowMs, r, rest);
      TiesSnoc(cmp, nowMs, r, Backwards(rest), first);
      TiesCons(cmp, nowMs, r, first, rest);
      BackwardsSnoc(Ties(cmp, nowMs, r, rest), first);
      assert [first] + rest == requests;
    }
  }

  lemma {:induction false} EligibleConcat(xs: seq<Request>, ys: seq<Request>, active: seq<Request>, limits: Limits)
    ensures OnlyEligible(xs + ys, active, limits) == OnlyEligible(xs, active, limits) + OnlyEligible(ys, active, limits)
  {
    if xs == [] {
      assert xs + ys == ys;
    } else {
      assert (xs + ys)[1..] == xs[1..] + ys;
      EligibleConcat(xs[1..], ys, active, limits);
    }
  }

  lemma EligibleCons(first: Request, rest: seq<Request>, active: seq<Request>, limits: Limits)
    ensures var eligible := OnlyEligible(rest, active, limits);
      OnlyEligible([first] + rest, active, limits) == if Eligible(first, active, limits) then [first] + eligible else eligible
  {
    assert ([first] + rest)[1..] == rest;
    assert [] + OnlyEligible(rest, active, limits) == OnlyEligible(rest, active, limits);
  }

  lemma EligibleSnoc(requests: seq<Request>, r: Request, active: seq<Request>, limits: Limits)
    ensures var eligible := OnlyEligible(requests, active, limits);
      OnlyEligible(requests + [r], active, limits) == if Eligible(r, active, limits) then eligible + [r] else eligible
  {
    EligibleConcat(requests, [r], active, limits);
    EligibleCons(r, [], active, limits);
    assert [r] + [] == [r];
  }

  lemma {:induction false} EligibleBackwards(requests: seq<Request>, active: seq<Request>, limits: Limits)
    ensures OnlyEligible(Backwards(requests), active, limits) == Backwards(OnlyEligible(requests, active, limits))
  {
    if requests != [] {
      var first, rest := requests[0], requests[1..];
      EligibleBackwards(rest, active, limits);
      EligibleSnoc(Backwards(rest), first, active, limits);
      EligibleCons(first, rest, active, limits);
      BackwardsSnoc(OnlyEligible(rest, active, limits), first);
      assert [first] + rest == requests;
    }
  }

  lemma {:induction false} TiesAre(cmp: IdOrder, nowMs: int, r: Request, requests: seq<Request>)
    ensures forall a :: a in Ties(cmp, nowMs, r, requests) <==> a in requests && Tie(cmp, nowMs, r, a)
    ensures forall a :: multiset(Ties(cmp, nowMs, r, requests))[a] <= multiset(requests)[a]
  {
    if requests != [] {
      TiesAre(cmp, nowMs, r, requests[1..]);
      assert requests == [requests[0]] + requests[1..];
    }
  }

  lemma {:induction false} DistinctOnce(requests: seq<Request>, a: Request)
    requires DistinctIds(requests)
    ensures multiset(requests)[a] <= 1
  {
    if requests != [] {
      assert requests == [requests[0]] + requests[1..];
      assert forall i :: 0 <= i < |requests[1..]| ==> requests[1..][i] == requests[i + 1];
      DistinctOnce(requests[1..], a);
      if requests[0] == a && a in requests[1..] {
        assert false;
      }
    }
  }

  lemma CountedTwice(requests: seq<Request>)
    requires |requests| > 1 && requests[0] == requests[|requests| - 1]
    ensures multiset(requests)[requests[0]] > 1
  {
    assert requests == [requests[0]] + requests[1..|requests| - 1] + [requests[0]];
  }

  /** A list of distinct requests that reads the same both ways has at most one. */
  lemma OneWay(requests: seq<Request>)
    requires Backwards(requests) == requests && forall a :: multiset(requests)[a] <= 1
    ensures |requests| <= 1
  {
    if |requests| > 1 && Backwards(requests)[0] == requests[0] {
      CountedTwice(requests);
      assert false;
    }
  }

  lemma {:induction false} SameBothWaysUntied(cmp: IdOrder, nowMs: int, requests: seq<Request>)
    requires Consistent(cmp) && (forall a :: multiset(requests)[a] <= 1)
    requires Sort(cmp, nowMs, requests) == Sort(cmp, nowMs, Backwards(requests))
    ensures Untied(cmp, nowMs, requests)
  {
    forall a, b | a in requests && b in requests && Tie(cmp, nowMs, a, b) ensures a == b {
      var ties := Ties(cmp, nowMs, a, requests);
      SortKeepsTies(cmp, nowMs, requests, a);
      SortKeepsTies(cmp, nowMs, Backwards(requests), a);
      TiesBackwards(cmp, nowMs, a, requests);
      TiesAre(cmp, nowMs, a, requests);
      NotAfterIsTotal(cmp, nowMs, a, a, a);
      OneWay(ties);
      assert a in ties && b in ties;
    }
  }

  /** Every listing of these requests is ranked into the same list. */
  ghost predicate IgnoresInputOrder(cmp: IdOrder, xs: seq<Request>, freeDiskMiB: int, active: seq<Request>, limits: Limits,
      nowMs: int)
  {
    forall ys :: multiset(ys) == multiset(xs) ==>
      RankEligible(cmp, ys, freeDiskMiB, active, limits, nowMs) == RankEligible(cmp, xs, freeDiskMiB, active, limits, nowMs)
  }

  lemma UntiedIgnoresOrder(cmp: IdOrder, xs: seq<Request>, ys: seq<Request>, active: seq<Request>, limits: Limits, nowMs: int)
    requires Consistent(cmp) && Untied(cmp, nowMs, OnlyEligible(xs, active, limits)) && multiset(ys) == multiset(xs)
    ensures Sort(cmp, nowMs, OnlyEligible(ys, active, limits)) == Sort(cmp, nowMs, OnlyEligible(xs, active, limits))
  {
    var left, right := OnlyEligible(xs, active, limits), OnlyEligible(ys, active, limits);
    forall r ensures multiset(left)[r] == multiset(right)[r] {
      EligibleCount(xs, active, limits, r);
      EligibleCount(ys, active, limits, r);
    }
    SortRanks(cmp, nowMs, left);
    SortRanks(cmp, nowMs, right);
    SortSameIn(cmp, nowMs, left);
    RankingIsUnique(cmp, nowMs, Sort(cmp, nowMs, left), Sort(cmp, nowMs, right));
  }

  /** Requests with distinct ids are ranked into the same list from every input order if and only if the disk
      is too full for any, or no two eligible ones agree in score and queue time with ids that the
      comparator calls equal. */
  lemma {:induction false} RankingIgnoresInputOrderIff(cmp: IdOrder, xs: seq<Request>, freeDiskMiB: int, active: seq<Request>,
      limits: Limits, nowMs: int)
    requires Consistent(cmp) && DistinctIds(xs)
    ensures IgnoresInputOrder(cmp, xs, freeDiskMiB, active, limits, nowMs) <==>
      freeDiskMiB < limits.minimumFreeDiskMiB || Untied(cmp, nowMs, OnlyEligible(xs, active, limits))
  {
    var left := OnlyEligible(xs, active, limits);
    if limits.minimumFreeDiskMiB <= freeDiskMiB {
      if IgnoresInputOrder(cmp, xs, freeDiskMiB, active, limits, nowMs) {
        var back := Backwards(xs);
        assert RankEligible(cmp, back, freeDiskMiB, active, limits, nowMs) == RankEligible(cmp, xs, freeDiskMiB, active, limits, nowMs);
        EligibleBackwards(xs, active, limits);
        forall a ensures multiset(left)[a] <= 1 {
          EligibleCount(xs, active, limits, a);
          DistinctOnce(xs, a);
        }
        SameBothWaysUntied(cmp, nowMs, left);
      }
      if Untied(cmp, nowMs, left) {
        forall ys | multiset(ys) == multiset(xs)
          ensures RankEligible(cmp, ys, freeDiskMiB, active, limits, nowMs) == RankEligible(cmp, xs, freeDiskMiB, active, limits, nowMs)
        {
          UntiedIgnoresOrder(cmp, xs, ys, active, limits, nowMs);
        }
      }
    }
  }

  // ---- Fairness --------------------------------------------------------------------------------

  /** Of two requests with the same base score the one queued first is ahead at every time. */
  lemma FirstQueuedFirst(cmp: IdOrder, nowMs: int, a: Request, b: Request)
    requires Base(a) == Base(b) && a.queuedAtMs < b.queuedAtMs
    ensures NotAfter(cmp, nowMs, a, b) && !NotAfter(cmp, nowMs, b, a)
  {
    assert AgeMinutes(b, nowMs) <= AgeMinutes(a, nowMs);
  }

  /** How far waiting alone can lift a request over one queued `laterMs` after it. */
  function Lift(laterMs: nat): real {
    Bonus(laterMs as real / 60_000.0)
  }

  /** A request that waited longer is ahead at some time exactly when its lower base score is within
      the lift; otherwise no amount of waiting brings it ahead. */
  lemma {:induction false} OvertakesIff(cmp: IdOrder, waiting: Request, newer: Request)
    requires waiting.queuedAtMs < newer.queuedAtMs
    ensures (exists nowMs :: NotAfter(cmp, nowMs, waiting, newer) && newer.queuedAtMs <= nowMs)
      <==> (Base(newer) - Base(waiting)) as real <= Lift(newer.queuedAtMs - waiting.queuedAtMs)
  {
    var gap := (Base(newer) - Base(waiting)) as real;
    var lift := Lift(newer.queuedAtMs - waiting.queuedAtMs);
    if gap <= lift {
      assert NotAfter(cmp, newer.queuedAtMs, waiting, newer);
    }
    forall nowMs | NotAfter(cmp, nowMs, waiting, newer) && newer.queuedAtMs <= nowMs ensures gap <= lift {
      assert AgeMinutes(waiting, nowMs) == AgeMinutes(newer, nowMs) + (newer.queuedAtMs - waiting.queuedAtMs) as real / 60_000.0;
    }
  }
}
