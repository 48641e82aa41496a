/** The in-memory reservations: one lease per request, fenced like the table's. */
module CapacityReservations {
  import opened Common
  import opened Capacity

  datatype Book = Book(fence: nat, leases: map<Id, Lease>)

  function Claimed(s: Book, request: Request, nowMs: int, ttlMs: int): (Book, Result<Lease, CapacityError>) {
    if !SafeInteger(ttlMs) || ttlMs < 1 then (s, Err(InvalidTtl))
    else if request.id in s.leases && nowMs < s.leases[request.id].expiresAtMs then (s, Err(Unavailable))
    else
      var lease := Lease(request, s.fence + 1, nowMs + ttlMs);
      (Book(s.fence + 1, s.leases[request.id := lease]), Ok(lease))
  }

  function Freed(s: Book, requestId: Id, fence: nat): (Book, bool) {
    if requestId !in s.leases || s.leases[requestId].fence != fence then (s, false)
    else (s.(leases := s.leases - {requestId}), true)
  }

  /** A claim with a valid ttl succeeds exactly when no lease of its request lasts beyond now, and is then the one
      lease of the request, under the next fence and for its ttl. */
  lemma ClaimIs(s: Book, request: Request, nowMs: int, ttlMs: int)
    ensures var (next, reply) := Claimed(s, request, nowMs, ttlMs);
      if 1 <= ttlMs < 9_007_199_254_740_992 && (request.id in s.leases ==> s.leases[request.id].expiresAtMs <= nowMs) then
        && reply.Ok? && reply.value.request == request && reply.value.fence == s.fence + 1
        && reply.value.expiresAtMs == nowMs + ttlMs
        && next.fence == s.fence + 1 && next.leases == s.leases[request.id := reply.value]
      else reply.Err? && next == s
  {
  }

  /** A release takes its request's lease away under that lease's own fence, and does nothing under another. */
  lemma FreedIs(s: Book, requestId: Id, fence: nat)
    ensures var (next, released) := Freed(s, requestId, fence);
      if requestId in s.leases && s.leases[requestId].fence == fence then
        released && next.fence == s.fence && next.leases == s.leases - {requestId}
      else !released && next == s
  {
  }

  class CapacityReservations {
    var fence: nat
    var leases: map<Id, Lease>

    ghost function State(): Book
      reads this
    {
      Book(fence, leases)
    }

    constructor ()
      ensures State() == Book(0, map[])
    {
      fence, leases := 0, map[];
    }

    method Claim(request: Request, nowMs: int, ttlMs: int) returns (reply: Result<Lease, CapacityError>)
      modifies this
      ensures (State(), reply) == Claimed(old(State()), request, nowMs, ttlMs)
    {
      if !SafeInteger(ttlMs) || ttlMs < 1 {
        return Err(InvalidTtl);
      }
      if request.id in leases && nowMs < leases[request.id].expiresAtMs {
        return Err(Unavailable);
      }
      fence := fence + 1;
      var lease := Lease(request, fence, nowMs + ttlMs);
      leases := leases[request.id := lease];
      reply := Ok(lease);
    }

    method Release(requestId: Id, fence: nat) returns (released: bool)
      modifies this
      ensures (State(), released) == Freed(old(State()), requestId, fence)
    {
      if requestId !in leases || leases[requestId].fence != fence {
        return false;
      }
      leases := leases - {requestId};
      released := true;
    }
  }

  datatype Action = Take(request: Request, nowMs: int, ttlMs: int) | Free(requestId: Id, fence: nat)

  function Next(s: Book, issued: seq<Issue>, action: Action): (Book, seq<Issue>) {
    match action
    case Free(id, fence) => (Freed(s, id, fence).0, issued)
    case Take(request, nowMs, ttlMs) =>
      var (next, reply) := Claimed(s, request, nowMs, ttlMs);
      (next, if reply.Ok? then issued + [Issue(request.id, reply.value.fence)] else issued)
  }

  /** The leases after a run and every lease given out, oldest first. */
  function Play(actions: seq<Action>): (Book, seq<Issue>) {
    if actions == [] then (Book(0, map[]), [])
    else
      var (s, issued) := Play(actions[..|actions| - 1]);
      Next(s, issued, actions[|actions| - 1])
  }

  ghost predicate FencesInv(s: Book, issued: seq<Issue>) {
    && (forall i, j :: 0 <= i < j < |issued| ==> issued[i].fence < issued[j].fence)
    && (forall i :: 0 <= i < |issued| ==> 0 < issued[i].fence <= s.fence)
    && (forall id :: id in s.leases ==> s.leases[id].fence == LastFence(issued, id))
  }

  lemma StepFences(s: Book, issued: seq<Issue>, action: Action)
    requires FencesInv(s, issued)
    ensures FencesInv(Next(s, issued, action).0, Next(s, issued, action).1)
  {
    var after := Next(s, issued, action).1;
    if after != issued {
      assert after[..|after| - 1] == issued;
    }
  }

  lemma {:induction false} PlayFences(actions: seq<Action>)
    ensures FencesInv(Play(actions).0, Play(actions).1)
  {
    if actions != [] {
      var (s, issued) := Play(actions[..|actions| - 1]);
      PlayFences(actions[..|actions| - 1]);
      StepFences(s, issued, actions[|actions| - 1]);
    }
  }

  /** As in the table: fences strictly increase, and only the newest fence of a request frees it. */
  lemma OnlyTheNewestFenceFrees(actions: seq<Action>, id: Id, fence: nat)
    ensures var (s, issued) := Play(actions);
      && (forall i, j :: 0 <= i < j < |issued| ==> issued[i].fence < issued[j].fence)
      && (Freed(s, id, fence).1 <==> id in s.leases && fence == LastFence(issued, id))
      && (fence != LastFence(issued, id) ==> Freed(s, id, fence).0 == s)
  {
    PlayFences(actions);
  }
}
