/** Capacity: which requests fit, in what order, and who holds a reservation. */
module Capacity {
  import opened Common
  import opened Sums

  /** A UUID or a provider's name, of which only the identity matters here. */
  type Id = nat

  datatype Network = NoNetwork | EgressAllowlist

  datatype Resources = Resources(cpuMillis: int, memoryMiB: int, diskMiB: int, maxProcesses: int, network: Network)

  datatype Request = Request(
    id: Id,
    projectId: Id,
    providerId: Id,
    priority: int,
    interactive: bool,
    queuedAtMs: int,
    budgetAvailable: bool,
    resources: Resources)

  datatype Limits = Limits(
    globalConcurrency: int,
    providerConcurrency: int,
    projectConcurrency: int,
    cpuMillis: int,
    memoryMiB: int,
    diskMiB: int,
    maxProcesses: int,
    minimumFreeDiskMiB: int)

  // ---- eligible() ----------------------------------------------------------------------------

  function CountProvider(active: seq<Request>, providerId: Id): nat {
    if active == [] then 0 else (if active[0].providerId == providerId then 1 else 0) + CountProvider(active[1..], providerId)
  }

  function CountProject(active: seq<Request>, projectId: Id): nat {
    if active == [] then 0 else (if active[0].projectId == projectId then 1 else 0) + CountProject(active[1..], projectId)
  }

  function Total(active: seq<Request>, key: Resources -> int): int {
    if active == [] then 0 else key(active[0].resources) + Total(active[1..], key)
  }

  predicate Eligible(request: Request, active: seq<Request>, limits: Limits) {
    if !request.budgetAvailable || limits.globalConcurrency <= |active| then false
    else
      var total := (key: Resources -> int) => Total(active, key) + key(request.resources);
      && CountProvider(active, request.providerId) < limits.providerConcurrency
      && CountProject(active, request.projectId) < limits.projectConcurrency
      && total((r: Resources) => r.cpuMillis) <= limits.cpuMillis
      && total((r: Resources) => r.memoryMiB) <= limits.memoryMiB
      && total((r: Resources) => r.diskMiB) <= limits.diskMiB
      && total((r: Resources) => r.maxProcesses) <= limits.maxProcesses
  }

  // ---- The same question asked of a table ----------------------------------------------------

  /** Everything a limit is set on. */
  datatype Gauge = Leases | OfProvider(providerId: Id) | OfProject(projectId: Id) | Cpu | Memory | Disk | Processes

  function Weight(g: Gauge, r: Request): int {
    match g
    case Leases => 1
    case OfProvider(p) => if r.providerId == p then 1 else 0
    case OfProject(p) => if r.projectId == p then 1 else 0
    case Cpu => r.resources.cpuMillis
    case Memory => r.resources.memoryMiB
    case Disk => r.resources.diskMiB
    case Processes => r.resources.maxProcesses
  }

  function Limit(limits: Limits, g: Gauge): int {
    match g
    case Leases => limits.globalConcurrency
    case OfProvider(_) => limits.providerConcurrency
    case OfProject(_) => limits.projectConcurrency
    case Cpu => limits.cpuMillis
    case Memory => limits.memoryMiB
    case Disk => limits.diskMiB
    case Processes => limits.maxProcesses
  }

  /** One capacity_reservations row; its key is the request id. */
  datatype Row = Row(
    projectId: Id,
    providerId: Id,
    fence: nat,
    resources: Resources,
    interactive: bool,
    priority: int,
    expiresAtMs: int,
    createdAtMs: int)

  /** The request a row is read back as. */
  function AsRequest(id: Id, row: Row): Request {
    Request(id, row.projectId, row.providerId, row.priority, row.interactive, row.createdAtMs, true, row.resources)
  }

  type Rows = map<Id, Row>

  function Weights(g: Gauge, rows: Rows): map<Id, int> {
    map id | id in rows :: Weight(g, AsRequest(id, rows[id]))
  }

  ghost function Load(g: Gauge, rows: Rows): int {
    Sum(Weights(g, rows))
  }

  ghost predicate Fits(g: Gauge, r: Request, rows: Rows, limits: Limits) {
    Load(g, rows) + Weight(g, r) <= Limit(limits, g)
  }

  /** The request fits under every limit it counts against. */
  ghost predicate Room(r: Request, rows: Rows, limits: Limits) {
    && Fits(Leases, r, rows, limits)
    && Fits(OfProvider(r.providerId), r, rows, limits)
    && Fits(OfProject(r.projectId), r, rows, limits)
    && Fits(Cpu, r, rows, limits)
    && Fits(Memory, r, rows, limits)
    && Fits(Disk, r, rows, limits)
    && Fits(Processes, r, rows, limits)
  }

  function ListLoad(g: Gauge, active: seq<Request>): int {
    if active == [] then 0 else Weight(g, active[0]) + ListLoad(g, active[1..])
  }

  lemma {:induction false} ListLoads(active: seq<Request>, r: Request)
    ensures ListLoad(Leases, active) == |active|
    ensures ListLoad(OfProvider(r.providerId), active) == CountProvider(active, r.providerId)
    ensures ListLoad(OfProject(r.projectId), active) == CountProject(active, r.projectId)
    ensures ListLoad(Cpu, active) == Total(active, (r: Resources) => r.cpuMillis)
    ensures ListLoad(Memory, active) == Total(active, (r: Resources) => r.memoryMiB)
    ensures ListLoad(Disk, active) == Total(active, (r: Resources) => r.diskMiB)
    ensures ListLoad(Processes, active) == Total(active, (r: Resources) => r.maxProcesses)
  {
    if active != [] {
      ListLoads(active[1..], r);
    }
  }

  /** `ids` are the rows' keys, each once, and `active` the rows read back in that order. */
  ghost predicate Lists(ids: seq<Id>, active: seq<Request>, rows: Rows) {
    && |ids| == |active|
    && (forall i, j :: 0 <= i < j < |ids| ==> ids[i] != ids[j])
    && (forall id :: id in rows <==> id in ids)
    && (forall i :: 0 <= i < |ids| ==> ids[i] in rows && active[i] == AsRequest(ids[i], rows[ids[i]]))
  }

  lemma ListsRest(ids: seq<Id>, active: seq<Request>, rows: Rows)
    requires Lists(ids, active, rows) && ids != []
    ensures Lists(ids[1..], active[1..], rows - {ids[0]})
  {
    forall id ensures id in rows - {ids[0]} <==> id in ids[1..] {
      assert id in ids <==> id == ids[0] || id in ids[1..];
    }
  }

  lemma LoadWithout(g: Gauge, rows: Rows, id: Id)
    requires id in rows
    ensures Load(g, rows) == Weight(g, AsRequest(id, rows[id])) + Load(g, rows - {id})
  {
    SumRemove(Weights(g, rows), id);
    assert Weights(g, rows) - {id} == Weights(g, rows - {id});
  }

  lemma {:induction false} ListLoadIsLoad(g: Gauge, ids: seq<Id>, active: seq<Request>, rows: Rows)
    requires Lists(ids, active, rows)
    ensures ListLoad(g, active) == Load(g, rows)
    decreases |ids|
  {
    if ids == [] {
      assert rows == map[];
      assert Weights(g, rows) == map[];
    } else {
      ListsRest(ids, active, rows);
      ListLoadIsLoad(g, ids[1..], active[1..], rows - {ids[0]});
      LoadWithout(g, rows, ids[0]);
    }
  }

  /** The four totals and three counts of eligible(), one by one. */
  lemma EligibleIs(request: Request, active: seq<Request>, limits: Limits)
    ensures Eligible(request, active, limits) <==>
      && request.budgetAvailable && |active| < limits.globalConcurrency
      && CountProvider(active, request.providerId) < limits.providerConcurrency
      && CountProject(active, request.projectId) < limits.projectConcurrency
      && Total(active, (r: Resources) => r.cpuMillis) + request.resources.cpuMillis <= limits.cpuMillis
      && Total(active, (r: Resources) => r.memoryMiB) + request.resources.memoryMiB <= limits.memoryMiB
      && Total(active, (r: Resources) => r.diskMiB) + request.resources.diskMiB <= limits.diskMiB
      && Total(active, (r: Resources) => r.maxProcesses) + request.resources.maxProcesses <= limits.maxProcesses
  {
  }

  /** eligible() on any listing of the table says whether there is budget and room. */
  lemma EligibleIffRoom(r: Request, ids: seq<Id>, active: seq<Request>, rows: Rows, limits: Limits)
    requires Lists(ids, active, rows)
    ensures Eligible(r, active, limits) <==> r.budgetAvailable && Room(r, rows, limits)
  {
    EligibleIs(r, active, limits);
    ListLoads(active, r);
    ListLoadIsLoad(Leases, ids, active, rows);
    ListLoadIsLoad(OfProvider(r.providerId), ids, active, rows);
    ListLoadIsLoad(OfProject(r.projectId), ids, active, rows);
    ListLoadIsLoad(Cpu, ids, active, rows);
    ListLoadIsLoad(Memory, ids, active, rows);
    ListLoadIsLoad(Disk, ids, active, rows);
    ListLoadIsLoad(Processes, ids, active, rows);
  }

  // ---- reserveCapacity() and releaseCapacity() -------------------------------------------------

  datatype CapacityError = InvalidTtl | IdempotencyMismatch | Unavailable | ConstraintViolation | StaleFence

  datatype Lease = Lease(request: Request, fence: nat, expiresAtMs: int)

  /** One call: what the caller asks for and what the outside world says at that moment. `inRowOrder` says
      whether the request object lists its properties in the order a row is read back in, which decides
      whether the two have the same text. */
  datatype Claim = Claim(
    request: Request,
    inRowOrder: bool,
    freeDiskMiB: int,
    nowMs: int,
    ttlMs: int,
    projectKnown: bool)

  datatype Table = Table(rows: Rows, sequence: nat)

  predicate RowChecks(row: Row) {
    && 0 < row.fence
    && 1 <= row.resources.cpuMillis <= 2000
    && 1 <= row.resources.memoryMiB <= 6144
    && 1 <= row.resources.diskMiB <= 102400
    && 1 <= row.resources.maxProcesses <= 128
    && 0 <= row.priority <= 100
  }

  function Live(rows: Rows, nowMs: int): Rows {
    map id | id in rows && nowMs < rows[id].expiresAtMs :: rows[id]
  }

  function NewRow(c: Claim, fence: nat): Row {
    var r := c.request;
    Row(r.projectId, r.providerId, fence, r.resources, r.interactive, r.priority, c.nowMs + c.ttlMs, c.nowMs)
  }

  ghost predicate Admits(limits: Limits, live: Rows, c: Claim) {
    limits.minimumFreeDiskMiB <= c.freeDiskMiB && c.request.budgetAvailable && Room(c.request, live, limits)
  }

  /** A failed insert takes the rows back but not the number drawn from the sequence. */
  function Inserted(t: Table, live: Rows, c: Claim): (Table, Result<Lease, CapacityError>) {
    var fence := t.sequence + 1;
    var row := NewRow(c, fence);
    if !RowChecks(row) || !c.projectKnown then (t.(sequence := fence), Err(ConstraintViolation))
    else (Table(live[c.request.id := row], fence), Ok(Lease(c.request, fence, row.expiresAtMs)))
  }

  /** The two requests have the same text. */
  predicate SameText(prior: Request, c: Claim) {
    prior == c.request && c.inRowOrder
  }

  function Replayed(t: Table, live: Rows, c: Claim): (Table, Result<Lease, CapacityError>)
    requires c.request.id in live
  {
    var r := c.request;
    var prior := AsRequest(r.id, live[r.id]);
    if !SameText(prior, c) then (t, Err(IdempotencyMismatch))
    else (t.(rows := live), Ok(Lease(prior, live[r.id].fence, live[r.id].expiresAtMs)))
  }

  ghost function Reserved(limits: Limits, t: Table, c: Claim): (Table, Result<Lease, CapacityError>) {
    var live := Live(t.rows, c.nowMs);
    if !SafeInteger(c.ttlMs) || c.ttlMs < 1 then (t, Err(InvalidTtl))
    else if c.request.id in live then Replayed(t, live, c)
    else if !Admits(limits, live, c) then (t, Err(Unavailable))
    else Inserted(t, live, c)
  }

  function Released(t: Table, id: Id, fence: nat): (Table, bool) {
    if id in t.rows && t.rows[id].fence == fence then (t.(rows := t.rows - {id}), true) else (t, false)
  }

  class CapacityTable {
    var rows: Rows
    var sequence: nat

    ghost function State(): Table
      reads this
    {
      Table(rows, sequence)
    }

    constructor ()
      ensures State() == Table(map[], 0)
    {
      rows, sequence := map[], 0;
    }

    /** SELECT * FROM capacity_reservations, in some order of the keys. */
    method Select(rows: Rows) returns (ids: seq<Id>, active: seq<Request>)
      ensures Lists(ids, active, rows)
    {
      ids, active := [], [];
      var left := rows.Keys;
      while left != {}
        invariant left <= rows.Keys && |ids| == |active|
        invariant forall id :: id in rows <==> id in left || id in ids
        invariant forall i :: 0 <= i < |ids| ==> ids[i] !in left
        invariant forall i, j :: 0 <= i < j < |ids| ==> ids[i] != ids[j]
        invariant forall i :: 0 <= i < |ids| ==> ids[i] in rows && active[i] == AsRequest(ids[i], rows[ids[i]])
        decreases left
      {
        var id :| id in left;
        ids, active := ids + [id], active + [AsRequest(id, rows[id])];
        left := left - {id};
      }
    }

    method ReserveCapacity(limits: Limits, c: Claim) returns (reply: Result<Lease, CapacityError>)
      modifies this
      ensures (State(), reply) == Reserved(limits, old(State()), c)
    {
      var r := c.request;
      if !SafeInteger(c.ttlMs) || c.ttlMs < 1 {
        return Err(InvalidTtl);
      }
      var saved := rows;
      rows := map id | id in rows && c.nowMs < rows[id].expiresAtMs :: rows[id];
      assert rows == Live(saved, c.nowMs);
      if r.id in rows {
        reply := Replay(saved, c);
        return;
      }
      var admitted := Observe(limits, c);
      if !admitted {
        rows := saved;
        return Err(Unavailable);
      }
      reply := Insert(saved, c);
    }

    method Replay(saved: Rows, c: Claim) returns (reply: Result<Lease, CapacityError>)
      requires c.request.id in rows
      modifies this
      ensures (State(), reply) == Replayed(Table(saved, old(sequence)), old(rows), c)
    {
      var row := rows[c.request.id];
      var prior := AsRequest(c.request.id, row);
      if !SameText(prior, c) {
        rows := saved;
        return Err(IdempotencyMismatch);
      }
      reply := Ok(Lease(prior, row.fence, row.expiresAtMs));
    }

    method Observe(limits: Limits, c: Claim) returns (admitted: bool)
      ensures admitted <==> Admits(limits, rows, c)
    {
      var ids, active := Select(rows);
      EligibleIffRoom(c.request, ids, active, rows, limits);
      admitted := limits.minimumFreeDiskMiB <= c.freeDiskMiB && Eligible(c.request, active, limits);
    }

    method Insert(saved: Rows, c: Claim) returns (reply: Result<Lease, CapacityError>)
      modifies this
      ensures (State(), reply) == Inserted(Table(saved, old(sequence)), old(rows), c)
    {
      var r := c.request;
      sequence := sequence + 1;
      var row := Row(r.projectId, r.providerId, sequence, r.resources, r.interactive, r.priority, c.nowMs + c.ttlMs, c.nowMs);
      if !RowChecks(row) || !c.projectKnown {
        rows := saved;
        return Err(ConstraintViolation);
      }
      rows := rows[r.id := row];
      reply := Ok(Lease(r, sequence, row.expiresAtMs));
    }

    method ReleaseCapacity(id: Id, fence: nat) returns (released: bool)
      modifies this
      ensures (State(), released) == Released(old(State()), id, fence)
    {
      if id !in rows || rows[id].fence != fence {
        return false;
      }
      rows := rows - {id};
      released := true;
    }
  }

  // ---- Runs ------------------------------------------------------------------------------------

  datatype Op = Reserve(claim: Claim) | Release(id: Id, fence: nat)

  datatype Issue = Issue(id: Id, fence: nat)

  /** The table and every lease inserted so far, oldest first. */
  datatype World = World(table: Table, issued: seq<Issue>)

  ghost function After(limits: Limits, t: Table, op: Op): Table {
    match op
    case Reserve(c) => Reserved(limits, t, c).0
    case Release(id, fence) => Released(t, id, fence).0
  }

  /** The call inserted a row. */
  ghost predicate Inserts(limits: Limits, t: Table, op: Op) {
    op.Reserve? && Reserved(limits, t, op.claim).1.Ok? && op.claim.request.id !in Live(t.rows, op.claim.nowMs)
  }

  ghost function Next(limits: Limits, w: World, op: Op): World {
    var table := After(limits, w.table, op);
    World(table, if Inserts(limits, w.table, op) then w.issued + [Issue(op.claim.request.id, table.sequence)] else w.issued)
  }

  ghost function Play(limits: Limits, ops: seq<Op>): World {
    if ops == [] then World(Table(map[], 0), []) else Next(limits, Play(limits, ops[..|ops| - 1]), ops[|ops| - 1])
  }

  // ---- Limits ----------------------------------------------------------------------------------

  /** No limit is exceeded by the rows that count against it. */
  ghost predicate Within(limits: Limits, rows: Rows) {
    forall g {:trigger Limit(limits, g)} :: Load(g, rows) == 0 || Load(g, rows) <= Limit(limits, g)
  }

  predicate AllChecked(rows: Rows) {
    forall id :: id in rows ==> RowChecks(rows[id])
  }

  lemma LoadNonNegative(g: Gauge, rows: Rows)
    requires AllChecked(rows)
    ensures 0 <= Load(g, rows)
  {
    SumNonNegative(Weights(g, rows));
  }

  lemma {:induction false} FewerWeighLess(g: Gauge, rows: Rows, fewer: Rows)
    requires AllChecked(rows) && fewer.Keys <= rows.Keys && (forall id :: id in fewer ==> fewer[id] == rows[id])
    ensures 0 <= Load(g, fewer) <= Load(g, rows)
    decreases |rows|
  {
    LoadNonNegative(g, fewer);
    if id :| id in rows && id !in fewer {
      LoadWithout(g, rows, id);
      FewerWeighLess(g, rows - {id}, fewer);
    } else {
      assert fewer == rows;
    }
  }

  lemma FewerWithin(limits: Limits, rows: Rows, fewer: Rows)
    requires Within(limits, rows) && AllChecked(rows)
    requires fewer.Keys <= rows.Keys && (forall id :: id in fewer ==> fewer[id] == rows[id])
    ensures Within(limits, fewer) && AllChecked(fewer)
  {
    forall g ensures Load(g, fewer) == 0 || Load(g, fewer) <= Limit(limits, g) {
      FewerWeighLess(g, rows, fewer);
    }
  }

  lemma AddedLoad(g: Gauge, rows: Rows, id: Id, row: Row)
    requires id !in rows
    ensures Load(g, rows[id := row]) == Load(g, rows) + Weight(g, AsRequest(id, row))
  {
    SumUpdate(Weights(g, rows), id, Weight(g, AsRequest(id, row)));
    assert Weights(g, rows[id := row]) == Weights(g, rows)[id := Weight(g, AsRequest(id, row))];
  }

  lemma AddedFits(limits: Limits, g: Gauge, rows: Rows, r: Request, row: Row)
    requires Load(g, rows) == 0 || Load(g, rows) <= Limit(limits, g)
    requires r.id !in rows && Room(r, rows, limits)
    requires row.projectId == r.projectId && row.providerId == r.providerId && row.resources == r.resources
    ensures Load(g, rows[r.id := row]) == 0 || Load(g, rows[r.id := row]) <= Limit(limits, g)
  {
    AddedLoad(g, rows, r.id, row);
    assert Weight(g, AsRequest(r.id, row)) == Weight(g, r);
    assert Weight(g, r) == 0 || Fits(g, r, rows, limits);
  }

  lemma InsertWithin(limits: Limits, live: Rows, r: Request, row: Row)
    requires Within(limits, live) && AllChecked(live) && r.id !in live && Room(r, live, limits) && RowChecks(row)
    requires row.projectId == r.projectId && row.providerId == r.providerId && row.resources == r.resources
    ensures Within(limits, live[r.id := row]) && AllChecked(live[r.id := row])
  {
    var rows := live[r.id := row];
    forall g ensures Load(g, rows) == 0 || Load(g, rows) <= Limit(limits, g) {
      AddedFits(limits, g, live, r, row);
    }
  }

  lemma StepWithin(limits: Limits, t: Table, op: Op)
    requires Within(limits, t.rows) && AllChecked(t.rows)
    ensures Within(limits, After(limits, t, op).rows) && AllChecked(After(limits, t, op).rows)
  {
    match op
    case Release(id, _) => FewerWithin(limits, t.rows, t.rows - {id});
    case Reserve(c) =>
      var live := Live(t.rows, c.nowMs);
      FewerWithin(limits, t.rows, live);
      if Inserts(limits, t, op) {
        InsertWithin(limits, live, c.request, NewRow(c, t.sequence + 1));
      }
  }

  /** Whatever is reserved, released and retried, at whatever times: the rows never exceed the global,
      per-provider or per-project counts nor any of the four resource totals. */
  lemma {:induction false} NeverOverCapacity(limits: Limits, ops: seq<Op>)
    ensures Within(limits, Play(limits, ops).table.rows) && AllChecked(Play(limits, ops).table.rows)
  {
    if ops == [] {
      forall g ensures Load(g, map[]) == 0 {
        assert Weights(g, map[]) == map[];
      }
    } else {
      NeverOverCapacity(limits, ops[..|ops| - 1]);
      StepWithin(limits, Play(limits, ops[..|ops| - 1]).table, ops[|ops| - 1]);
    }
  }

  // ---- Fences ----------------------------------------------------------------------------------

  /** The fence last issued for a request id, 0 if none. */
  function LastFence(issued: seq<Issue>, id: Id): nat {
    if issued == [] then 0
    else if issued[|issued| - 1].id == id then issued[|issued| - 1].fence
    else LastFence(issued[..|issued| - 1], id)
  }

  ghost predicate FencesInv(w: World) {
    && (forall i, j :: 0 <= i < j < |w.issued| ==> w.issued[i].fence < w.issued[j].fence)
    && (forall i :: 0 <= i < |w.issued| ==> 0 < w.issued[i].fence <= w.table.sequence)
    && (forall id :: id in w.table.rows ==> w.table.rows[id].fence == LastFence(w.issued, id))
  }

  lemma {:induction false} StepFences(limits: Limits, w: World, op: Op)
    requires FencesInv(w)
    ensures FencesInv(Next(limits, w, op))
  {
    var next := Next(limits, w, op);
    if Inserts(limits, w.table, op) {
      assert next.issued[..|next.issued| - 1] == w.issued;
    }
    forall id | id in next.table.rows ensures next.table.rows[id].fence == LastFence(next.issued, id) {
      if Inserts(limits, w.table, op) && id == op.claim.request.id {
        assert next.table.rows[id].fence == next.table.sequence;
      } else {
        assert id in w.table.rows && next.table.rows[id] == w.table.rows[id];
      }
    }
  }

  lemma {:induction false} PlayFences(limits: Limits, ops: seq<Op>)
    ensures FencesInv(Play(limits, ops))
  {
    if ops != [] {
      PlayFences(limits, ops[..|ops| - 1]);
      StepFences(limits, Play(limits, ops[..|ops| - 1]), ops[|ops| - 1]);
    }
  }

  /** Leases are inserted under strictly increasing fences, and a release takes effect exactly when it
      names the newest fence issued for its request, so a stale holder removes nothing. */
  lemma StaleFenceRemovesNothing(limits: Limits, ops: seq<Op>, id: Id, fence: nat)
    ensures var w := Play(limits, ops);
      && (forall i, j :: 0 <= i < j < |w.issued| ==> w.issued[i].fence < w.issued[j].fence)
      && (Released(w.table, id, fence).1 <==> id in w.table.rows && fence == LastFence(w.issued, id))
      && (fence != LastFence(w.issued, id) ==> Released(w.table, id, fence).0 == w.table)
  {
    PlayFences(limits, ops);
  }

  /** Two rows never share a fence. */
  lemma FencesAreUnique(limits: Limits, ops: seq<Op>, a: Id, b: Id)
    requires a in Play(limits, ops).table.rows && b in Play(limits, ops).table.rows && a != b
    ensures Play(limits, ops).table.rows[a].fence != Play(limits, ops).table.rows[b].fence
  {
    var w := Play(limits, ops);
    PlayFences(limits, ops);
    NeverOverCapacity(limits, ops);
    var i := LastIndex(w.issued, a);
    var j := LastIndex(w.issued, b);
    assert i < j || j < i;
  }

  lemma {:induction false} LastIndex(issued: seq<Issue>, id: Id) returns (i: nat)
    requires LastFence(issued, id) != 0
    ensures i < |issued| && issued[i] == Issue(id, LastFence(issued, id))
  {
    if issued[|issued| - 1].id == id {
      i := |issued| - 1;
    } else {
      i := LastIndex(issued[..|issued| - 1], id);
    }
  }

  // ---- Single leases ---------------------------------------------------------------------------

  ghost function AfterAll(limits: Limits, t: Table, ops: seq<Op>): Table {
    if ops == [] then t else After(limits, AfterAll(limits, t, ops[..|ops| - 1]), ops[|ops| - 1])
  }

  /** No call of these finds the row expired or releases it under its own fence. */
  predicate Spares(row: Row, id: Id, ops: seq<Op>) {
    forall i :: 0 <= i < |ops| ==>
      match ops[i]
      case Reserve(c) => c.nowMs < row.expiresAtMs
      case Release(other, fence) => other != id || fence != row.fence
  }

  /** Whatever else is reserved, refused, retried and released, a row goes only by expiry or by release
      under its own fence. */
  lemma {:induction false} LeaseKept(limits: Limits, t: Table, ops: seq<Op>, id: Id)
    requires id in t.rows && Spares(t.rows[id], id, ops)
    ensures id in AfterAll(limits, t, ops).rows && AfterAll(limits, t, ops).rows[id] == t.rows[id]
  {
    if ops != [] {
      var before, last := ops[..|ops| - 1], ops[|ops| - 1];
      assert forall i :: 0 <= i < |before| ==> before[i] == ops[i];
      LeaseKept(limits, t, before, id);
      if last.Reserve? {
        assert id in Live(AfterAll(limits, t, before).rows, last.claim.nowMs);
      }
    }
  }

  /** A call for a request that is already held inserts nothing and draws no fence. */
  lemma HeldRequestInsertsNothing(limits: Limits, t: Table, c: Claim)
    requires c.request.id in Live(t.rows, c.nowMs)
    ensures var after := Reserved(limits, t, c).0;
      && after.sequence == t.sequence && after.rows.Keys <= t.rows.Keys
      && forall id :: id in after.rows ==> after.rows[id] == t.rows[id]
  {
  }

  /** When a new lease was granted, repeating the call while it lasts succeeds if and only if the request
      lists its properties in the row's order and was queued at the very instant of the reservation;
      otherwise the retry is refused as a mismatch. A retry that succeeds returns the first lease. */
  lemma RetryAcceptedIff(limits: Limits, t: Table, c: Claim, retry: Claim)
    requires Inserts(limits, t, Reserve(c))
    requires retry.request == c.request && retry.nowMs < c.nowMs + c.ttlMs && SafeInteger(retry.ttlMs) && 1 <= retry.ttlMs
    ensures var (next, first) := Reserved(limits, t, c);
      var (_, second) := Reserved(limits, next, retry);
      second == if retry.inRowOrder && c.request.queuedAtMs == c.nowMs then first else Err(IdempotencyMismatch)
  {
    var next := Reserved(limits, t, c).0;
    assert c.request.id in Live(next.rows, retry.nowMs);
    assert AsRequest(c.request.id, next.rows[c.request.id]) == c.request.(queuedAtMs := c.nowMs);
  }
}
