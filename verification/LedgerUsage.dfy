/** The usage an attempt is read back with, from either ledger. */
module LedgerUsage {
  import opened Common
  import opened Ledger
  import opened LedgerSafety
  import opened LedgerHistory
  import opened MemoryLedger
  import opened LedgerSimulation

  function SliceTotals(slices: seq<Slice>): Usage {
    Usage(SliceCount(Input, slices), SliceCount(Output, slices), SliceCount(Reasoning, slices),
          SliceCount(CacheRead, slices), SliceCount(CacheWrite, slices), SliceCount(Cost, slices))
  }

  ghost function EventTotals(db: Db, id: string): Usage {
    Usage(EventTotal(Input, db, id), EventTotal(Output, db, id), EventTotal(Reasoning, db, id),
          EventTotal(CacheRead, db, id), EventTotal(CacheWrite, db, id), EventTotal(Cost, db, id))
  }

  predicate HasEvents(db: Db, id: string) {
    exists at :: at in db.usage && at.0 == id
  }

  /** The sums the database joins to an attempt: none at all without an event. */
  ghost function ReadUsage(db: Db, id: string): Option<Usage> {
    if HasEvents(db, id) then Some(EventTotals(db, id)) else None
  }

  function TwinUsage(m: Memory, id: string): Option<Usage> {
    if id in m.usage then Some(m.usage[id]) else None
  }

  /** The slices of a completion add up to its totals, field by field. */
  predicate AddsUp(c: Completion) {
    c.modelUsage != [] && SliceTotals(c.modelUsage) == c.usage
  }

  /** The call is a verdict, and accepted. */
  predicate Accepts(db: Db, op: Op) {
    (op.Succeed? || op.Reject?) && Step(db, op).1.Accepted?
  }

  predicate Settles(db: Db, op: Op, id: string) {
    Accepts(db, op) && op.id == id
  }

  lemma {:induction false} InsertedEvents(db: Db, id: string, slices: seq<Slice>)
    requires InsertUsage(db, id, slices).Ok?
    ensures HasEvents(InsertUsage(db, id, slices).value, id) <==> HasEvents(db, id) || slices != []
    decreases |slices|
  {
    if slices != [] {
      var at := (id, slices[0].resolvedModelId);
      var more := db.(usage := db.usage[at := slices[0].usage]);
      assert at in more.usage;
      InsertedEvents(more, id, slices[1..]);
    }
  }

  lemma SettledEvents(db: Db, op: Op)
    requires Inv(db) && Accepts(db, op)
    ensures HasEvents(Step(db, op).0, op.id) <==> op.completion.modelUsage != []
  {
    assert RowInv(db, op.id);
    var paid := Charge(db, op.id, op.completion.usage.costUsdMicros).value;
    InsertedEvents(paid, op.id, op.completion.modelUsage);
    assert Step(db, op).0.usage == InsertUsage(paid, op.id, op.completion.modelUsage).value.usage;
  }

  /** A settled attempt is read back with the sums of its completion's slices. */
  lemma SettledUsage(db: Db, op: Op)
    requires Inv(db) && Accepts(db, op)
    ensures var slices := op.completion.modelUsage;
      ReadUsage(Step(db, op).0, op.id) == if slices == [] then None else Some(SliceTotals(slices))
  {
    SettledEvents(db, op);
    SettledTotals(Input, db, op);
    SettledTotals(Output, db, op);
    SettledTotals(Reasoning, db, op);
    SettledTotals(CacheRead, db, op);
    SettledTotals(CacheWrite, db, op);
    SettledTotals(Cost, db, op);
  }

  lemma TwinSettles(db: Db, m: Memory, op: Op)
    requires Inv(db) && Related(db, m) && Accepts(db, op)
    ensures TwinUsage(MemoryStep(m, op).0, op.id) == Some(op.completion.usage)
  {
    assert HasOutcome(db, op.id, Dispatched);
    assert SameAttempt(db.attempts[op.id], m.byId[op.id], SentAt(m, op.id));
  }

  ghost predicate SameEvents(db: Db, next: Db, id: string) {
    forall at: (string, string) :: at.0 == id ==>
      (at in db.usage <==> at in next.usage) && (at in db.usage ==> db.usage[at] == next.usage[at])
  }

  lemma SameEventsSameUsage(db: Db, next: Db, id: string)
    requires SameEvents(db, next, id)
    ensures ReadUsage(next, id) == ReadUsage(db, id)
  {
    assert forall k :: EventCounts(k, next, id) == EventCounts(k, db, id);
    if HasEvents(db, id) {
      var at :| at in db.usage && at.0 == id;
      assert at in next.usage;
    }
  }

  lemma {:induction false} InsertedElsewhere(db: Db, other: string, slices: seq<Slice>, id: string)
    requires InsertUsage(db, other, slices).Ok? && other != id
    ensures SameEvents(db, InsertUsage(db, other, slices).value, id)
    decreases |slices|
  {
    if slices != [] {
      InsertedElsewhere(db.(usage := db.usage[(other, slices[0].resolvedModelId) := slices[0].usage]), other, slices[1..], id);
    }
  }

  /** Every other call leaves an attempt's usage as it was: in the database, */
  lemma {:induction false} UsageKept(db: Db, op: Op, id: string)
    requires Inv(db) && !Settles(db, op, id)
    ensures ReadUsage(Step(db, op).0, id) == ReadUsage(db, id)
  {
    if Accepts(db, op) {
      var paid := Charge(db, op.id, op.completion.usage.costUsdMicros).value;
      InsertedElsewhere(paid, op.id, op.completion.modelUsage, id);
    } else {
      UsageUntouched(db, op);
    }
    SameEventsSameUsage(db, Step(db, op).0, id);
  }

  lemma UsageUntouched(db: Db, op: Op)
    requires !Accepts(db, op)
    ensures Step(db, op).0.usage == db.usage
  {
  }

  /** and in the twin. */
  lemma {:induction false} TwinUsageKept(db: Db, m: Memory, op: Op, id: string)
    requires Inv(db) && Related(db, m) && Affordable(db, op) && !Settles(db, op, id)
    ensures TwinUsage(MemoryStep(m, op).0, id) == TwinUsage(m, id)
  {
    if op.Succeed? || op.Reject? {
      AffordableIsNeverRefused(db, op);
      SameVerdictGuard(db, m, op);
    } else if op.Reserve? {
      TwinReserves(db, m, op, id);
    }
  }

  lemma TwinReserves(db: Db, m: Memory, op: Op, id: string)
    requires Inv(db) && Related(db, m) && op.Reserve? && Affordable(db, op)
    ensures TwinUsage(MemoryStep(m, op).0, id) == TwinUsage(m, id)
  {
    if op.attempt.key in db.byKey {
      assert KeyInv(db, op.attempt.key);
    } else {
      assert op.attempt.id !in m.usage;
    }
  }

  lemma SameVerdictGuard(db: Db, m: Memory, op: Op)
    requires Inv(db) && Related(db, m) && (op.Succeed? || op.Reject?) && !MoneyRefusal(Step(db, op).1)
    ensures !Step(db, op).1.Accepted? ==> MemoryStep(m, op).0 == m
  {
    if op.id in db.attempts {
      SettleOutcome(db, op);
      assert SameAttempt(db.attempts[op.id], m.byId[op.id], SentAt(m, op.id));
    }
  }

  /** The i-th call of a run settles the attempt. */
  predicate SettlesAt(ops: seq<Op>, i: nat, id: string)
    requires i < |ops|
  {
    Settles(Run(EmptyDb, ops[..i]), ops[i], id)
  }

  lemma {:induction false} SettledSince(ops: seq<Op>, i: nat, id: string)
    requires i < |ops| && SettlesAt(ops, i, id)
    ensures SettledAt(Run(EmptyDb, ops), id)
  {
    var init := ops[..|ops| - 1];
    EmptyKept();
    RunKept(EmptyDb, init);
    if i == |ops| - 1 {
      SettleOutcome(Run(EmptyDb, init), ops[i]);
    } else {
      assert init[..i] == ops[..i];
      SettledSince(init, i, id);
      SettledStays(Run(EmptyDb, init), ops[|ops| - 1], id);
    }
  }

  /** An attempt is settled at most once. */
  lemma {:induction false} SettledOnce(ops: seq<Op>, i: nat, j: nat, id: string)
    requires i < j < |ops| && SettlesAt(ops, i, id)
    ensures !SettlesAt(ops, j, id)
  {
    assert ops[..j][..i] == ops[..i];
    SettledSince(ops[..j], i, id);
    EmptyKept();
    RunKept(EmptyDb, ops[..j]);
    if SettlesAt(ops, j, id) {
      SettleOutcome(Run(EmptyDb, ops[..j]), ops[j]);
    }
  }

  /** Whatever the run settled the attempt with adds up. */
  ghost predicate AllAddUp(ops: seq<Op>, id: string) {
    forall i :: 0 <= i < |ops| && SettlesAt(ops, i, id) ==> AddsUp(ops[i].completion)
  }

  lemma SettlesAtBefore(ops: seq<Op>, i: nat, id: string)
    requires i < |ops| - 1
    ensures SettlesAt(ops[..|ops| - 1], i, id) <==> SettlesAt(ops, i, id)
    ensures SettlesAt(ops, i, id) ==> !SettlesAt(ops, |ops| - 1, id)
  {
    assert ops[..|ops| - 1][..i] == ops[..i];
    if SettlesAt(ops, i, id) {
      SettledOnce(ops, i, |ops| - 1, id);
    }
  }

  lemma AllAddUpStep(ops: seq<Op>, id: string)
    requires ops != []
    ensures AllAddUp(ops, id) <==>
      if SettlesAt(ops, |ops| - 1, id) then AddsUp(ops[|ops| - 1].completion) else AllAddUp(ops[..|ops| - 1], id)
  {
    var init := ops[..|ops| - 1];
    forall i | 0 <= i < |init|
      ensures SettlesAt(init, i, id) <==> SettlesAt(ops, i, id)
      ensures SettlesAt(ops, i, id) ==> !SettlesAt(ops, |ops| - 1, id)
    {
      SettlesAtBefore(ops, i, id);
    }
    if AllAddUp(ops, id) {
      forall i | 0 <= i < |init| && SettlesAt(init, i, id) ensures AddsUp(init[i].completion) {
        assert SettlesAt(ops, i, id);
      }
    }
  }

  /** Over any affordable run an attempt is read back with the same usage from both ledgers if and only if
      the completion it was settled with, if any, adds up: the database sums the slices and the twin
      copies the totals. */
  lemma {:induction false} UsageAgreesIff(ops: seq<Op>, id: string)
    requires AffordableRun(ops)
    ensures ReadUsage(Run(EmptyDb, ops), id) == TwinUsage(MemoryRun(EmptyMemory, ops), id) <==> AllAddUp(ops, id)
  {
    if ops != [] {
      var init := ops[..|ops| - 1];
      AffordableBefore(ops);
      UsageAgreesIff(init, id);
      AllAddUpStep(ops, id);
      UsageStep(init, ops[|ops| - 1], id);
    }
  }

  lemma AffordableBefore(ops: seq<Op>)
    requires AffordableRun(ops) && ops != []
    ensures AffordableRun(ops[..|ops| - 1]) && Affordable(Run(EmptyDb, ops[..|ops| - 1]), ops[|ops| - 1])
  {
    var init := ops[..|ops| - 1];
    forall i | 0 <= i < |init| ensures Affordable(Run(EmptyDb, init[..i]), init[i]) {
      assert init[..i] == ops[..i] && init[i] == ops[i];
    }
  }

  lemma UsageStep(init: seq<Op>, op: Op, id: string)
    requires AffordableRun(init) && Affordable(Run(EmptyDb, init), op)
    ensures var db, m := Run(EmptyDb, init), MemoryRun(EmptyMemory, init);
      ReadUsage(Step(db, op).0, id) == TwinUsage(MemoryStep(m, op).0, id) <==>
        if Settles(db, op, id) then AddsUp(op.completion) else ReadUsage(db, id) == TwinUsage(m, id)
  {
    var db, m := Run(EmptyDb, init), MemoryRun(EmptyMemory, init);
    EmptyKept();
    RunKept(EmptyDb, init);
    RunSimulates(init);
    if Settles(db, op, id) {
      SettledUsage(db, op);
      TwinSettles(db, m, op);
    } else {
      UsageKept(db, op, id);
      TwinUsageKept(db, m, op, id);
    }
  }
}
