/** Operation evidence: one row per ordinal, never overwritten, and replays checked by digest. */
module Evidence {
  import opened Common
  import opened Canonical
  import opened KeyOrder
  import opened KeyReversal
  import opened KeyTies

  datatype Kind = DriverStarted | DriverOutput | Verification

  datatype RowId = RowId(taskId: nat, attemptOrdinal: nat, ordinal: nat)

  datatype Call = Call(id: RowId, kind: Kind, payload: Json)

  datatype Row = Row(kind: Kind, payloadDigest: int, payload: Json)

  /** SHA-256 of the canonical text: `hash` stands for the former. */
  datatype Digest = Digest(hash: Units -> int, cmp: Comparator) {
    function Of(payload: Json): int {
      hash(Stable(cmp, payload))
    }

    ghost predicate CollisionFree() {
      forall a, b :: hash(a) == hash(b) ==> a == b
    }
  }

  type Table = map<RowId, Row>

  function Recorded(d: Digest, table: Table, call: Call): Table {
    if call.id in table then table else table[call.id := Row(call.kind, d.Of(call.payload), call.payload)]
  }

  predicate Accepted(d: Digest, table: Table, call: Call) {
    call.id in table ==> table[call.id].payloadDigest == d.Of(call.payload)
  }

  class EvidenceLog {
    const digest: Digest
    var table: Table

    constructor (digest: Digest)
      ensures this.digest == digest && table == map[]
    {
      this.digest := digest;
      table := map[];
    }

    /** INSERT ... ON CONFLICT DO NOTHING, then on conflict the stored digest is compared. */
    method Record(call: Call) returns (accepted: bool)
      modifies this
      ensures table == Recorded(digest, old(table), call) && accepted == Accepted(digest, old(table), call)
    {
      var payloadDigest := digest.Of(call.payload);
      if call.id !in table {
        table := table[call.id := Row(call.kind, payloadDigest, call.payload)];
        return true;
      }
      accepted := table[call.id].payloadDigest == payloadDigest;
    }
  }

  function Run(d: Digest, calls: seq<Call>): Table {
    if calls == [] then map[] else Recorded(d, Run(d, calls[..|calls| - 1]), calls[|calls| - 1])
  }

  /** The first call for a row. */
  function First(calls: seq<Call>, id: RowId): Option<Call> {
    if calls == [] then None else if calls[0].id == id then Some(calls[0]) else First(calls[1..], id)
  }

  lemma {:induction false} FirstSnoc(calls: seq<Call>, call: Call, id: RowId)
    ensures First(calls + [call], id) == if First(calls, id).Some? then First(calls, id) else if call.id == id then Some(call) else None
  {
    if calls == [] {
      assert First([call][1..], id) == None;
    } else {
      FirstSnoc(calls[1..], call, id);
      assert (calls + [call])[1..] == calls[1..] + [call];
    }
  }

  /** A row is its first call for ever. */
  lemma {:induction false} RowIsFirstCall(d: Digest, calls: seq<Call>, id: RowId)
    ensures id in Run(d, calls) <==> First(calls, id).Some?
    ensures id in Run(d, calls) ==>
      var call := First(calls, id).value;
      Run(d, calls)[id] == Row(call.kind, d.Of(call.payload), call.payload)
  {
    if calls != [] {
      var before, last := calls[..|calls| - 1], calls[|calls| - 1];
      RowIsFirstCall(d, before, id);
      FirstSnoc(before, last, id);
      assert before + [last] == calls;
    }
  }

  lemma {:induction false} FirstIsCall(calls: seq<Call>, id: RowId)
    requires First(calls, id).Some?
    ensures First(calls, id).value in calls && First(calls, id).value.id == id
  {
    if calls[0].id != id {
      FirstIsCall(calls[1..], id);
    }
  }

  /** After any history, and for any comparator, a call on a row already there is accepted only with the
      payload that row was first written with, up to key order; the kind plays no part. */
  lemma {:induction false} AcceptedMeansSamePayload(d: Digest, calls: seq<Call>, call: Call)
    requires d.CollisionFree() && WellFormed(call.payload)
    requires forall i :: 0 <= i < |calls| ==> WellFormed(calls[i].payload)
    ensures var first := First(calls, call.id);
      Accepted(d, Run(d, calls), call) && first.Some? ==> Meaning(first.value.payload) == Meaning(call.payload)
  {
    RowIsFirstCall(d, calls, call.id);
    var first := First(calls, call.id);
    if first.Some? && Accepted(d, Run(d, calls), call) {
      FirstIsCall(calls, call.id);
      StableInjective(d.cmp, first.value.payload, call.payload);
    }
  }

  /** What acceptance means exactly: the row is new, or it was first written with the same payload up to the
      order of keys the comparator does not tie. */
  lemma {:induction false} AcceptedIff(d: Digest, calls: seq<Call>, call: Call)
    requires d.CollisionFree() && Consistent(d.cmp) && WellFormed(call.payload)
    requires forall i :: 0 <= i < |calls| ==> WellFormed(calls[i].payload)
    ensures var first := First(calls, call.id);
      Accepted(d, Run(d, calls), call) <==>
        (first.Some? ==>
           && Meaning(first.value.payload) == Meaning(call.payload)
           && TiesAlike(d.cmp, first.value.payload, call.payload))
  {
    RowIsFirstCall(d, calls, call.id);
    var first := First(calls, call.id);
    if first.Some? {
      FirstIsCall(calls, call.id);
      SameTextIff(d.cmp, first.value.payload, call.payload);
    }
  }

  /** Where the comparator tells apart the keys of the payload first written, the same payload in any key
      order is accepted too. */
  lemma {:induction false} AcceptedIffSamePayload(d: Digest, calls: seq<Call>, call: Call)
    requires d.CollisionFree() && Consistent(d.cmp) && WellFormed(call.payload)
    requires forall i :: 0 <= i < |calls| ==> WellFormed(calls[i].payload)
    requires var first := First(calls, call.id); first.Some? ==> Separated(d.cmp, first.value.payload)
    ensures var first := First(calls, call.id);
      Accepted(d, Run(d, calls), call) <==> (first.Some? ==> Meaning(first.value.payload) == Meaning(call.payload))
  {
    RowIsFirstCall(d, calls, call.id);
    var first := First(calls, call.id);
    if first.Some? {
      FirstIsCall(calls, call.id);
      StableDecides(d.cmp, first.value.payload, call.payload);
    }
  }

  /** Every call for the row with the payload it was first written with, its keys in whatever order. */
  ghost predicate EveryOrderAccepted(d: Digest, calls: seq<Call>, first: Call) {
    forall call: Call :: call.id == first.id && WellFormed(call.payload) && Meaning(call.payload) == Meaning(first.payload) ==>
      Accepted(d, Run(d, calls), call)
  }

  /** And exactly there: once a row is written, replays are accepted in every key order if and only if the
      comparator tells the keys of its payload apart. */
  lemma {:induction false} EveryOrderAcceptedIff(d: Digest, calls: seq<Call>, id: RowId)
    requires d.CollisionFree() && Consistent(d.cmp) && First(calls, id).Some?
    requires WellFormed(First(calls, id).value.payload)
    ensures EveryOrderAccepted(d, calls, First(calls, id).value) <==> Separated(d.cmp, First(calls, id).value.payload)
  {
    var first := First(calls, id).value;
    RowIsFirstCall(d, calls, id);
    FirstIsCall(calls, id);
    IgnoresKeyOrderIff(d.cmp, first.payload);
    if EveryOrderAccepted(d, calls, first) {
      forall b | WellFormed(b) && Meaning(b) == Meaning(first.payload) ensures Stable(d.cmp, b) == Stable(d.cmp, first.payload) {
        assert Accepted(d, Run(d, calls), Call(id, first.kind, b));
      }
    }
  }
}
