/** The single supervisor lease, its fencing token, and the checkpoints written under it. */
module SequenceLease {
  import opened Common
  import Text

  datatype SequenceCheckpoint = SequenceCheckpoint(contractId: string, milestoneId: string, phase: string, evidenceIds: seq<string>)

  datatype OperationCheckpoint = OperationCheckpoint(taskId: string, attemptOrdinal: int, state: string, summaryId: string)

  /** The checkpoint column: a sequence checkpoint, and under one of its keys the last operation. */
  datatype CheckpointValue = CheckpointValue(sequence: Option<SequenceCheckpoint>, lastOperation: Option<OperationCheckpoint>)

  datatype Lease = Lease(owner: string, fencingToken: nat, expiresAt: int)

  /** The four lease columns, which are NULL together. */
  datatype Held = Held(owner: string, token: nat, heartbeatAt: int, expiresAt: int)

  /** The sequence_supervisor row and the token sequence. */
  datatype Row = Row(running: bool, checkpoint: CheckpointValue, version: nat, lease: Option<Held>, sequence: nat)

  datatype LeaseError = InvalidLease | Unavailable | Stale | EvidenceRequired | InvalidOperation

  // ---- Validation ------------------------------------------------------------------------------

  predicate Digit(c: char) { '0' <= c <= '9' }
  predicate LowerHex(c: char) { Digit(c) || 'a' <= c <= 'f' || c == '-' }
  predicate StateLetter(c: char) { 'a' <= c <= 'z' || c == '_' }
  predicate EvidenceLetter(c: char) { 'a' <= c <= 'z' || 'A' <= c <= 'Z' || Digit(c) || c == ':' || c == '_' || c == '-' }

  predicate AllOf(s: string, letter: char -> bool) {
    forall i :: 0 <= i < |s| ==> letter(s[i])
  }

  predicate CheckpointOk(v: SequenceCheckpoint) {
    && |v.contractId| == 12 && v.contractId[..9] == "CONTRACT-" && AllOf(v.contractId[9..], Digit)
    && 2 <= |v.milestoneId| && v.milestoneId[0] == 'M' && AllOf(v.milestoneId[1..], Digit)
    && 1 <= |v.phase| <= 100
    && v.evidenceIds != []
    && (forall i :: 0 <= i < |v.evidenceIds| ==> 1 <= |v.evidenceIds[i]| <= 200 && AllOf(v.evidenceIds[i], EvidenceLetter))
  }

  predicate OperationOk(v: OperationCheckpoint) {
    && |v.taskId| == 36 && AllOf(v.taskId, LowerHex)
    && SafeInteger(v.attemptOrdinal) && 1 <= v.attemptOrdinal
    && 2 <= |v.state| <= 40 && AllOf(v.state, StateLetter)
    && |v.summaryId| == 36 && AllOf(v.summaryId, LowerHex)
  }

  predicate TtlOk(ttlMs: int) {
    SafeInteger(ttlMs) && 1000 <= ttlMs
  }

  // ---- The same, character by character --------------------------------------------------------

  predicate Written(s: string, letters: string) {
    forall i :: 0 <= i < |s| ==> s[i] in letters
  }

  lemma LettersAre(c: char)
    ensures Digit(c) <==> c in Text.DIGITS
    ensures LowerHex(c) <==> c in Text.DIGITS + "abcdef" + "-"
    ensures StateLetter(c) <==> c in Text.LOWER + "_"
    ensures EvidenceLetter(c) <==> c in Text.LOWER + Text.UPPER + Text.DIGITS + ":_-"
  {
    Text.AlphabetsAre(c);
    Text.InRun("abcdef", 'a', c);
    assert c in "-" <==> c == '-';
    assert c in "_" <==> c == '_';
    assert c in ":_-" <==> c == ':' || c == '_' || c == '-';
  }

  lemma AllLetters(s: string)
    ensures AllOf(s, Digit) <==> Written(s, Text.DIGITS)
    ensures AllOf(s, LowerHex) <==> Written(s, Text.DIGITS + "abcdef" + "-")
    ensures AllOf(s, StateLetter) <==> Written(s, Text.LOWER + "_")
    ensures AllOf(s, EvidenceLetter) <==> Written(s, Text.LOWER + Text.UPPER + Text.DIGITS + ":_-")
  {
    forall i | 0 <= i < |s|
      ensures Digit(s[i]) <==> s[i] in Text.DIGITS
      ensures LowerHex(s[i]) <==> s[i] in Text.DIGITS + "abcdef" + "-"
      ensures StateLetter(s[i]) <==> s[i] in Text.LOWER + "_"
      ensures EvidenceLetter(s[i]) <==> s[i] in Text.LOWER + Text.UPPER + Text.DIGITS + ":_-"
    {
      LettersAre(s[i]);
    }
  }

  /** One to two hundred letters, digits, colons, underscores and hyphens. */
  predicate EvidenceWritten(id: string) {
    0 < |id| < 201 && Written(id, Text.LOWER + Text.UPPER + Text.DIGITS + ":_-")
  }

  lemma EvidenceWrittenIff(ids: seq<string>)
    ensures (forall i :: 0 <= i < |ids| ==> 1 <= |ids[i]| <= 200 && AllOf(ids[i], EvidenceLetter)) <==>
      forall id :: id in ids ==> EvidenceWritten(id)
  {
    forall i | 0 <= i < |ids|
      ensures 1 <= |ids[i]| <= 200 && AllOf(ids[i], EvidenceLetter) <==> EvidenceWritten(ids[i])
    {
      AllLetters(ids[i]);
    }
    if forall id :: id in ids ==> EvidenceWritten(id) {
      assert forall i :: 0 <= i < |ids| ==> EvidenceWritten(ids[i]);
    }
  }

  lemma NameParts(v: SequenceCheckpoint, number: string, milestone: string)
    requires v.contractId == "CONTRACT-" + number && v.milestoneId == "M" + milestone
    ensures |v.contractId| == 9 + |number| && v.contractId[..9] == "CONTRACT-" && v.contractId[9..] == number
    ensures |v.milestoneId| == 1 + |milestone| && v.milestoneId[0] == 'M' && v.milestoneId[1..] == milestone
  {
  }

  /** A sequence checkpoint is well formed exactly if its contract is CONTRACT- and three digits, its milestone M
      and digits, its phase between 1 and 100 long, and its evidence a nonempty list of well-formed ids. */
  lemma CheckpointOkIff(v: SequenceCheckpoint, number: string, milestone: string)
    requires v.contractId == "CONTRACT-" + number && v.milestoneId == "M" + milestone
    ensures CheckpointOk(v) <==>
      && |number| == 3 && Written(number, Text.DIGITS) && milestone != "" && Written(milestone, Text.DIGITS)
      && 0 < |v.phase| < 101 && |v.evidenceIds| > 0
      && (forall id :: id in v.evidenceIds ==> EvidenceWritten(id))
  {
    NameParts(v, number, milestone);
    AllLetters(number);
    AllLetters(milestone);
    EvidenceWrittenIff(v.evidenceIds);
  }

  lemma OtherNamesRefused(v: SequenceCheckpoint)
    requires CheckpointOk(v)
    ensures exists number :: v.contractId == "CONTRACT-" + number
    ensures exists milestone :: v.milestoneId == "M" + milestone
  {
    assert v.contractId == "CONTRACT-" + v.contractId[9..];
    assert v.milestoneId == "M" + v.milestoneId[1..];
  }

  /** An operation checkpoint exactly if its two ids are 36 hexadecimal digits and hyphens, its attempt is a safe
      positive number and its state is 2 to 40 lower-case letters and underscores. */
  lemma OperationOkIff(v: OperationCheckpoint)
    ensures OperationOk(v) <==>
      && |v.taskId| == 36 && Written(v.taskId, Text.DIGITS + "abcdef" + "-")
      && 0 < v.attemptOrdinal < 9_007_199_254_740_992
      && 1 < |v.state| < 41 && Written(v.state, Text.LOWER + "_")
      && |v.summaryId| == 36 && Written(v.summaryId, Text.DIGITS + "abcdef" + "-")
  {
    AllLetters(v.taskId);
    AllLetters(v.state);
    AllLetters(v.summaryId);
  }

  // ---- The statements --------------------------------------------------------------------------

  /** Calls on the store, and what others do to the row and the sequence. `now` is the transaction's time. */
  datatype Op =
    | Claim(owner: string, ttlMs: int, now: int)
    | Heartbeat(lease: Lease, ttlMs: int, now: int)
    | Checkpoint(lease: Lease, value: SequenceCheckpoint, now: int)
    | Operation(lease: Lease, operation: OperationCheckpoint, now: int)
    | Release(lease: Lease)
    | SetRoadmap(running: bool)
    | DrawToken

  /** The row is held, unexpired, by the lease's owner under its token. */
  predicate HeldBy(r: Row, lease: Lease, now: int) {
    r.lease.Some? && r.lease.value.owner == lease.owner && r.lease.value.token == lease.fencingToken && now < r.lease.value.expiresAt
  }

  predicate Accepts(r: Row, op: Op) {
    match op
    case Claim(owner, ttlMs, now) =>
      owner != "" && TtlOk(ttlMs) && r.running && (r.lease.None? || r.lease.value.expiresAt <= now)
    case Heartbeat(lease, ttlMs, now) => TtlOk(ttlMs) && HeldBy(r, lease, now)
    case Checkpoint(lease, value, now) => CheckpointOk(value) && HeldBy(r, lease, now)
    case Operation(lease, operation, now) => OperationOk(operation) && HeldBy(r, lease, now)
    case Release(lease) => r.lease.Some? && r.lease.value.owner == lease.owner && r.lease.value.token == lease.fencingToken
    case SetRoadmap(_) => true
    case DrawToken => true
  }

  function Updated(r: Row, op: Op): Row {
    if !Accepts(r, op) then r
    else
      match op
      case Claim(owner, ttlMs, now) =>
        r.(lease := Some(Held(owner, r.sequence + 1, now, now + ttlMs)), sequence := r.sequence + 1)
      case Heartbeat(_, ttlMs, now) =>
        r.(lease := Some(r.lease.value.(heartbeatAt := now, expiresAt := now + ttlMs)))
      case Checkpoint(_, value, _) => r.(checkpoint := CheckpointValue(Some(value), None), version := r.version + 1)
      case Operation(_, operation, _) =>
        r.(checkpoint := r.checkpoint.(lastOperation := Some(operation)), version := r.version + 1)
      case Release(_) => r.(lease := None)
      case SetRoadmap(running) => r.(running := running)
      case DrawToken => r.(sequence := r.sequence + 1)
  }

  /** A claim succeeds exactly for a named owner, a lease of at least a second, a running sequence and a row that
      is free or expired. */
  lemma ClaimSucceedsIff(r: Row, owner: string, ttlMs: int, now: int)
    ensures Accepts(r, Claim(owner, ttlMs, now)) <==>
      && |owner| > 0 && 1000 <= ttlMs < 9_007_199_254_740_992 && r.running
      && (r.lease.None? || r.lease.value.expiresAt <= now)
  {
  }

  /** The row is held under this owner and token. */
  predicate Holds(r: Row, lease: Lease) {
    r.lease.Some? && r.lease.value.owner == lease.owner && r.lease.value.token == lease.fencingToken
  }

  /** Each call takes effect exactly under its own conditions, and then on its own columns. */
  lemma StatementsAre(r: Row, op: Op)
    ensures var next := Updated(r, op);
      match op
      case Claim(owner, ttlMs, now) =>
        if Accepts(r, op) then
          && next == r.(lease := next.lease, sequence := r.sequence + 1) && next.lease.Some?
          && var held := next.lease.value;
             held.owner == owner && held.token == r.sequence + 1 && held.heartbeatAt == now && held.expiresAt == now + ttlMs
        else next == r
      case Heartbeat(lease, ttlMs, now) =>
        if 1000 <= ttlMs < 9_007_199_254_740_992 && Holds(r, lease) && now < r.lease.value.expiresAt then
          && Accepts(r, op) && next == r.(lease := next.lease) && next.lease.Some?
          && var held := next.lease.value;
             held.owner == lease.owner && held.token == lease.fencingToken && held.heartbeatAt == now && held.expiresAt == now + ttlMs
        else !Accepts(r, op) && next == r
      case Checkpoint(lease, value, now) =>
        if CheckpointOk(value) && Holds(r, lease) && now < r.lease.value.expiresAt then
          && Accepts(r, op) && next == r.(checkpoint := next.checkpoint, version := r.version + 1)
          && next.checkpoint.sequence == Some(value) && next.checkpoint.lastOperation.None?
        else !Accepts(r, op) && next == r
      case Operation(lease, operation, now) =>
        if OperationOk(operation) && Holds(r, lease) && now < r.lease.value.expiresAt then
          && Accepts(r, op) && next == r.(checkpoint := next.checkpoint, version := r.version + 1)
          && next.checkpoint.sequence == r.checkpoint.sequence && next.checkpoint.lastOperation == Some(operation)
        else !Accepts(r, op) && next == r
      case Release(lease) =>
        && (Accepts(r, op) <==> Holds(r, lease))
        && next == r.(lease := next.lease) && next.lease == if Holds(r, lease) then None else r.lease
      case SetRoadmap(running) => Accepts(r, op) && next.running == running && next == r.(running := next.running)
      case DrawToken => Accepts(r, op) && next.sequence == r.sequence + 1 && next == r.(sequence := next.sequence)
  {
  }

  const Initial := Row(true, CheckpointValue(None, None), 0, None, 0)

  class PostgresSequenceStore {
    var running: bool
    var checkpoint: CheckpointValue
    var version: nat
    var held: Option<Held>
    var sequence: nat

    ghost function State(): Row
      reads this
    {
      Row(running, checkpoint, version, held, sequence)
    }

    constructor ()
      ensures State() == Initial
    {
      running, checkpoint, version, held, sequence := true, CheckpointValue(None, None), 0, None, 0;
    }

    method ClaimLease(owner: string, ttlMs: int, now: int) returns (reply: Result<Lease, LeaseError>)
      modifies this
      ensures var op := Claim(owner, ttlMs, now);
        && State() == Updated(old(State()), op)
        && (reply.Ok? <==> Accepts(old(State()), op))
        && (reply.Ok? ==> reply.value == Lease(owner, sequence, now + ttlMs))
    {
      if owner == "" || !TtlOk(ttlMs) {
        return Err(InvalidLease);
      }
      if !running || (held.Some? && now < held.value.expiresAt) {
        return Err(Unavailable);
      }
      sequence := sequence + 1;
      held := Some(Held(owner, sequence, now, now + ttlMs));
      reply := Ok(Lease(owner, sequence, now + ttlMs));
    }

    method Heartbeat(lease: Lease, ttlMs: int, now: int) returns (reply: Result<Lease, LeaseError>)
      modifies this
      ensures var op := Op.Heartbeat(lease, ttlMs, now);
        && State() == Updated(old(State()), op)
        && (reply.Ok? <==> Accepts(old(State()), op))
        && (reply.Ok? ==> reply.value == lease.(expiresAt := now + ttlMs))
    {
      if !TtlOk(ttlMs) {
        return Err(InvalidLease);
      }
      if held.None? || held.value.owner != lease.owner || held.value.token != lease.fencingToken || held.value.expiresAt <= now {
        return Err(Stale);
      }
      held := Some(Held(held.value.owner, held.value.token, now, now + ttlMs));
      reply := Ok(lease.(expiresAt := now + ttlMs));
    }

    method Checkpoint(lease: Lease, value: SequenceCheckpoint, now: int) returns (error: Option<LeaseError>)
      modifies this
      ensures var op := Op.Checkpoint(lease, value, now);
        State() == Updated(old(State()), op) && (error.None? <==> Accepts(old(State()), op))
    {
      if !CheckpointOk(value) {
        return Some(EvidenceRequired);
      }
      if held.None? || held.value.owner != lease.owner || held.value.token != lease.fencingToken || held.value.expiresAt <= now {
        return Some(Stale);
      }
      checkpoint := CheckpointValue(Some(value), None);
      version := version + 1;
      error := None;
    }

    method WriteOperation(lease: Lease, operation: OperationCheckpoint, now: int) returns (error: Option<LeaseError>)
      modifies this
      ensures var op := Operation(lease, operation, now);
        State() == Updated(old(State()), op) && (error.None? <==> Accepts(old(State()), op))
    {
      if !OperationOk(operation) {
        return Some(InvalidOperation);
      }
      if held.None? || held.value.owner != lease.owner || held.value.token != lease.fencingToken || held.value.expiresAt <= now {
        return Some(Stale);
      }
      checkpoint := checkpoint.(lastOperation := Some(operation));
      version := version + 1;
      error := None;
    }

    /** A release that matches no row is not an error. */
    method Release(lease: Lease)
      modifies this
      ensures State() == Updated(old(State()), Op.Release(lease))
    {
      if held.Some? && held.value.owner == lease.owner && held.value.token == lease.fencingToken {
        held := None;
      }
    }

    /** What another process does to the row. */
    method Apply(op: Op)
      modifies this
      ensures State() == Updated(old(State()), op)
    {
      match op {
        case Claim(owner, ttlMs, now) => var _ := ClaimLease(owner, ttlMs, now);
        case Heartbeat(lease, ttlMs, now) => var _ := Heartbeat(lease, ttlMs, now);
        case Checkpoint(lease, value, now) => var _ := Checkpoint(lease, value, now);
        case Operation(lease, operation, now) => var _ := WriteOperation(lease, operation, now);
        case Release(lease) => Release(lease);
        case SetRoadmap(on) => running := on;
        case DrawToken => sequence := sequence + 1;
      }
    }
  }

  // ---- Runs ------------------------------------------------------------------------------------

  /** The row after a run, the tokens claimed, the tokens of accepted checkpoints, and of each claim
      not yet released the lease its holder has. */
  datatype World = World(row: Row, claimed: seq<nat>, accepted: seq<nat>, holders: map<nat, Lease>)

  function Next(w: World, op: Op): World {
    var row := Updated(w.row, op);
    if !Accepts(w.row, op) then w
    else
      match op
      case Claim(owner, ttlMs, now) =>
        World(row, w.claimed + [row.sequence], w.accepted, w.holders[row.sequence := Lease(owner, row.sequence, now + ttlMs)])
      case Heartbeat(lease, ttlMs, now) =>
        w.(row := row, holders := w.holders[lease.fencingToken := lease.(expiresAt := now + ttlMs)])
      case Checkpoint(lease, _, _) => w.(row := row, accepted := w.accepted + [lease.fencingToken])
      case Operation(lease, _, _) => w.(row := row, accepted := w.accepted + [lease.fencingToken])
      case Release(lease) => w.(row := row, holders := w.holders - {lease.fencingToken})
      case _ => w.(row := row)
  }

  function Play(ops: seq<Op>): World {
    if ops == [] then World(Initial, [], [], map[]) else Next(Play(ops[..|ops| - 1]), ops[|ops| - 1])
  }

  /** A world's row is the store's, and its other parts record what was accepted: the tokens in order, and the
      lease each holder was last given. */
  lemma NextRecords(w: World, op: Op)
    ensures var next := Next(w, op);
      && next.row == Updated(w.row, op)
      && next.claimed == (if op.Claim? && Accepts(w.row, op) then w.claimed + [w.row.sequence + 1] else w.claimed)
      && next.accepted ==
           (if (op.Checkpoint? || op.Operation?) && Accepts(w.row, op) then w.accepted + [op.lease.fencingToken] else w.accepted)
      && next.holders ==
           (if !Accepts(w.row, op) then w.holders
            else if op.Claim? then w.holders[w.row.sequence + 1 := Lease(op.owner, w.row.sequence + 1, op.now + op.ttlMs)]
            else if op.Heartbeat? then
              w.holders[op.lease.fencingToken := Lease(op.lease.owner, op.lease.fencingToken, op.now + op.ttlMs)]
            else if op.Release? then w.holders - {op.lease.fencingToken}
            else w.holders)
  {
  }

  function Newest(tokens: seq<nat>): nat {
    if tokens == [] then 0 else tokens[|tokens| - 1]
  }

  predicate Increasing(tokens: seq<nat>) {
    forall i, j :: 0 <= i < j < |tokens| ==> tokens[i] < tokens[j]
  }

  predicate NonDecreasing(tokens: seq<nat>) {
    forall i, j :: 0 <= i < j < |tokens| ==> tokens[i] <= tokens[j]
  }

  predicate FencingInv(w: World) {
    && Increasing(w.claimed) && (forall i :: 0 <= i < |w.claimed| ==> 0 < w.claimed[i] <= w.row.sequence)
    && NonDecreasing(w.accepted) && (forall i :: 0 <= i < |w.accepted| ==> w.accepted[i] <= Newest(w.claimed))
    && w.row.version == |w.accepted|
    && (w.row.lease.Some? ==>
          && w.claimed != [] && w.row.lease.value.token == Newest(w.claimed)
          && w.row.lease.value.heartbeatAt < w.row.lease.value.expiresAt)
  }

  lemma StepFencing(w: World, op: Op)
    requires FencingInv(w)
    ensures FencingInv(Next(w, op))
  {
    if op.Claim? {
      ClaimFencing(w, op);
    } else if op.Checkpoint? || op.Operation? {
      WriteFencing(w, op);
    }
  }

  lemma ClaimFencing(w: World, op: Op)
    requires FencingInv(w) && op.Claim?
    ensures FencingInv(Next(w, op))
  {
    if w.claimed != [] {
      assert forall i :: 0 <= i < |w.claimed| ==> w.claimed[i] <= Newest(w.claimed);
    }
  }

  lemma WriteFencing(w: World, op: Op)
    requires FencingInv(w) && (op.Checkpoint? || op.Operation?)
    ensures FencingInv(Next(w, op))
  {
  }

  lemma {:induction false} PlayFencing(ops: seq<Op>)
    ensures FencingInv(Play(ops))
  {
    if ops != [] {
      PlayFencing(ops[..|ops| - 1]);
      StepFencing(Play(ops[..|ops| - 1]), ops[|ops| - 1]);
    }
  }

  /** Claims get strictly increasing tokens, accepted checkpoints never go back to an older one, and
      the version counts them. */
  lemma TokensNeverGoBack(ops: seq<Op>)
    ensures var w := Play(ops);
      Increasing(w.claimed) && NonDecreasing(w.accepted) && w.row.version == |w.accepted|
  {
    PlayFencing(ops);
  }

  predicate ByToken(op: Op, token: nat) {
    (op.Heartbeat? || op.Checkpoint? || op.Operation? || op.Release?) && op.lease.fencingToken == token
  }

  /** Once a newer token was claimed, nothing done under an older one is accepted or changes the row. */
  lemma StaleHolderChangesNothing(ops: seq<Op>, op: Op, token: nat)
    requires ByToken(op, token) && token != Newest(Play(ops).claimed)
    ensures !Accepts(Play(ops).row, op) && Updated(Play(ops).row, op) == Play(ops).row
  {
    PlayFencing(ops);
  }

  lemma {:induction false} LaterWorld(ops: seq<Op>, more: seq<Op>)
    ensures Play(ops).claimed <= Play(ops + more).claimed && Play(ops).accepted <= Play(ops + more).accepted
    decreases |more|
  {
    if more == [] {
      assert ops + more == ops;
    } else {
      var all := ops + more;
      LaterWorld(ops, more[..|more| - 1]);
      assert all[..|all| - 1] == ops + more[..|more| - 1];
    }
  }

  lemma ClaimIsNewest(before: seq<Op>, claim: Op, ops: seq<Op>)
    requires claim.Claim? && Accepts(Play(before).row, claim) && ops == before + [claim]
    ensures Newest(Play(ops).claimed) == Play(ops).row.sequence
  {
    assert ops[..|ops| - 1] == before;
  }

  lemma AcceptedIsNewest(ops: seq<Op>, op: Op)
    requires (op.Checkpoint? || op.Operation?) && Accepts(Play(ops).row, op)
    ensures op.lease.fencingToken == Newest(Play(ops).claimed)
  {
    PlayFencing(ops);
  }

  /** All tokens from position `start` on are `token`. */
  predicate OnlyFrom(tokens: seq<nat>, start: nat, token: nat) {
    start <= |tokens| && forall i :: start <= i < |tokens| ==> tokens[i] == token
  }

  /** Between a claim and a checkpoint accepted under its token, no other token's checkpoint is
      accepted: the holder works on the state it claimed. */
  lemma ClaimToCheckpointIsExclusive(before: seq<Op>, claim: Op, ops: seq<Op>, between: seq<Op>, last: Op)
    requires claim.Claim? && Accepts(Play(before).row, claim) && ops == before + [claim]
    requires (last.Checkpoint? || last.Operation?) && Accepts(Play(ops + between).row, last)
    requires last.lease.fencingToken == Play(ops).row.sequence
    ensures OnlyFrom(Play(ops + between).accepted, |Play(ops).accepted|, last.lease.fencingToken)
  {
    ClaimIsNewest(before, claim, ops);
    AcceptedIsNewest(ops + between, last);
    AcceptedSince(ops, between, last.lease.fencingToken);
  }

  lemma OneStepLater(ops: seq<Op>, all: seq<Op>)
    requires all != [] && all[..|all| - 1] == ops
    ensures Play(all) == Next(Play(ops), all[|all| - 1])
  {
  }

  /** One more step: if the newest claim is still `token`, it was before, and what is accepted carries it. */
  lemma AcceptedNext(w: World, op: Op, token: nat)
    requires FencingInv(w) && FencingInv(Next(w, op)) && Newest(Next(w, op).claimed) == token
    ensures Next(w, op).accepted == w.accepted || Next(w, op).accepted == w.accepted + [token]
    ensures w.claimed <= Next(w, op).claimed && |Next(w, op).claimed| <= |w.claimed| + 1
  {
  }

  /** While the newest claim is the same, everything accepted carries its token. */
  lemma {:induction false} AcceptedSince(ops: seq<Op>, more: seq<Op>, token: nat)
    requires Newest(Play(ops).claimed) == token == Newest(Play(ops + more).claimed)
    ensures OnlyFrom(Play(ops + more).accepted, |Play(ops).accepted|, token)
    decreases |more|
  {
    if more == [] {
      assert ops + more == ops;
    } else {
      var all, rest, mid := ops + more, more[..|more| - 1], ops + more[..|more| - 1];
      assert all[..|all| - 1] == mid;
      LaterWorld(ops, rest);
      PlayFencing(mid);
      PlayFencing(all);
      OneStepLater(mid, all);
      AcceptedNext(Play(mid), all[|all| - 1], token);
      NewestBetween(Play(ops).claimed, Play(mid).claimed, Play(all).claimed);
      AcceptedSince(ops, rest, token);
    }
  }

  lemma NewestBetween(a: seq<nat>, b: seq<nat>, c: seq<nat>)
    requires a <= b && |b| <= |c| <= |b| + 1 && c[..|b|] == b && Increasing(c) && Newest(a) == Newest(c)
    requires forall i :: 0 <= i < |c| ==> 0 < c[i]
    ensures Newest(b) == Newest(a)
  {
    if a != [] {
      assert c[|a| - 1] == a[|a| - 1];
      OncePerToken(c, |a| - 1, |c| - 1);
    }
  }

  lemma OncePerToken(tokens: seq<nat>, i: nat, j: nat)
    requires Increasing(tokens) && i < |tokens| && j < |tokens| && tokens[i] == tokens[j]
    ensures i == j
  {
    assert i < j || j < i || i == j;
  }

  // ---- At most one holder ------------------------------------------------------------------------

  predicate AcceptedAt(ops: seq<Op>, i: nat)
    requires i < |ops|
  {
    Accepts(Play(ops[..i]).row, ops[i])
  }

  lemma AcceptedBefore(ops: seq<Op>, i: nat)
    requires i < |ops| - 1
    ensures AcceptedAt(ops[..|ops| - 1], i) == AcceptedAt(ops, i) && ops[..|ops| - 1][i] == ops[i]
  {
    assert ops[..|ops| - 1][..i] == ops[..i];
  }

  /** Every claim that succeeded was made by `now`. */
  predicate ClaimedBy(ops: seq<Op>, now: int) {
    forall i :: 0 <= i < |ops| && AcceptedAt(ops, i) && ops[i].Claim? ==> ops[i].now <= now
  }

  /** A lease still unexpired at `now` is the row's own. */
  predicate HoldersInv(w: World, now: int) {
    forall token :: token in w.holders && now < w.holders[token].expiresAt ==>
      w.row.lease.Some? && w.row.lease.value.token == token && w.holders[token].expiresAt == w.row.lease.value.expiresAt
  }

  lemma StepHolders(w: World, op: Op, now: int)
    requires FencingInv(w) && HoldersInv(w, now) && (op.Claim? && Accepts(w.row, op) ==> op.now <= now)
    requires forall token :: token in w.holders ==> token in w.claimed
    ensures HoldersInv(Next(w, op), now)
    ensures forall token :: token in Next(w, op).holders ==> token in Next(w, op).claimed
  {
  }

  lemma ClaimedBefore(ops: seq<Op>, now: int)
    requires ops != [] && ClaimedBy(ops, now)
    ensures ClaimedBy(ops[..|ops| - 1], now)
  {
    var before := ops[..|ops| - 1];
    forall i: nat | i < |before| && AcceptedAt(before, i) && before[i].Claim? ensures before[i].now <= now {
      AcceptedBefore(ops, i);
    }
  }

  lemma {:induction false} PlayHolders(ops: seq<Op>, now: int)
    requires ClaimedBy(ops, now)
    ensures HoldersInv(Play(ops), now)
    ensures forall token :: token in Play(ops).holders ==> token in Play(ops).claimed
  {
    if ops != [] {
      ClaimedBefore(ops, now);
      PlayHolders(ops[..|ops| - 1], now);
      assert AcceptedAt(ops, |ops| - 1) == Accepts(Play(ops[..|ops| - 1]).row, ops[|ops| - 1]);
      PlayFencing(ops[..|ops| - 1]);
      StepHolders(Play(ops[..|ops| - 1]), ops[|ops| - 1], now);
    }
  }

  /** Whatever order the transactions' times come in: at any moment that no successful claim lies after, at most
      one holder that has not released has an unexpired lease, and it is the one in the row. */
  lemma AtMostOneUnexpiredLease(ops: seq<Op>, now: int, a: nat, b: nat)
    requires ClaimedBy(ops, now)
    requires var w := Play(ops); a in w.holders && b in w.holders
    requires var w := Play(ops); now < w.holders[a].expiresAt && now < w.holders[b].expiresAt
    ensures a == b
    ensures var held := Play(ops).row.lease;
      held.Some? && held.value.token == a && held.value.expiresAt == Play(ops).holders[a].expiresAt
  {
    PlayHolders(ops, now);
  }

  // ---- SequenceSupervisor.cycle() ----------------------------------------------------------------

  /** What happens while a cycle waits: its own heartbeat timer, or another process. */
  datatype Tick = Beat(now: int) | Other(op: Op)

  datatype CycleError = Refused | HeartbeatFailed | DriverFailed | CheckpointRefused

  datatype Script = Script(during: seq<Tick>, late: seq<Tick>, step: Option<SequenceCheckpoint>, checkpointAt: int, ending: seq<Tick>)

  /** The row after some ticks, and whether every heartbeat succeeded. */
  function Ticked(r: Row, lease: Lease, ttlMs: int, ticks: seq<Tick>): (Row, bool) {
    if ticks == [] then (r, true)
    else
      var (row, alive) := Ticked(r, lease, ttlMs, ticks[..|ticks| - 1]);
      match ticks[|ticks| - 1]
      case Beat(now) => (Updated(row, Heartbeat(lease, ttlMs, now)), alive && Accepts(row, Heartbeat(lease, ttlMs, now)))
      case Other(op) => (Updated(row, op), alive)
  }

  /** Every tick takes effect, and the holder is alive exactly if each of its heartbeats was accepted. */
  lemma {:induction false} TickedIs(r: Row, lease: Lease, ttlMs: int, ticks: seq<Tick>)
    ensures Ticked(r, lease, ttlMs, ticks).1 <==>
      forall i :: 0 <= i < |ticks| && ticks[i].Beat? ==>
        Accepts(Ticked(r, lease, ttlMs, ticks[..i]).0, Heartbeat(lease, ttlMs, ticks[i].now))
    ensures ticks == [] ==> Ticked(r, lease, ttlMs, ticks).0 == r
    ensures ticks != [] ==>
      var last := ticks[|ticks| - 1];
      Ticked(r, lease, ttlMs, ticks).0 ==
        Updated(Ticked(r, lease, ttlMs, ticks[..|ticks| - 1]).0, if last.Beat? then Heartbeat(lease, ttlMs, last.now) else last.op)
  {
    if ticks != [] {
      var before := ticks[..|ticks| - 1];
      TickedIs(r, lease, ttlMs, before);
      assert forall i :: 0 <= i < |before| ==> before[i] == ticks[i] && before[..i] == ticks[..i];
    }
  }

  /** A renewed lease differs in its expiry only, which no statement looks at. */
  lemma {:induction false} RenewalTicksAlike(r: Row, lease: Lease, current: Lease, ttlMs: int, ticks: seq<Tick>)
    requires current.owner == lease.owner && current.fencingToken == lease.fencingToken
    ensures Ticked(r, current, ttlMs, ticks) == Ticked(r, lease, ttlMs, ticks)
  {
    if ticks != [] {
      RenewalTicksAlike(r, lease, current, ttlMs, ticks[..|ticks| - 1]);
    }
  }

  class SequenceSupervisor {
    const store: PostgresSequenceStore
    const owner: string
    const ttlMs: int

    constructor (store: PostgresSequenceStore, owner: string, ttlMs: int)
      ensures this.store == store && this.owner == owner && this.ttlMs == ttlMs
    {
      this.store, this.owner, this.ttlMs := store, owner, ttlMs;
    }

    method Wait(lease: Lease, ticks: seq<Tick>) returns (current: Lease, alive: bool)
      modifies store
      ensures (store.State(), alive) == Ticked(old(store.State()), lease, ttlMs, ticks)
      ensures current.owner == lease.owner && current.fencingToken == lease.fencingToken
    {
      current, alive := lease, true;
      for i := 0 to |ticks|
        invariant (store.State(), alive) == Ticked(old(store.State()), lease, ttlMs, ticks[..i])
        invariant current.owner == lease.owner && current.fencingToken == lease.fencingToken
      {
        assert ticks[..i + 1][..i] == ticks[..i];
        match ticks[i] {
          case Beat(now) =>
            var renewed := store.Heartbeat(current, ttlMs, now);
            if renewed.Ok? {
              current := renewed.value;
            } else {
              alive := false;
            }
          case Other(op) => store.Apply(op);
        }
      }
      assert ticks[..|ticks|] == ticks;
    }

    /** Success means the checkpoint was accepted while the lease was held and every heartbeat before it
        had succeeded; and whatever happened, the claimed token no longer holds the row at the end. */
    method Cycle(now: int, script: Script) returns (reply: Result<SequenceCheckpoint, CycleError>)
      modifies store
      ensures var claim := Claim(owner, ttlMs, now);
        var row := Updated(old(store.State()), claim);
        var lease := Lease(owner, row.sequence, now + ttlMs);
        var (worked, alive) := Ticked(row, lease, ttlMs, script.during);
        var (ready, _) := Ticked(worked, lease, ttlMs, script.late);
        if !Accepts(old(store.State()), claim) then reply == Err(Refused) && store.State() == old(store.State())
        else
          && (store.held.Some? ==> store.held.value.token != lease.fencingToken || store.held.value.owner != owner)
          && (reply.Ok? <==> script.step.Some? && alive && Accepts(ready, Op.Checkpoint(lease, script.step.value, script.checkpointAt)))
          && (reply.Ok? ==> reply.value == script.step.value)
          && (script.step.None? ==> reply == Err(DriverFailed))
          && (script.step.Some? && !alive ==> reply == Err(HeartbeatFailed))
    {
      var claimed := store.ClaimLease(owner, ttlMs, now);
      if claimed.Err? {
        return Err(Refused);
      }
      var lease := claimed.value;
      var current, alive := Wait(lease, script.during);
      if script.step.None? {
        reply := Err(DriverFailed);
      } else if !alive {
        reply := Err(HeartbeatFailed);
      } else {
        RenewalTicksAlike(store.State(), lease, current, ttlMs, script.late);
        current, alive := Wait(current, script.late);
        var error := store.Checkpoint(current, script.step.value, script.checkpointAt);
        reply := if error.None? then Ok(script.step.value) else Err(CheckpointRefused);
      }
      current, alive := Wait(current, script.ending);
      store.Release(current);
    }
  }

  // ---- The checkpoint column -----------------------------------------------------------------------

  /** No checkpoint, or with `operations` none of either kind, was accepted after step `i`. */
  predicate Quiet(ops: seq<Op>, i: nat, operations: bool) {
    forall j :: i < j < |ops| && AcceptedAt(ops, j) ==> !ops[j].Checkpoint? && (operations ==> !ops[j].Operation?)
  }

  /** Operation `i` was accepted and no checkpoint of either kind was after it. */
  predicate OperationStands(ops: seq<Op>, i: nat) {
    i < |ops| && ops[i].Operation? && AcceptedAt(ops, i) && Quiet(ops, i, true)
  }

  /** Sequence checkpoint `i` was accepted and no other was after it. */
  predicate CheckpointStands(ops: seq<Op>, i: nat) {
    i < |ops| && ops[i].Checkpoint? && AcceptedAt(ops, i) && Quiet(ops, i, false)
  }

  lemma QuietSnoc(ops: seq<Op>, i: nat, operations: bool)
    requires i < |ops| - 1
    ensures var last := |ops| - 1;
      Quiet(ops, i, operations) <==>
        && Quiet(ops[..last], i, operations)
        && (AcceptedAt(ops, last) ==> !ops[last].Checkpoint? && (operations ==> !ops[last].Operation?))
  {
    forall j: nat | j < |ops| - 1 ensures AcceptedAt(ops[..|ops| - 1], j) == AcceptedAt(ops, j) && ops[..|ops| - 1][j] == ops[j] {
      AcceptedBefore(ops, j);
    }
  }

  lemma LastOf(ops: seq<Op>)
    requires ops != []
    ensures AcceptedAt(ops, |ops| - 1) == Accepts(Play(ops[..|ops| - 1]).row, ops[|ops| - 1])
  {
  }

  /** An accepted operation stands at the end exactly if it stood before and the last step was no
      accepted checkpoint, or it is the last step. */
  lemma OperationStandsSnoc(ops: seq<Op>, i: nat)
    requires i < |ops|
    ensures var before, last := ops[..|ops| - 1], |ops| - 1;
      OperationStands(ops, i) <==>
        if i == last then ops[last].Operation? && AcceptedAt(ops, last)
        else OperationStands(before, i) && (AcceptedAt(ops, last) ==> !ops[last].Operation? && !ops[last].Checkpoint?)
  {
    if i < |ops| - 1 {
      AcceptedBefore(ops, i);
      QuietSnoc(ops, i, true);
    }
  }

  lemma CheckpointStandsSnoc(ops: seq<Op>, i: nat)
    requires i < |ops|
    ensures var before, last := ops[..|ops| - 1], |ops| - 1;
      CheckpointStands(ops, i) <==>
        if i == last then ops[last].Checkpoint? && AcceptedAt(ops, last)
        else CheckpointStands(before, i) && (AcceptedAt(ops, last) ==> !ops[last].Checkpoint?)
  {
    if i < |ops| - 1 {
      AcceptedBefore(ops, i);
      QuietSnoc(ops, i, false);
    }
  }

  /** A sequence checkpoint replaces the whole column: the last operation is in it exactly when one was
      accepted after every accepted sequence checkpoint, and then it is the latest one. */
  lemma {:induction false} LastOperationSurvivesIff(ops: seq<Op>)
    ensures Play(ops).row.checkpoint.lastOperation.Some? <==> exists i: nat :: OperationStands(ops, i)
    ensures forall i: nat :: OperationStands(ops, i) ==> Play(ops).row.checkpoint.lastOperation == Some(ops[i].operation)
  {
    if ops != [] {
      var before, last := ops[..|ops| - 1], |ops| - 1;
      LastOperationSurvivesIff(before);
      LastOf(ops);
      forall i: nat | i < |ops|
        ensures OperationStands(ops, i) <==>
          if i == last then ops[last].Operation? && AcceptedAt(ops, last)
          else OperationStands(before, i) && (AcceptedAt(ops, last) ==> !ops[last].Operation? && !ops[last].Checkpoint?)
      {
        OperationStandsSnoc(ops, i);
      }
      if ops[last].Operation? && AcceptedAt(ops, last) {
        assert OperationStands(ops, last);
      } else if i: nat :| OperationStands(before, i) {
        assert before[i] == ops[i];
        assert OperationStands(ops, i) <==> !(AcceptedAt(ops, last) && ops[last].Checkpoint?);
      }
    }
  }

  /** And the sequence checkpoint in it is the last one accepted. */
  lemma {:induction false} SequenceCheckpointIsLast(ops: seq<Op>)
    ensures Play(ops).row.checkpoint.sequence.Some? <==> exists i: nat :: CheckpointStands(ops, i)
    ensures forall i: nat :: CheckpointStands(ops, i) ==> Play(ops).row.checkpoint.sequence == Some(ops[i].value)
  {
    if ops != [] {
      var before, last := ops[..|ops| - 1], |ops| - 1;
      SequenceCheckpointIsLast(before);
      LastOf(ops);
      forall i: nat | i < |ops|
        ensures CheckpointStands(ops, i) <==>
          if i == last then ops[last].Checkpoint? && AcceptedAt(ops, last)
          else CheckpointStands(before, i) && (AcceptedAt(ops, last) ==> !ops[last].Checkpoint?)
      {
        CheckpointStandsSnoc(ops, i);
      }
      if ops[last].Checkpoint? && AcceptedAt(ops, last) {
        assert CheckpointStands(ops, last);
      } else if i: nat :| CheckpointStands(before, i) {
        assert before[i] == ops[i];
        assert CheckpointStands(ops, i);
      }
    }
  }
}
