/** What both stores promise over whole runs, and where they part. */
module ConversationHistory {
  import opened Common
  import opened Conversation

  function PgRun(s: Tables, ops: seq<Op>): Tables {
    if ops == [] then s else PgStep(PgRun(s, ops[..|ops| - 1]), ops[|ops| - 1]).0
  }

  function MemRun(s: Maps, ops: seq<Op>): Maps {
    if ops == [] then s else MemStep(MemRun(s, ops[..|ops| - 1]), ops[|ops| - 1]).0
  }

  function PgStart(projectId: nat, title: string): Tables {
    Tables(projectId, title, false, 0, [], map[])
  }

  function MemStart(projectId: nat, title: string): Maps {
    Maps(projectId, title, false, 0, [], map[])
  }

  predicate OrdinalsIncrease(messages: seq<Message>, version: nat) {
    && (forall i, j :: 0 <= i < j < |messages| ==> messages[i].ordinal < messages[j].ordinal)
    && (forall i :: 0 <= i < |messages| ==> 0 < messages[i].ordinal <= version)
    && |messages| <= version
  }

  // ---- The Postgres store ----------------------------------------------------------------------

  predicate RecordOk(r: Record, messages: seq<Message>) {
    ById(messages, r.messageId) == Some(Message(r.intent.draft, r.intent.expectedVersion + 1))
  }

  predicate PgInv(s: Tables) {
    && OrdinalsIncrease(s.messages, s.version)
    && (forall scope :: scope in s.idempotency ==> RecordOk(s.idempotency[scope], s.messages) && scope.0 == s.projectId)
    && (forall scope :: scope in s.idempotency ==> s.idempotency[scope].intent.expectedVersion < s.version)
  }

  lemma {:induction false} ByIdSnoc(messages: seq<Message>, m: Message, id: nat)
    ensures ById(messages + [m], id) ==
      if ById(messages, id).Some? then ById(messages, id) else if m.draft.id == id then Some(m) else None
  {
    if messages == [] {
      assert ById([m][1..], id) == None;
    } else {
      ByIdSnoc(messages[1..], m, id);
      assert (messages + [m])[1..] == messages[1..] + [m];
    }
  }

  lemma {:induction false} ByIdHas(messages: seq<Message>, id: nat)
    ensures ById(messages, id).Some? <==> HasId(messages, id)
  {
    if messages != [] {
      ByIdHas(messages[1..], id);
      if messages[0].draft.id != id {
        assert forall i :: 0 < i < |messages| ==> messages[i] == messages[1..][i - 1];
        assert forall i :: 0 <= i < |messages[1..]| ==> messages[1..][i] == messages[i + 1];
      }
    }
  }

  lemma PgStepInv(s: Tables, op: Op)
    requires PgInv(s)
    ensures PgInv(PgStep(s, op).0)
  {
    if op.Append? && PgStep(s, op).0 != s {
      var m := Message(op.draft, s.version + 1);
      ByIdHas(s.messages, op.draft.id);
      forall id ensures ById(s.messages + [m], id) ==
        if ById(s.messages, id).Some? then ById(s.messages, id) else if m.draft.id == id then Some(m) else None {
        ByIdSnoc(s.messages, m, id);
      }
    }
  }

  lemma {:induction false} PgRunInv(projectId: nat, title: string, ops: seq<Op>)
    ensures PgInv(PgRun(PgStart(projectId, title), ops)) && PgRun(PgStart(projectId, title), ops).projectId == projectId
  {
    if ops != [] {
      PgRunInv(projectId, title, ops[..|ops| - 1]);
      PgStepInv(PgRun(PgStart(projectId, title), ops[..|ops| - 1]), ops[|ops| - 1]);
    }
  }

  /** Message ordinals strictly increase and there are never more messages than versions, whatever is
      appended, renamed, archived and replayed. */
  lemma {:induction false} OrdinalsAlwaysIncrease(projectId: nat, title: string, ops: seq<Op>)
    ensures var s := PgRun(PgStart(projectId, title), ops); OrdinalsIncrease(s.messages, s.version)
  {
    PgRunInv(projectId, title, ops);
  }

  /** The unique index on ordinals never fires, and a replay always finds its message. */
  lemma OnlyIdsCanCollide(projectId: nat, title: string, ops: seq<Op>, op: Op)
    requires op.Append?
    ensures var s := PgRun(PgStart(projectId, title), ops);
      && !HasOrdinal(s.messages, s.version + 1)
      && (PgStep(s, op).1 == Failed(ConstraintViolation) ==> HasId(s.messages, op.draft.id))
      && PgStep(s, op).1 != Failed(NotFound)
  {
    PgRunInv(projectId, title, ops);
  }

  /** Under a new key an append succeeds exactly at the current version of this project under an id no message
      has, and then adds one message under the next ordinal. */
  lemma NewAppendSucceedsIff(projectId: nat, title: string, ops: seq<Op>, op: Op)
    requires op.Append? && (op.draft.projectId, op.key) !in PgRun(PgStart(projectId, title), ops).idempotency
    ensures var s := PgRun(PgStart(projectId, title), ops);
      var (next, reply) := PgStep(s, op);
      if op.draft.projectId == s.projectId && op.expectedVersion == s.version && !exists m :: m in s.messages && m.draft.id == op.draft.id
      then
        && reply.Appended? && reply.message.draft == op.draft && reply.message.ordinal == s.version + 1
        && next.messages == s.messages + [reply.message] && next.version == s.version + 1
        && next.title == s.title && next.archived == s.archived && next.projectId == s.projectId
      else reply.Failed? && next == s
  {
    var s := PgRun(PgStart(projectId, title), ops);
    PgRunInv(projectId, title, ops);
    HasIdIff(s.messages, op.draft.id);
  }

  lemma HasIdIff(messages: seq<Message>, id: nat)
    ensures HasId(messages, id) <==> exists m :: m in messages && m.draft.id == id
  {
    if HasId(messages, id) {
      var i :| 0 <= i < |messages| && messages[i].draft.id == id;
      assert messages[i] in messages;
    }
  }

  /** A rename succeeds exactly at the current version of this project with a title of 1 to 200 characters, an
      archiving at the current version; either counts one version and changes nothing else. */
  lemma EditSucceedsIff(s: Tables, op: Op)
    requires !op.Append?
    ensures var (next, reply) := PgStep(s, op);
      if op.projectId == s.projectId && op.expectedVersion == s.version && (op.Rename? ==> 0 < |op.title| < 201) then
        && reply == Changed(s.version + 1) && next.version == s.version + 1
        && next.title == (if op.Rename? then op.title else s.title)
        && next.archived == (if op.SetArchived? then op.archived else s.archived)
        && next.projectId == s.projectId && next.messages == s.messages && next.idempotency == s.idempotency
      else reply.Failed? && next == s
  {
  }

  /** Versions only grow, and an idempotency row is for ever. */
  predicate Grown(first: Tables, later: Tables) {
    && first.version <= later.version
    && (forall scope :: scope in first.idempotency ==>
          scope in later.idempotency && later.idempotency[scope] == first.idempotency[scope])
  }

  lemma StepGrows(s: Tables, op: Op)
    ensures Grown(s, PgStep(s, op).0)
  {
  }

  lemma {:induction false} PgLater(s: Tables, ops: seq<Op>, more: seq<Op>)
    requires PgInv(PgRun(s, ops))
    ensures Grown(PgRun(s, ops), PgRun(s, ops + more)) && PgInv(PgRun(s, ops + more))
    decreases |more|
  {
    if more == [] {
      assert ops + more == ops;
    } else {
      var rest, last := more[..|more| - 1], more[|more| - 1];
      PgLater(s, ops, rest);
      LastOfMore(ops, more);
      PgRunStep(s, ops + more);
      StepGrows(PgRun(s, ops + rest), last);
      PgStepInv(PgRun(s, ops + rest), last);
      GrownTwice(PgRun(s, ops), PgRun(s, ops + rest), PgRun(s, ops + more));
    }
  }

  lemma LastOfMore(ops: seq<Op>, more: seq<Op>)
    requires more != []
    ensures (ops + more)[..|ops + more| - 1] == ops + more[..|more| - 1]
    ensures (ops + more)[|ops + more| - 1] == more[|more| - 1]
  {
  }

  lemma PgRunStep(s: Tables, ops: seq<Op>)
    requires ops != []
    ensures PgRun(s, ops) == PgStep(PgRun(s, ops[..|ops| - 1]), ops[|ops| - 1]).0
  {
  }

  lemma GrownTwice(first: Tables, mid: Tables, later: Tables)
    requires Grown(first, mid) && Grown(mid, later)
    ensures Grown(first, later)
  {
  }

  /** After a successful append, repeating the same call at any later time returns the first result and
      changes nothing. */
  lemma ReplayReturnsFirst(projectId: nat, title: string, before: seq<Op>, op: Op, between: seq<Op>)
    requires op.Append? && PgStep(PgRun(PgStart(projectId, title), before), op).1.Appended?
    ensures var s := PgRun(PgStart(projectId, title), before + [op] + between);
      PgStep(s, op) == (s, PgStep(PgRun(PgStart(projectId, title), before), op).1)
  {
    var start := PgStart(projectId, title);
    PgRunInv(projectId, title, before);
    PgRunInv(projectId, title, before + [op]);
    assert (before + [op])[..|before|] == before;
    RecordWritten(PgRun(start, before), op);
    PgLater(start, before + [op], between);
    RecordAnswers(PgRun(start, before + [op] + between), op);
  }

  /** An append on record is answered from its record. */
  lemma RecordAnswers(s: Tables, op: Op)
    requires PgInv(s) && op.Append? && (op.draft.projectId, op.key) in s.idempotency
    requires s.idempotency[(op.draft.projectId, op.key)].intent == Intent(op.draft, op.expectedVersion)
    ensures PgStep(s, op) == (s, Appended(Message(op.draft, op.expectedVersion + 1)))
  {
    assert RecordOk(s.idempotency[(op.draft.projectId, op.key)], s.messages);
  }

  lemma RecordWritten(s: Tables, op: Op)
    requires PgInv(s) && op.Append? && PgStep(s, op).1.Appended?
    ensures var after := PgStep(s, op).0;
      && var scope := (op.draft.projectId, op.key);
      && scope in after.idempotency && after.idempotency[scope].intent == Intent(op.draft, op.expectedVersion)
      && PgStep(s, op).1 == Appended(Message(op.draft, op.expectedVersion + 1))
  {
  }

  /** Of two appends under different keys with the same expected version at most one succeeds. */
  lemma AtMostOneAppendPerVersion(projectId: nat, title: string, before: seq<Op>, first: Op, between: seq<Op>, second: Op)
    requires first.Append? && second.Append? && first.key != second.key && first.expectedVersion == second.expectedVersion
    requires PgStep(PgRun(PgStart(projectId, title), before), first).1.Appended?
    ensures var s := PgRun(PgStart(projectId, title), before + [first] + between);
      PgStep(s, second).1.Failed? && PgStep(s, second).0 == s
  {
    var start := PgStart(projectId, title);
    PgRunInv(projectId, title, before);
    assert (before + [first])[..|before|] == before;
    OneRecordPerVersionRun(projectId, title, before + [first] + between);
    PgRunInv(projectId, title, before + [first]);
    RecordWritten(PgRun(start, before), first);
    PgLater(start, before + [first], between);
  }

  /** No two records were written at the same version. */
  predicate OneRecordPerVersion(s: Tables) {
    forall a, b | a in s.idempotency && b in s.idempotency ::
      s.idempotency[a].intent.expectedVersion == s.idempotency[b].intent.expectedVersion ==> a == b
  }

  lemma {:induction false} OneRecordPerVersionRun(projectId: nat, title: string, ops: seq<Op>)
    ensures OneRecordPerVersion(PgRun(PgStart(projectId, title), ops))
  {
    if ops != [] {
      OneRecordPerVersionRun(projectId, title, ops[..|ops| - 1]);
      PgRunInv(projectId, title, ops[..|ops| - 1]);
    }
  }

  // ---- The in-memory twin ----------------------------------------------------------------------

  predicate MemInv(s: Maps) {
    && (forall i :: 0 <= i < |s.messages| ==> s.messages[i].ordinal == i + 1)
    && |s.messages| <= s.version
    && (forall key :: key in s.replay ==>
          s.replay[key].fingerprint == s.replay[key].result.draft && s.replay[key].result in s.messages)
  }

  lemma {:induction false} MemRunInv(projectId: nat, title: string, ops: seq<Op>)
    ensures MemInv(MemRun(MemStart(projectId, title), ops))
  {
    if ops != [] {
      MemRunInv(projectId, title, ops[..|ops| - 1]);
    }
  }

  // ---- The two stores side by side -------------------------------------------------------------

  /** The calls both stores answer alike: in the right project, and a replay of the same draft at the
      version it was written at, a new append at the current version under an unused id, and a rename
      at the current version to a valid title. */
  predicate Alike(s: Tables, op: Op) {
    match op
    case Append(draft, expectedVersion, key) =>
      && draft.projectId == s.projectId
      && if (draft.projectId, key) in s.idempotency then
           s.idempotency[(draft.projectId, key)].intent.draft == draft ==>
             s.idempotency[(draft.projectId, key)].intent.expectedVersion == expectedVersion
         else s.version == expectedVersion ==> !HasId(s.messages, draft.id)
    case Rename(projectId, title, expectedVersion) =>
      projectId == s.projectId && (s.version == expectedVersion ==> TitleOk(title))
    case SetArchived(projectId, _, _) => projectId == s.projectId
  }

  predicate AllAlike(s: Tables, ops: seq<Op>) {
    ops == [] || (AllAlike(s, ops[..|ops| - 1]) && Alike(PgRun(s, ops[..|ops| - 1]), ops[|ops| - 1]))
  }

  /** The same in both but for the ordinals. */
  ghost predicate SameButOrdinals(m: Maps, p: Tables) {
    && m.projectId == p.projectId && m.title == p.title && m.archived == p.archived && m.version == p.version
    && |m.messages| == |p.messages|
    && (forall i :: 0 <= i < |m.messages| ==> m.messages[i].draft == p.messages[i].draft)
    && (forall key :: key in m.replay <==> (p.projectId, key) in p.idempotency)
    && (forall key :: key in m.replay ==> m.replay[key].fingerprint == p.idempotency[(p.projectId, key)].intent.draft)
  }

  predicate SameReply(a: Reply, b: Reply) {
    match a
    case Appended(message) => b.Appended? && b.message.draft == message.draft
    case _ => a == b
  }

  lemma AppendsAlikeIff(m: Maps, p: Tables, op: Op)
    requires SameButOrdinals(m, p) && PgInv(p) && MemInv(m) && op.Append?
    ensures SameReply(MemStep(m, op).1, PgStep(p, op).1) <==> Alike(p, op)
    ensures Alike(p, op) ==> SameButOrdinals(MemStep(m, op).0, PgStep(p, op).0)
  {
    var scope := (op.draft.projectId, op.key);
    if scope in p.idempotency {
      assert RecordOk(p.idempotency[scope], p.messages);
    }
    if op.draft.projectId == p.projectId {
      assert op.key in m.replay <==> scope in p.idempotency;
    }
  }

  /** From related states a call gets the same reply, up to the ordinal, if and only if it is one of
      those, and then the states stay related. */
  lemma StepsAlikeIff(m: Maps, p: Tables, op: Op)
    requires SameButOrdinals(m, p) && PgInv(p) && MemInv(m)
    ensures SameReply(MemStep(m, op).1, PgStep(p, op).1) <==> Alike(p, op)
    ensures Alike(p, op) ==> SameButOrdinals(MemStep(m, op).0, PgStep(p, op).0)
  {
    if op.Append? {
      AppendsAlikeIff(m, p, op);
    }
  }

  /** How often a rename or an archiving succeeded. */
  function Edits(s: Tables, ops: seq<Op>): nat {
    if ops == [] then 0
    else
      var before := ops[..|ops| - 1];
      Edits(s, before) + if PgStep(PgRun(s, before), ops[|ops| - 1]).1.Changed? then 1 else 0
  }

  lemma StepCounts(s: Tables, op: Op)
    ensures var (next, reply) := PgStep(s, op);
      next.version - |next.messages| == s.version - |s.messages| + if reply.Changed? then 1 else 0
  {
  }

  /** Versions count messages and edits. */
  lemma {:induction false} VersionCounts(s: Tables, ops: seq<Op>)
    requires s.version == |s.messages|
    ensures PgRun(s, ops).version == |PgRun(s, ops).messages| + Edits(s, ops)
  {
    if ops != [] {
      VersionCounts(s, ops[..|ops| - 1]);
      StepCounts(PgRun(s, ops[..|ops| - 1]), ops[|ops| - 1]);
    }
  }

  lemma {:induction false} RunsAlike(projectId: nat, title: string, ops: seq<Op>)
    requires AllAlike(PgStart(projectId, title), ops)
    ensures SameButOrdinals(MemRun(MemStart(projectId, title), ops), PgRun(PgStart(projectId, title), ops))
  {
    if ops != [] {
      var before, last := ops[..|ops| - 1], ops[|ops| - 1];
      RunsAlike(projectId, title, before);
      PgRunInv(projectId, title, before);
      MemRunInv(projectId, title, before);
      StepsAlikeIff(MemRun(MemStart(projectId, title), before), PgRun(PgStart(projectId, title), before), last);
    }
  }

  /** After any calls answered alike, the next call is answered alike exactly when it is one of those. */
  lemma RepliesAgreeIff(projectId: nat, title: string, ops: seq<Op>, op: Op)
    requires AllAlike(PgStart(projectId, title), ops)
    ensures var m, p := MemRun(MemStart(projectId, title), ops), PgRun(PgStart(projectId, title), ops);
      SameReply(MemStep(m, op).1, PgStep(p, op).1) <==> Alike(p, op)
  {
    RunsAlike(projectId, title, ops);
    PgRunInv(projectId, title, ops);
    MemRunInv(projectId, title, ops);
    StepsAlikeIff(MemRun(MemStart(projectId, title), ops), PgRun(PgStart(projectId, title), ops), op);
  }

  /** So an append under a key already recorded, the twin having forgotten the expected version, is
      answered alike exactly when the same draft comes with the version it was first written at. */
  lemma ReplayIgnoresVersion(projectId: nat, title: string, ops: seq<Op>, draft: Draft, expectedVersion: nat, key: string)
    requires AllAlike(PgStart(projectId, title), ops)
    requires (projectId, key) in PgRun(PgStart(projectId, title), ops).idempotency
    ensures var m, p := MemRun(MemStart(projectId, title), ops), PgRun(PgStart(projectId, title), ops);
      var first := p.idempotency[(projectId, key)].intent;
      var op := Append(draft, expectedVersion, key);
      && (SameReply(MemStep(m, op).1, PgStep(p, op).1) <==>
            draft.projectId == projectId && (draft == first.draft ==> expectedVersion == first.expectedVersion))
      && (draft == first.draft && expectedVersion != first.expectedVersion ==>
            MemStep(m, op).1.Appended? && PgStep(p, op).1 == Failed(IntentMismatch))
  {
    var p := PgRun(PgStart(projectId, title), ops);
    RunsAlike(projectId, title, ops);
    PgRunInv(projectId, title, ops);
    assert RecordOk(p.idempotency[(projectId, key)], p.messages);
    RepliesAgreeIff(projectId, title, ops, Append(draft, expectedVersion, key));
  }

  /** After the same calls, a new append that succeeds in one store succeeds in the other, and gets the same
      ordinal in both exactly when no rename or archiving succeeded before it. */
  lemma {:induction false} OrdinalsAgreeIff(projectId: nat, title: string, ops: seq<Op>, op: Op)
    requires op.Append? && AllAlike(PgStart(projectId, title), ops + [op])
    requires var p := PgRun(PgStart(projectId, title), ops);
      (projectId, op.key) !in p.idempotency && PgStep(p, op).1.Appended?
    ensures var m, p := MemRun(MemStart(projectId, title), ops), PgRun(PgStart(projectId, title), ops);
      && MemStep(m, op).1.Appended?
      && (MemStep(m, op).1 == PgStep(p, op).1 <==> Edits(PgStart(projectId, title), ops) == 0)
  {
    assert (ops + [op])[..|ops|] == ops;
    RunsAlike(projectId, title, ops);
    VersionCounts(PgStart(projectId, title), ops);
    PgRunInv(projectId, title, ops);
    MemRunInv(projectId, title, ops);
    StepsAlikeIff(MemRun(MemStart(projectId, title), ops), PgRun(PgStart(projectId, title), ops), op);
  }
}
