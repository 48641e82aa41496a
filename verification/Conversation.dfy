/** One conversation's history in the Postgres store and in its in-memory twin. */
module Conversation {
  import opened Common

  /** A message before it has an ordinal; `content` stands for all that the caller supplies. */
  datatype Draft = Draft(id: nat, projectId: nat, content: string)

  datatype Message = Message(draft: Draft, ordinal: nat)

  datatype StoreError = NotFound | StaleVersion | IntentMismatch | ConstraintViolation

  datatype Op =
    | Append(draft: Draft, expectedVersion: nat, key: string)
    | Rename(projectId: nat, title: string, expectedVersion: nat)
    | SetArchived(projectId: nat, archived: bool, expectedVersion: nat)

  datatype Reply = Appended(message: Message) | Changed(version: nat) | Failed(error: StoreError)

  // ---- PostgresConversationStore ---------------------------------------------------------------

  /** An idempotency row: the whole intent, expected version included, and the message written. */
  datatype Intent = Intent(draft: Draft, expectedVersion: nat)
  datatype Record = Record(intent: Intent, messageId: nat)

  datatype Tables = Tables(
    projectId: nat,
    title: string,
    archived: bool,
    version: nat,
    messages: seq<Message>,
    idempotency: map<(nat, string), Record>)

  predicate TitleOk(title: string) { 1 <= |title| <= 200 }

  predicate HasId(messages: seq<Message>, id: nat) {
    exists i :: 0 <= i < |messages| && messages[i].draft.id == id
  }

  predicate HasOrdinal(messages: seq<Message>, ordinal: nat) {
    exists i :: 0 <= i < |messages| && messages[i].ordinal == ordinal
  }

  /** SELECT * FROM conversation_messages WHERE id=$1 */
  function ById(messages: seq<Message>, id: nat): Option<Message> {
    if messages == [] then None
    else if messages[0].draft.id == id then Some(messages[0])
    else ById(messages[1..], id)
  }

  function PgAppend(s: Tables, draft: Draft, expectedVersion: nat, key: string): (Tables, Reply) {
    var scope, intent := (draft.projectId, key), Intent(draft, expectedVersion);
    if scope in s.idempotency then
      if s.idempotency[scope].intent != intent then (s, Failed(IntentMismatch))
      else
        match ById(s.messages, s.idempotency[scope].messageId)
        case Some(message) => (s, Appended(message))
        case None => (s, Failed(NotFound))
    else if s.projectId != draft.projectId || s.version != expectedVersion then (s, Failed(StaleVersion))
    else
      var ordinal := s.version + 1;
      if HasId(s.messages, draft.id) || HasOrdinal(s.messages, ordinal) then (s, Failed(ConstraintViolation))
      else
        (s.(version := ordinal, messages := s.messages + [Message(draft, ordinal)],
            idempotency := s.idempotency[scope := Record(intent, draft.id)]),
         Appended(Message(draft, ordinal)))
  }

  function PgStep(s: Tables, op: Op): (Tables, Reply) {
    match op
    case Append(draft, expectedVersion, key) => PgAppend(s, draft, expectedVersion, key)
    case Rename(projectId, title, expectedVersion) =>
      if s.projectId != projectId || s.version != expectedVersion then (s, Failed(StaleVersion))
      else if !TitleOk(title) then (s, Failed(ConstraintViolation))
      else (s.(title := title, version := s.version + 1), Changed(s.version + 1))
    case SetArchived(projectId, archived, expectedVersion) =>
      if s.projectId != projectId || s.version != expectedVersion then (s, Failed(StaleVersion))
      else (s.(archived := archived, version := s.version + 1), Changed(s.version + 1))
  }

  class PostgresConversationStore {
    var projectId: nat
    var title: string
    var archived: bool
    var version: nat
    var messages: seq<Message>
    var idempotency: map<(nat, string), Record>

    ghost function State(): Tables
      reads this
    {
      Tables(projectId, title, archived, version, messages, idempotency)
    }

    constructor (projectId: nat, title: string)
      ensures State() == Tables(projectId, title, false, 0, [], map[])
    {
      this.projectId, this.title, archived, version, messages, idempotency := projectId, title, false, 0, [], map[];
    }

    method AppendMessage(draft: Draft, expectedVersion: nat, key: string) returns (reply: Reply)
      modifies this
      ensures (State(), reply) == PgAppend(old(State()), draft, expectedVersion, key)
    {
      var scope, intent := (draft.projectId, key), Intent(draft, expectedVersion);
      if scope in idempotency {
        if idempotency[scope].intent != intent {
          return Failed(IntentMismatch);
        }
        var row := ById(messages, idempotency[scope].messageId);
        return if row.Some? then Appended(row.value) else Failed(NotFound);
      }
      if projectId != draft.projectId || version != expectedVersion {
        return Failed(StaleVersion);
      }
      version := version + 1;
      var ordinal := version;
      if HasId(messages, draft.id) || HasOrdinal(messages, ordinal) {
        // ROLLBACK
        version := version - 1;
        return Failed(ConstraintViolation);
      }
      messages := messages + [Message(draft, ordinal)];
      idempotency := idempotency[scope := Record(intent, draft.id)];
      reply := Appended(Message(draft, ordinal));
    }

    method RenameConversation(project: nat, title: string, expectedVersion: nat) returns (reply: Reply)
      modifies this
      ensures (State(), reply) == PgStep(old(State()), Rename(project, title, expectedVersion))
    {
      if projectId != project || version != expectedVersion {
        return Failed(StaleVersion);
      }
      if !TitleOk(title) {
        return Failed(ConstraintViolation);
      }
      this.title := title;
      version := version + 1;
      reply := Changed(version);
    }

    method SetConversationArchived(project: nat, archived: bool, expectedVersion: nat) returns (reply: Reply)
      modifies this
      ensures (State(), reply) == PgStep(old(State()), SetArchived(project, archived, expectedVersion))
    {
      if projectId != project || version != expectedVersion {
        return Failed(StaleVersion);
      }
      this.archived := archived;
      version := version + 1;
      reply := Changed(version);
    }
  }

  // ---- MemoryConversationStore -----------------------------------------------------------------

  /** A replay entry: the intent without the expected version, and the result itself. */
  datatype Entry = Entry(fingerprint: Draft, result: Message)

  datatype Maps = Maps(
    projectId: nat,
    title: string,
    archived: bool,
    version: nat,
    messages: seq<Message>,
    replay: map<string, Entry>)

  function MemAppend(s: Maps, draft: Draft, expectedVersion: nat, key: string): (Maps, Reply) {
    if key in s.replay then
      if s.replay[key].fingerprint != draft then (s, Failed(IntentMismatch)) else (s, Appended(s.replay[key].result))
    else if s.projectId != draft.projectId then (s, Failed(NotFound))
    else if s.version != expectedVersion then (s, Failed(StaleVersion))
    else
      var message := Message(draft, |s.messages| + 1);
      (s.(version := s.version + 1, messages := s.messages + [message], replay := s.replay[key := Entry(draft, message)]),
       Appended(message))
  }

  function MemStep(s: Maps, op: Op): (Maps, Reply) {
    match op
    case Append(draft, expectedVersion, key) => MemAppend(s, draft, expectedVersion, key)
    case Rename(projectId, title, expectedVersion) =>
      if s.projectId != projectId then (s, Failed(NotFound))
      else if s.version != expectedVersion then (s, Failed(StaleVersion))
      else (s.(title := title, version := s.version + 1), Changed(s.version + 1))
    case SetArchived(projectId, archived, expectedVersion) =>
      if s.projectId != projectId then (s, Failed(NotFound))
      else if s.version != expectedVersion then (s, Failed(StaleVersion))
      else (s.(archived := archived, version := s.version + 1), Changed(s.version + 1))
  }

  class MemoryConversationStore {
    var projectId: nat
    var title: string
    var archived: bool
    var version: nat
    var messages: seq<Message>
    var replay: map<string, Entry>

    ghost function State(): Maps
      reads this
    {
      Maps(projectId, title, archived, version, messages, replay)
    }

    constructor (projectId: nat, title: string)
      ensures State() == Maps(projectId, title, false, 0, [], map[])
    {
      this.projectId, this.title, archived, version, messages, replay := projectId, title, false, 0, [], map[];
    }

    method AppendMessage(draft: Draft, expectedVersion: nat, key: string) returns (reply: Reply)
      modifies this
      ensures (State(), reply) == MemAppend(old(State()), draft, expectedVersion, key)
    {
      if key in replay {
        if replay[key].fingerprint != draft {
          return Failed(IntentMismatch);
        }
        return Appended(replay[key].result);
      }
      if projectId != draft.projectId {
        return Failed(NotFound);
      }
      if version != expectedVersion {
        return Failed(StaleVersion);
      }
      var message := Message(draft, |messages| + 1);
      messages := messages + [message];
      version := version + 1;
      replay := replay[key := Entry(draft, message)];
      reply := Appended(message);
    }

    method Change(op: Op) returns (reply: Reply)
      requires !op.Append?
      modifies this
      ensures (State(), reply) == MemStep(old(State()), op)
    {
      if projectId != op.projectId {
        return Failed(NotFound);
      }
      if version != op.expectedVersion {
        return Failed(StaleVersion);
      }
      match op {
        case Rename(_, title, _) => this.title := title;
        case SetArchived(_, archived, _) => this.archived := archived;
      }
      version := version + 1;
      reply := Changed(version);
    }
  }
}
