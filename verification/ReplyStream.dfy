/** Reply progress: a coalescing writer, the chunk table, the stream route and a reconnecting client. */
module ReplyStream {
  import opened Common
  import opened Text

  datatype ReplyChunk = ReplyChunk(ordinal: nat, fragment: string)

  const FLUSH_BYTES: nat := 240
  const FRAGMENT_LIMIT: nat := 65_536

  // ---- CoalescingChunkWriter -----------------------------------------------------------------

  /** `queue` holds the chained sink writes that have not settled, oldest first. */
  datatype Writer = Writer(buffer: string, ordinal: nat, queue: seq<ReplyChunk>, failures: nat, timerArmed: bool)

  function Drained(w: Writer): Writer {
    if w.buffer == "" then w.(timerArmed := false)
    else w.(buffer := "", ordinal := w.ordinal + 1, queue := w.queue + [ReplyChunk(w.ordinal + 1, w.buffer)])
  }

  function Pushed(w: Writer, fragment: string): Writer {
    if fragment == "" then w
    else
      var grown := w.(buffer := w.buffer + fragment);
      if FLUSH_BYTES <= |grown.buffer| then Drained(grown) else grown.(timerArmed := true)
  }

  /** What flush() does before it starts waiting. */
  function Flushed(w: Writer): Writer {
    Drained(w).(timerArmed := false)
  }

  class CoalescingChunkWriter {
    var buffer: string
    var ordinal: nat
    var queue: seq<ReplyChunk>
    var failures: nat
    var timerArmed: bool

    ghost function State(): Writer
      reads this
    {
      Writer(buffer, ordinal, queue, failures, timerArmed)
    }

    constructor ()
      ensures State() == Writer("", 0, [], 0, false)
    {
      buffer, ordinal, queue, failures, timerArmed := "", 0, [], 0, false;
    }

    method Push(fragment: string)
      modifies this
      ensures State() == Pushed(old(State()), fragment)
    {
      if fragment == "" {
        return;
      }
      buffer := buffer + fragment;
      if FLUSH_BYTES <= |buffer| {
        Drain();
        return;
      }
      if !timerArmed {
        timerArmed := true;
      }
    }

    method Drain()
      modifies this
      ensures State() == Drained(old(State()))
    {
      if buffer == "" {
        timerArmed := false;
        return;
      }
      var fragment := buffer;
      buffer := "";
      ordinal := ordinal + 1;
      queue := queue + [ReplyChunk(ordinal, fragment)];
    }

    /** flush() up to its bounded wait, whose outcome decides `abandoned`. */
    method Flush(abandoned: bool)
      modifies this
      ensures State() == Flushed(old(State())).(failures := old(failures) + if abandoned then 1 else 0)
    {
      Drain();
      timerArmed := false;
      if abandoned {
        failures := failures + 1;
      }
    }
  }

  // ---- PostgresReplyChunkStore ---------------------------------------------------------------

  /** The rows of one task in index order. */
  predicate Indexed(rows: seq<ReplyChunk>) {
    forall i, j :: 0 <= i < j < |rows| ==> rows[i].ordinal < rows[j].ordinal
  }

  /** INSERT ... ON CONFLICT (task_id, ordinal) DO NOTHING */
  function Inserted(rows: seq<ReplyChunk>, c: ReplyChunk): seq<ReplyChunk> {
    if rows == [] || c.ordinal < rows[0].ordinal then [c] + rows
    else if c.ordinal == rows[0].ordinal then rows
    else [rows[0]] + Inserted(rows[1..], c)
  }

  function Placed(rows: seq<ReplyChunk>, c: ReplyChunk, i: nat): seq<ReplyChunk>
    requires i <= |rows|
  {
    rows[..i] + [c] + rows[i..]
  }

  lemma PlacedInRest(rows: seq<ReplyChunk>, c: ReplyChunk, i: nat)
    requires 0 < i <= |rows|
    ensures Placed(rows, c, i) == [rows[0]] + Placed(rows[1..], c, i - 1)
  {
    assert rows[1..][i - 1..] == rows[i..];
  }

  lemma {:induction false} InsertedAt(rows: seq<ReplyChunk>, c: ReplyChunk, i: nat)
    requires i <= |rows| && (forall j :: 0 <= j < i ==> rows[j].ordinal < c.ordinal)
    requires i < |rows| ==> c.ordinal <= rows[i].ordinal
    ensures Inserted(rows, c) == if i < |rows| && rows[i].ordinal == c.ordinal then rows else Placed(rows, c, i)
    decreases i
  {
    if i == 0 {
      assert rows[..0] + [c] + rows[0..] == [c] + rows;
    } else {
      var rest := rows[1..];
      InsertedAt(rest, c, i - 1);
      PlacedInRest(rows, c, i);
      assert rows == [rows[0]] + rest;
    }
  }

  function Appended(rows: seq<ReplyChunk>, c: ReplyChunk): seq<ReplyChunk> {
    if c.fragment == "" then rows else Inserted(rows, c.(fragment := Truncate(c.fragment, FRAGMENT_LIMIT)))
  }

  /** SELECT ... WHERE ordinal > after ORDER BY ordinal, up to a limit. */
  function Between(rows: seq<ReplyChunk>, after: nat, upTo: nat): seq<ReplyChunk> {
    if rows == [] then []
    else (if after < rows[0].ordinal <= upTo then [rows[0]] else []) + Between(rows[1..], after, upTo)
  }

  function MaxOrdinal(rows: seq<ReplyChunk>): nat {
    if rows == [] then 0 else rows[|rows| - 1].ordinal
  }

  function Since(rows: seq<ReplyChunk>, after: nat): seq<ReplyChunk> {
    Between(rows, after, MaxOrdinal(rows))
  }

  class PostgresReplyChunkStore {
    var rows: seq<ReplyChunk>

    constructor ()
      ensures rows == []
    {
      rows := [];
    }

    /** The position the new row takes among the rows in index order. */
    method Append(c: ReplyChunk)
      requires Indexed(rows)
      modifies this
      ensures rows == Appended(old(rows), c)
    {
      if c.fragment == "" {
        return;
      }
      var row := c.(fragment := Truncate(c.fragment, FRAGMENT_LIMIT));
      var i := 0;
      while i < |rows| && rows[i].ordinal < row.ordinal
        invariant 0 <= i <= |rows| && rows == old(rows)
        invariant forall j :: 0 <= j < i ==> rows[j].ordinal < row.ordinal
      {
        i := i + 1;
      }
      InsertedAt(rows, row, i);
      if i == |rows| || row.ordinal < rows[i].ordinal {
        rows := rows[..i] + [row] + rows[i..];
      }
    }

    method SinceOrdinal(after: nat) returns (chunks: seq<ReplyChunk>)
      requires Indexed(rows)
      ensures chunks == Since(rows, after)
    {
      chunks := [];
      var i := 0;
      ghost var top := MaxOrdinal(rows);
      while i < |rows|
        invariant 0 <= i <= |rows|
        invariant Between(rows, after, top) == chunks + Between(rows[i..], after, top)
      {
        assert rows[i..][1..] == rows[i + 1..];
        assert rows[i].ordinal <= top;
        if after < rows[i].ordinal {
          assert chunks + ([rows[i]] + Between(rows[i + 1..], after, top)) == (chunks + [rows[i]]) + Between(rows[i + 1..], after, top);
          chunks := chunks + [rows[i]];
        }
        i := i + 1;
      }
    }
  }

  function Fragments(chunks: seq<ReplyChunk>): string {
    if chunks == [] then "" else chunks[0].fragment + Fragments(chunks[1..])
  }

  // ---- followReplyStream() -------------------------------------------------------------------

  datatype Message = ChunkEvent(chunk: ReplyChunk) | RetryEvent(after: nat) | DoneEvent

  /** `scheduled` are the reconnect timers: each will connect after max(lastOrdinal, its value). */
  datatype Client = Client(lastOrdinal: nat, text: string, settled: bool, scheduled: seq<nat>)

  const NewClient := Client(0, "", false, [0])

  function OnMessage(c: Client, m: Message): Client {
    match m
    case ChunkEvent(chunk) =>
      if c.settled || chunk.ordinal <= c.lastOrdinal then c
      else c.(lastOrdinal := chunk.ordinal, text := c.text + chunk.fragment)
    case RetryEvent(after) => c.(scheduled := c.scheduled + [after])
    case DoneEvent => c.(settled := true)
  }

  /** A disconnect, which reconnects or, out of reconnects, gives up on the stream. */
  function OnError(c: Client, giveUp: bool): Client {
    if c.settled then c
    else if giveUp then c.(settled := true)
    else c.(scheduled := c.scheduled + [0])
  }

  function Max(a: nat, b: nat): nat {
    if a < b then b else a
  }

  class ReplyFollower {
    var lastOrdinal: nat
    var text: string
    var settled: bool
    var scheduled: seq<nat>

    ghost function State(): Client
      reads this
    {
      Client(lastOrdinal, text, settled, scheduled)
    }

    constructor ()
      ensures State() == NewClient
    {
      lastOrdinal, text, settled, scheduled := 0, "", false, [0];
    }

    method OnChunk(chunk: ReplyChunk)
      modifies this
      ensures State() == OnMessage(old(State()), ChunkEvent(chunk))
    {
      if settled || chunk.ordinal <= lastOrdinal {
        return;
      }
      lastOrdinal := chunk.ordinal;
      text := text + chunk.fragment;
    }

    method OnRetry(after: nat)
      modifies this
      ensures State() == OnMessage(old(State()), RetryEvent(after))
    {
      scheduled := scheduled + [after];
    }

    method OnDone()
      modifies this
      ensures State() == OnMessage(old(State()), DoneEvent)
    {
      settled := true;
    }

    method OnDisconnect(giveUp: bool)
      modifies this
      ensures State() == OnError(old(State()), giveUp)
    {
      if settled {
        return;
      }
      if !giveUp {
        scheduled := scheduled + [0];
        return;
      }
      settled := true;
    }
  }

  // ---- The pipeline --------------------------------------------------------------------------

  /** One stream response: the route's cursor, and what was sent but not yet received. `from` is the
      ordinal the response has been received up to. */
  datatype Connection = Connection(from: nat, cursor: nat, channel: seq<Message>, open: bool)

  datatype Pipeline = Pipeline(
    emitted: string,
    writer: Writer,
    flushed: bool,
    rows: seq<ReplyChunk>,
    connections: map<nat, Connection>,
    client: Client)

  datatype Action =
    | Push(fragment: string)
    | TimerDrain
    | Flush(abandoned: bool)
    | WriteLands
    | WriteFails(stored: bool)
    | Connect(id: nat, timer: nat)
    | Poll(id: nat)
    | Retry(id: nat)
    | Finish(id: nat)
    | Cut(id: nat, keep: nat)
    | Receive(id: nat)
    | Disconnected(giveUp: bool)

  const Start := Pipeline("", Writer("", 0, [], 0, false), false, [], map[], NewClient)

  function Events(chunks: seq<ReplyChunk>): seq<Message> {
    if chunks == [] then [] else [ChunkEvent(chunks[0])] + Events(chunks[1..])
  }

  /** The stream route's inner loop: every new row is written out and the cursor follows it. */
  method SendRows(store: PostgresReplyChunkStore, cursor: nat, channel: seq<Message>) returns (next: nat, sent: seq<Message>)
    requires Indexed(store.rows)
    ensures var chunks := Since(store.rows, cursor);
      sent == channel + Events(chunks) && next == if chunks == [] then cursor else chunks[|chunks| - 1].ordinal
  {
    var chunks := store.SinceOrdinal(cursor);
    next, sent := cursor, channel;
    for i := 0 to |chunks|
      invariant next == if i == 0 then cursor else chunks[i - 1].ordinal
      invariant sent + Events(chunks[i..]) == channel + Events(chunks)
    {
      assert chunks[i..][1..] == chunks[i + 1..];
      next := chunks[i].ordinal;
      sent := sent + [ChunkEvent(chunks[i])];
      assert sent + Events(chunks[i + 1..]) == sent[..|sent| - 1] + Events(chunks[i..]);
    }
  }

  function ReachedBy(from: nat, channel: seq<Message>): nat
    decreases |channel|
  {
    if channel == [] then from
    else ReachedBy(if channel[0].ChunkEvent? then channel[0].chunk.ordinal else from, channel[1..])
  }

  function Step(s: Pipeline, a: Action): Pipeline {
    match a
    case Push(fragment) =>
      // Within one attempt nothing is pushed once flush() was called.
      if s.flushed then s else s.(emitted := s.emitted + fragment, writer := Pushed(s.writer, fragment))
    case TimerDrain => if s.writer.timerArmed then s.(writer := Drained(s.writer)) else s
    case Flush(abandoned) =>
      var w := Flushed(s.writer);
      s.(writer := w.(failures := w.failures + if abandoned then 1 else 0), flushed := true)
    case WriteLands =>
      if s.writer.queue == [] then s
      else s.(writer := s.writer.(queue := s.writer.queue[1..]), rows := Appended(s.rows, s.writer.queue[0]))
    case WriteFails(stored) =>
      if s.writer.queue == [] then s
      else
        s.(writer := s.writer.(queue := s.writer.queue[1..], failures := s.writer.failures + 1),
           rows := if stored then Appended(s.rows, s.writer.queue[0]) else s.rows)
    case Connect(id, timer) =>
      if id in s.connections || |s.client.scheduled| <= timer then s
      else
        var after := Max(s.client.lastOrdinal, s.client.scheduled[timer]);
        s.(connections := s.connections[id := Connection(after, after, [], true)],
           client := s.client.(scheduled := s.client.scheduled[..timer] + s.client.scheduled[timer + 1..]))
    case Poll(id) =>
      if id !in s.connections || !s.connections[id].open then s
      else
        var c := s.connections[id];
        var chunks := Since(s.rows, c.cursor);
        s.(connections := s.connections[id := c.(channel := c.channel + Events(chunks),
             cursor := if chunks == [] then c.cursor else chunks[|chunks| - 1].ordinal)])
    case Retry(id) =>
      if id !in s.connections || !s.connections[id].open then s
      else
        var c := s.connections[id];
        s.(connections := s.connections[id := c.(channel := c.channel + [RetryEvent(c.cursor)], open := false)])
    case Finish(id) =>
      if id !in s.connections || !s.connections[id].open then s
      else
        var c := s.connections[id];
        s.(connections := s.connections[id := c.(channel := c.channel + [DoneEvent], open := false)])
    case Cut(id, keep) =>
      // The connection breaks: what was not yet received beyond `keep` messages is lost.
      if id !in s.connections || |s.connections[id].channel| < keep then s
      else
        var c := s.connections[id];
        s.(connections := s.connections[id := c.(channel := c.channel[..keep], open := false,
                                                cursor := ReachedBy(c.from, c.channel[..keep]))])
    case Receive(id) =>
      if id !in s.connections || s.connections[id].channel == [] then s
      else
        var c := s.connections[id];
        s.(connections := s.connections[id := c.(channel := c.channel[1..], from := ReachedBy(c.from, c.channel[..1]))],
           client := OnMessage(s.client, c.channel[0]))
    case Disconnected(giveUp) => s.(client := OnError(s.client, giveUp))
  }

  function Play(s: Pipeline, actions: seq<Action>): Pipeline {
    if actions == [] then s else Step(Play(s, actions[..|actions| - 1]), actions[|actions| - 1])
  }
}
