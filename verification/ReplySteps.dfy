/** What each step of the reply pipeline does, said of the parts it touches. */
module ReplySteps {
  import opened Common
  import opened Text
  import opened ReplyStream

  // ---- The writer ------------------------------------------------------------------------------

  /** Draining sends a nonempty buffer on as one chunk under the next number; an empty one only stops the timer. */
  lemma DrainedIs(w: Writer)
    ensures var d := Drained(w);
      && d.buffer == "" && d.failures == w.failures
      && if w.buffer == "" then d.ordinal == w.ordinal && d.queue == w.queue && !d.timerArmed
         else
           && d.ordinal == w.ordinal + 1 && d.timerArmed == w.timerArmed
           && |d.queue| == |w.queue| + 1 && d.queue[..|w.queue|] == w.queue
           && d.queue[|w.queue|].ordinal == w.ordinal + 1 && d.queue[|w.queue|].fragment == w.buffer
  {
  }

  /** A nonempty fragment joins the buffer, which is drained from 240 characters on and otherwise put on a timer. */
  lemma PushedIs(w: Writer, fragment: string)
    ensures var p := Pushed(w, fragment);
      && p.failures == w.failures
      && (fragment == "" ==> p == w)
      && (fragment != "" && |w.buffer| + |fragment| < 240 ==>
            p.buffer == w.buffer + fragment && p.ordinal == w.ordinal && p.queue == w.queue && p.timerArmed)
      && (fragment != "" && 240 <= |w.buffer| + |fragment| ==>
            p.buffer == "" && p.ordinal == w.ordinal + 1 && p.timerArmed == w.timerArmed
            && |p.queue| == |w.queue| + 1 && p.queue[..|w.queue|] == w.queue
            && p.queue[|w.queue|].fragment == w.buffer + fragment && p.queue[|w.queue|].ordinal == w.ordinal + 1)
  {
  }

  // ---- The table -------------------------------------------------------------------------------

  /** An append adds the chunk, cut at 65536 characters, unless it is empty or its number is taken. */
  lemma {:induction false} AppendedHas(rows: seq<ReplyChunk>, c: ReplyChunk, r: ReplyChunk)
    requires Indexed(rows)
    ensures Indexed(Appended(rows, c))
    ensures r in Appended(rows, c) <==>
      r in rows
      || (c.fragment != "" && (forall other :: other in rows ==> other.ordinal != c.ordinal)
          && r.ordinal == c.ordinal && r.fragment <= c.fragment
          && |r.fragment| == if |c.fragment| < 65_536 then |c.fragment| else 65_536)
  {
    if c.fragment != "" {
      var row := c.(fragment := Truncate(c.fragment, FRAGMENT_LIMIT));
      InsertedHas(rows, row);
      if r.ordinal == c.ordinal && r.fragment <= c.fragment && |r.fragment| == |row.fragment| {
        assert r.fragment == c.fragment[..|r.fragment|] == row.fragment;
      }
    }
  }

  lemma {:induction false} InsertedHas(rows: seq<ReplyChunk>, row: ReplyChunk)
    requires Indexed(rows)
    ensures Indexed(Inserted(rows, row))
    ensures forall r :: r in Inserted(rows, row) <==>
      r in rows || (r == row && forall other :: other in rows ==> other.ordinal != row.ordinal)
  {
    if rows != [] {
      var first, rest := rows[0], rows[1..];
      assert rows == [first] + rest;
      if row.ordinal < first.ordinal {
        assert forall other :: other in rows ==> other.ordinal != row.ordinal;
      } else if row.ordinal > first.ordinal {
        InsertedHas(rest, row);
        assert forall r :: r in Inserted(rest, row) ==> first.ordinal < r.ordinal;
      }
    }
  }

  /** The rows after a number are exactly those above it, in order. */
  lemma {:induction false} SinceIs(rows: seq<ReplyChunk>, after: nat, r: ReplyChunk)
    requires Indexed(rows)
    ensures Indexed(Since(rows, after))
    ensures r in Since(rows, after) <==> r in rows && after < r.ordinal
  {
    BetweenIs(rows, after, MaxOrdinal(rows));
    if r in rows {
      var i :| 0 <= i < |rows| && rows[i] == r;
      assert r.ordinal <= MaxOrdinal(rows);
    }
  }

  lemma {:induction false} BetweenIs(rows: seq<ReplyChunk>, after: nat, upTo: nat)
    requires Indexed(rows)
    ensures Indexed(Between(rows, after, upTo))
    ensures forall r :: r in Between(rows, after, upTo) <==> r in rows && after < r.ordinal <= upTo
  {
    if rows != [] {
      var rest := rows[1..];
      assert rows == [rows[0]] + rest;
      BetweenIs(rest, after, upTo);
      assert forall r :: r in Between(rest, after, upTo) ==> rows[0].ordinal < r.ordinal;
    }
  }

  // ---- The pipeline ----------------------------------------------------------------------------

  /** Pushing, draining on the timer, flushing. */
  lemma WriterSteps(s: Pipeline, fragment: string, abandoned: bool)
    ensures var pushed := Step(s, Push(fragment));
      if s.flushed then pushed == s
      else pushed == s.(emitted := s.emitted + fragment, writer := pushed.writer) && pushed.writer == Pushed(s.writer, fragment)
    ensures var timed := Step(s, TimerDrain);
      timed == s.(writer := timed.writer) && timed.writer == if s.writer.timerArmed then Drained(s.writer) else s.writer
    ensures var flushed := Step(s, Flush(abandoned));
      && flushed == s.(writer := flushed.writer, flushed := true)
      && !flushed.writer.timerArmed && flushed.writer.buffer == ""
      && flushed.writer.queue == Drained(s.writer).queue && flushed.writer.ordinal == Drained(s.writer).ordinal
      && flushed.writer.failures == s.writer.failures + if abandoned then 1 else 0
  {
  }

  /** A write settles: it leaves the queue, and is in the table if it landed, or failed after all but was stored. */
  lemma WriteSteps(s: Pipeline, stored: bool)
    ensures s.writer.queue == [] ==> Step(s, WriteLands) == s && Step(s, WriteFails(stored)) == s
    ensures s.writer.queue != [] ==>
      var landed, failed := Step(s, WriteLands), Step(s, WriteFails(stored));
      && landed == s.(writer := landed.writer, rows := landed.rows) && failed == s.(writer := failed.writer, rows := failed.rows)
      && landed.writer == s.writer.(queue := s.writer.queue[1..])
      && failed.writer == s.writer.(queue := s.writer.queue[1..], failures := s.writer.failures + 1)
      && landed.rows == Appended(s.rows, s.writer.queue[0])
      && failed.rows == if stored then Appended(s.rows, s.writer.queue[0]) else s.rows
  {
  }

  /** A reconnect timer that fires opens a response after the last chunk seen, or after where the server said if
      that is further, and is spent. */
  lemma ConnectStep(s: Pipeline, id: nat, timer: nat)
    ensures var next := Step(s, Connect(id, timer));
      if id in s.connections || |s.client.scheduled| <= timer then next == s
      else
        && next == s.(connections := next.connections, client := next.client)
        && id in next.connections && next.connections == s.connections[id := next.connections[id]]
        && var c := next.connections[id];
           && c.open && c.channel == [] && c.from == c.cursor
           && c.cursor >= s.client.lastOrdinal && c.cursor >= s.client.scheduled[timer]
           && (c.cursor == s.client.lastOrdinal || c.cursor == s.client.scheduled[timer])
           && next.client == s.client.(scheduled := s.client.scheduled[..timer] + s.client.scheduled[timer + 1..])
  {
  }

  /** What an open response sends, and that it is over after the last of the three. */
  lemma ResponseSteps(s: Pipeline, id: nat)
    ensures id !in s.connections || !s.connections[id].open ==>
      Step(s, Poll(id)) == s && Step(s, Retry(id)) == s && Step(s, Finish(id)) == s
    ensures id in s.connections && s.connections[id].open ==>
      var c := s.connections[id];
      var chunks := Since(s.rows, c.cursor);
      && Step(s, Poll(id)) == s.(connections := s.connections[id :=
           Connection(c.from, if chunks == [] then c.cursor else chunks[|chunks| - 1].ordinal, c.channel + Events(chunks), true)])
      && Step(s, Retry(id)) == s.(connections := s.connections[id := Connection(c.from, c.cursor, c.channel + [RetryEvent(c.cursor)], false)])
      && Step(s, Finish(id)) == s.(connections := s.connections[id := Connection(c.from, c.cursor, c.channel + [DoneEvent], false)])
  {
  }

  /** A broken response loses the end of what it sent, and sends nothing more. */
  lemma CutStep(s: Pipeline, id: nat, keep: nat)
    ensures var next := Step(s, Cut(id, keep));
      if id !in s.connections || |s.connections[id].channel| < keep then next == s
      else
        && next == s.(connections := next.connections)
        && id in next.connections && next.connections == s.connections[id := next.connections[id]]
        && !next.connections[id].open && next.connections[id].channel == s.connections[id].channel[..keep]
        && next.connections[id].from == s.connections[id].from
  {
  }

  /** One message reaches the client, from the front. */
  lemma ReceiveStep(s: Pipeline, id: nat)
    ensures var next := Step(s, Receive(id));
      if id !in s.connections || s.connections[id].channel == [] then next == s
      else
        && next == s.(connections := next.connections, client := next.client)
        && id in next.connections && next.connections == s.connections[id := next.connections[id]]
        && next.connections[id].channel == s.connections[id].channel[1..]
        && next.connections[id].cursor == s.connections[id].cursor && next.connections[id].open == s.connections[id].open
        && match s.connections[id].channel[0]
           case ChunkEvent(chunk) =>
             if s.client.settled || chunk.ordinal <= s.client.lastOrdinal then next.client == s.client
             else next.client == s.client.(lastOrdinal := chunk.ordinal, text := s.client.text + chunk.fragment)
           case RetryEvent(after) => next.client == s.client.(scheduled := s.client.scheduled + [after])
           case DoneEvent => next.client == s.client.(settled := true)
  {
  }

  /** A lost connection is tried again from the last chunk seen, or given up, unless the reply is over. */
  lemma DisconnectStep(s: Pipeline, giveUp: bool)
    ensures var next := Step(s, Disconnected(giveUp));
      && next == s.(client := next.client)
      && next.client == if s.client.settled then s.client
                        else if giveUp then s.client.(settled := true)
                        else s.client.(scheduled := s.client.scheduled + [0])
  {
  }
}
