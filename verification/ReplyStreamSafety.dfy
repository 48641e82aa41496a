/** Every stored fragment reaches the reader's text once, in order, over any number of connections. */
module ReplyStreamSafety {
  import opened Common
  import opened Text
  import opened ReplyStream

  // ---- Ranges of rows ------------------------------------------------------------------------

  lemma {:induction false} InsertedLast(rows: seq<ReplyChunk>, c: ReplyChunk)
    requires Indexed(rows) && MaxOrdinal(rows) < c.ordinal
    ensures Inserted(rows, c) == rows + [c]
  {
    if rows != [] {
      assert rows[0].ordinal <= MaxOrdinal(rows);
      if |rows| > 1 {
        assert MaxOrdinal(rows[1..]) == MaxOrdinal(rows);
      }
      InsertedLast(rows[1..], c);
      assert rows == [rows[0]] + rows[1..];
    }
  }

  /** A row beyond a range does not change it. */
  lemma {:induction false} BetweenLater(rows: seq<ReplyChunk>, c: ReplyChunk, after: nat, upTo: nat)
    requires upTo < c.ordinal
    ensures Between(rows + [c], after, upTo) == Between(rows, after, upTo)
  {
    if rows == [] {
      assert rows + [c] == [c];
    } else {
      BetweenLater(rows[1..], c, after, upTo);
      assert (rows + [c])[1..] == rows[1..] + [c];
    }
  }

  lemma {:induction false} BetweenNone(rows: seq<ReplyChunk>, after: nat, upTo: nat)
    requires forall i :: 0 <= i < |rows| ==> !(after < rows[i].ordinal <= upTo)
    ensures Between(rows, after, upTo) == []
  {
    if rows != [] {
      assert forall i :: 0 <= i < |rows[1..]| ==> rows[1..][i] == rows[i + 1];
      BetweenNone(rows[1..], after, upTo);
    }
  }

  lemma EmptyRange(rows: seq<ReplyChunk>, at: nat)
    ensures Between(rows, at, at) == []
  {
    BetweenNone(rows, at, at);
  }

  /** A range splits at any point inside it. */
  lemma {:induction false} BetweenSplit(rows: seq<ReplyChunk>, a: nat, b: nat, c: nat)
    requires Indexed(rows) && a <= b <= c
    ensures Between(rows, a, c) == Between(rows, a, b) + Between(rows, b, c)
  {
    if rows != [] {
      var rest := rows[1..];
      assert Indexed(rest);
      BetweenSplit(rest, a, b, c);
      if b < rows[0].ordinal {
        forall i | 0 <= i < |rest| ensures !(a < rest[i].ordinal <= b) {
          assert rest[i] == rows[i + 1];
        }
        BetweenNone(rest, a, b);
      }
    }
  }

  lemma {:induction false} BetweenMembers(rows: seq<ReplyChunk>, a: nat, c: nat)
    requires Indexed(rows)
    ensures forall i :: 0 <= i < |Between(rows, a, c)| ==> Between(rows, a, c)[i] in rows && a < Between(rows, a, c)[i].ordinal <= c
    ensures Indexed(Between(rows, a, c))
  {
    if rows != [] {
      var rest := rows[1..];
      assert Indexed(rest);
      BetweenMembers(rest, a, c);
      forall i | 0 <= i < |Between(rest, a, c)| ensures rows[0].ordinal < Between(rest, a, c)[i].ordinal {
        var r := Between(rest, a, c)[i];
        assert r in rest;
        var j :| 0 <= j < |rest| && rest[j] == r;
        assert rest[j] == rows[j + 1];
      }
    }
  }

  lemma {:induction false} BetweenAll(rows: seq<ReplyChunk>)
    requires Indexed(rows) && (forall i :: 0 <= i < |rows| ==> 0 < rows[i].ordinal)
    ensures Between(rows, 0, MaxOrdinal(rows)) == rows
  {
    if rows != [] {
      BetweenWhole(rows, 0, MaxOrdinal(rows));
    }
  }

  lemma {:induction false} BetweenWhole(rows: seq<ReplyChunk>, a: nat, c: nat)
    requires forall i :: 0 <= i < |rows| ==> a < rows[i].ordinal <= c
    ensures Between(rows, a, c) == rows
  {
    if rows != [] {
      assert forall i :: 0 <= i < |rows[1..]| ==> rows[1..][i] == rows[i + 1];
      BetweenWhole(rows[1..], a, c);
      assert rows == [rows[0]] + rows[1..];
    }
  }

  /** The first rows of a range are the range up to the last of them. */
  lemma BetweenPrefix(rows: seq<ReplyChunk>, a: nat, c: nat, k: nat)
    requires Indexed(rows) && a <= c && k <= |Between(rows, a, c)|
    ensures var b := if k == 0 then a else Between(rows, a, c)[k - 1].ordinal;
      a <= b <= c && Between(rows, a, b) == Between(rows, a, c)[..k] && Between(rows, b, c) == Between(rows, a, c)[k..]
  {
    var all := Between(rows, a, c);
    var b := if k == 0 then a else all[k - 1].ordinal;
    BetweenMembers(rows, a, c);
    BetweenSplit(rows, a, b, c);
    BetweenMembers(rows, a, b);
    BetweenMembers(rows, b, c);
    EmptyRange(rows, a);
    SplitPoint(all, Between(rows, a, b), Between(rows, b, c), b, k);
  }

  lemma SplitPoint(all: seq<ReplyChunk>, left: seq<ReplyChunk>, right: seq<ReplyChunk>, b: nat, k: nat)
    requires Indexed(all) && all == left + right && k <= |all| && (k > 0 ==> all[k - 1].ordinal == b)
    requires forall i :: 0 <= i < |left| ==> left[i].ordinal <= b
    requires forall i :: 0 <= i < |right| ==> b < right[i].ordinal
    requires k == 0 ==> left == []
    ensures left == all[..k] && right == all[k..]
  {
    assert forall i :: 0 <= i < |left| ==> all[i] == left[i];
    assert forall i :: |left| <= i < |all| ==> all[i] == right[i - |left|];
    assert k > 0 ==> k - 1 < |left|;
    assert k > 0 && k < |all| ==> b < all[k].ordinal;
    assert forall i :: 0 <= i < |left| ==> all[i].ordinal <= b;
    assert |left| == k;
  }

  lemma ConsTail<T>(x: T, rest: seq<T>, tail: seq<T>)
    ensures ([x] + rest + tail)[0] == x && ([x] + rest + tail)[1..] == rest + tail
  {
  }

  lemma RestOfConcat<T>(a: seq<T>, b: seq<T>)
    requires a != []
    ensures (a + b)[0] == a[0] && (a + b)[1..] == a[1..] + b
  {
  }

  lemma {:induction false} FragmentsConcat(a: seq<ReplyChunk>, b: seq<ReplyChunk>)
    ensures Fragments(a + b) == Fragments(a) + Fragments(b)
    decreases |a|
  {
    if a == [] {
      assert a + b == b;
    } else {
      FragmentsConcat(a[1..], b);
      RestOfConcat(a, b);
      Assoc(a[0].fragment, Fragments(a[1..]), Fragments(b));
    }
  }

  lemma FragmentsSnoc(a: seq<ReplyChunk>, c: ReplyChunk)
    ensures Fragments(a + [c]) == Fragments(a) + c.fragment
  {
    FragmentsConcat(a, [c]);
    assert Fragments([c]) == c.fragment + "";
  }

  // ---- Channels ------------------------------------------------------------------------------

  lemma {:induction false} EventsLength(chunks: seq<ReplyChunk>)
    ensures |Events(chunks)| == |chunks|
    ensures forall i :: 0 <= i < |chunks| ==> Events(chunks)[i] == ChunkEvent(chunks[i])
  {
    if chunks != [] {
      EventsLength(chunks[1..]);
    }
  }

  lemma {:induction false} EventsConcat(a: seq<ReplyChunk>, b: seq<ReplyChunk>)
    ensures Events(a + b) == Events(a) + Events(b)
    decreases |a|
  {
    if a == [] {
      assert a + b == b;
    } else {
      EventsConcat(a[1..], b);
      RestOfConcat(a, b);
      Assoc([ChunkEvent(a[0])], Events(a[1..]), Events(b));
    }
  }

  function LastOf(from: nat, chunks: seq<ReplyChunk>): nat {
    if chunks == [] then from else chunks[|chunks| - 1].ordinal
  }

  lemma {:induction false} ReachedByEvents(from: nat, chunks: seq<ReplyChunk>, tail: seq<Message>)
    requires |tail| <= 1 && (tail != [] ==> !tail[0].ChunkEvent?)
    ensures ReachedBy(from, Events(chunks) + tail) == LastOf(from, chunks)
    decreases |chunks|
  {
    if chunks == [] {
      assert Events(chunks) + tail == tail;
      if tail != [] {
        assert tail[1..] == [];
      }
    } else {
      ReachedByEvents(chunks[0].ordinal, chunks[1..], tail);
      ConsTail(ChunkEvent(chunks[0]), Events(chunks[1..]), tail);
    }
  }

  // ---- The invariant -------------------------------------------------------------------------

  /** Writes are numbered consecutively and land in order, so a row is always the newest. */
  predicate WriterInv(s: Pipeline) {
    var w := s.writer;
    && Indexed(s.rows)
    && (forall i :: 0 <= i < |s.rows| ==> 0 < s.rows[i].ordinal)
    && MaxOrdinal(s.rows) + |w.queue| <= w.ordinal
    && (forall i :: 0 <= i < |w.queue| ==> w.queue[i].ordinal == w.ordinal - |w.queue| + 1 + i && w.queue[i].fragment != "")
    && |w.buffer| < FLUSH_BYTES
  }

  predicate Ending(tail: seq<Message>, c: Connection) {
    tail == [] || (!c.open && (tail == [RetryEvent(c.cursor)] || tail == [DoneEvent]))
  }

  /** A response still carries exactly the rows between what was received and its cursor, then
      perhaps its last message; `last` is the newest ordinal the client has seen. */
  predicate ConnectionInv(rows: seq<ReplyChunk>, last: nat, c: Connection) {
    var pending := Between(rows, c.from, c.cursor);
    && c.from <= last
    && c.from <= c.cursor <= MaxOrdinal(rows)
    && c.cursor == LastOf(c.from, pending)
    && |pending| <= |c.channel|
    && c.channel[..|pending|] == Events(pending)
    && Ending(c.channel[|pending|..], c)
  }

  predicate TextInv(s: Pipeline) {
    && s.client.lastOrdinal <= MaxOrdinal(s.rows)
    && s.client.text == Fragments(Between(s.rows, 0, s.client.lastOrdinal))
  }

  predicate Inv(s: Pipeline) {
    && WriterInv(s)
    && TextInv(s)
    && (!s.client.settled ==>
          && (forall i :: 0 <= i < |s.client.scheduled| ==> s.client.scheduled[i] <= s.client.lastOrdinal)
          && (forall id :: id in s.connections ==> ConnectionInv(s.rows, s.client.lastOrdinal, s.connections[id])))
  }

  lemma StartInv()
    ensures Inv(Start)
  {
  }

  // ---- Writer steps --------------------------------------------------------------------------

  lemma QueueSnoc(w: Writer, c: ReplyChunk, rows: seq<ReplyChunk>)
    requires MaxOrdinal(rows) + |w.queue| <= w.ordinal && c.ordinal == w.ordinal + 1 && c.fragment != ""
    requires forall i :: 0 <= i < |w.queue| ==> w.queue[i].ordinal == w.ordinal - |w.queue| + 1 + i && w.queue[i].fragment != ""
    ensures var q := w.queue + [c];
      MaxOrdinal(rows) + |q| <= w.ordinal + 1 &&
      forall i :: 0 <= i < |q| ==> q[i].ordinal == w.ordinal + 1 - |q| + 1 + i && q[i].fragment != ""
  {
  }

  /** Steps of the writer alone leave rows, connections and client as they are. */
  lemma WriterStepInv(s: Pipeline, a: Action)
    requires Inv(s) && (a.Push? || a.TimerDrain? || a.Flush?)
    ensures Inv(Step(s, a))
  {
    var t := Step(s, a);
    if a.Push? && a.fragment != "" {
      QueueSnoc(s.writer, ReplyChunk(s.writer.ordinal + 1, s.writer.buffer + a.fragment), s.rows);
    } else if s.writer.buffer != "" {
      QueueSnoc(s.writer, ReplyChunk(s.writer.ordinal + 1, s.writer.buffer), s.rows);
    }
    assert WriterInv(t);
    forall id | id in t.connections && !t.client.settled ensures ConnectionInv(t.rows, t.client.lastOrdinal, t.connections[id]) {
      assert ConnectionInv(s.rows, s.client.lastOrdinal, s.connections[id]);
    }
  }

  lemma RowAdded(s: Pipeline, t: Pipeline, c: ReplyChunk)
    requires Inv(s) && t.rows == s.rows + [c] && MaxOrdinal(s.rows) < c.ordinal
    requires t.connections == s.connections && t.client == s.client
    requires WriterInv(t)
    ensures Inv(t)
  {
    BetweenLater(s.rows, c, 0, s.client.lastOrdinal);
    forall id | id in t.connections && !t.client.settled ensures ConnectionInv(t.rows, t.client.lastOrdinal, t.connections[id]) {
      assert ConnectionInv(s.rows, s.client.lastOrdinal, s.connections[id]);
      BetweenLater(s.rows, c, s.connections[id].from, s.connections[id].cursor);
    }
  }

  /** The writer once its oldest write has settled, with or without its row. */
  lemma SettledWriter(s: Pipeline, t: Pipeline, c: ReplyChunk)
    requires WriterInv(s) && s.writer.queue != [] && c.ordinal == s.writer.queue[0].ordinal
    requires t.writer.queue == s.writer.queue[1..] && t.writer.ordinal == s.writer.ordinal && t.writer.buffer == s.writer.buffer
    requires t.rows == s.rows || t.rows == s.rows + [c]
    ensures WriterInv(t) && MaxOrdinal(s.rows) < c.ordinal
  {
    IndexedSnoc(s.rows, c);
    forall i | 0 <= i < |t.writer.queue|
      ensures t.writer.queue[i].ordinal == t.writer.ordinal - |t.writer.queue| + 1 + i && t.writer.queue[i].fragment != ""
    {
      assert t.writer.queue[i] == s.writer.queue[i + 1];
    }
  }

  lemma HeadAppended(s: Pipeline, c: ReplyChunk)
    requires WriterInv(s) && s.writer.queue != []
    requires c == s.writer.queue[0].(fragment := Truncate(s.writer.queue[0].fragment, FRAGMENT_LIMIT))
    ensures Appended(s.rows, s.writer.queue[0]) == s.rows + [c]
  {
    InsertedLast(s.rows, c);
  }

  lemma StoreStepInv(s: Pipeline, a: Action)
    requires Inv(s) && (a.WriteLands? || a.WriteFails?)
    ensures Inv(Step(s, a))
    ensures s.writer.queue != [] && (a.WriteLands? || a.stored) ==>
      Step(s, a).rows == s.rows + [s.writer.queue[0].(fragment := Truncate(s.writer.queue[0].fragment, FRAGMENT_LIMIT))]
  {
    var t := Step(s, a);
    if s.writer.queue != [] {
      var c := s.writer.queue[0].(fragment := Truncate(s.writer.queue[0].fragment, FRAGMENT_LIMIT));
      HeadAppended(s, c);
      SettledWriter(s, t, c);
      if a.WriteLands? || a.stored {
        RowAdded(s, t, c);
      }
    }
  }

  lemma IndexedSnoc(rows: seq<ReplyChunk>, c: ReplyChunk)
    requires Indexed(rows) && MaxOrdinal(rows) < c.ordinal
    ensures Indexed(rows + [c]) && MaxOrdinal(rows + [c]) == c.ordinal
  {
    if rows != [] {
      assert forall i :: 0 <= i < |rows| ==> rows[i].ordinal <= MaxOrdinal(rows);
    }
  }

  // ---- Connection steps ----------------------------------------------------------------------

  /** What `chunks` and `tail` on the channel mean for the invariant. */
  lemma Carries(rows: seq<ReplyChunk>, last: nat, c: Connection, chunks: seq<ReplyChunk>, tail: seq<Message>)
    requires c.channel == Events(chunks) + tail && chunks == Between(rows, c.from, c.cursor)
    requires c.from <= last && c.from <= c.cursor <= MaxOrdinal(rows) && c.cursor == LastOf(c.from, chunks)
    requires Ending(tail, c)
    ensures ConnectionInv(rows, last, c)
  {
    EventsLength(chunks);
    assert c.channel[..|chunks|] == Events(chunks);
    assert c.channel[|chunks|..] == tail;
  }

  lemma {:induction false} Carried(rows: seq<ReplyChunk>, last: nat, c: Connection) returns (chunks: seq<ReplyChunk>, tail: seq<Message>)
    requires ConnectionInv(rows, last, c)
    ensures chunks == Between(rows, c.from, c.cursor) && c.channel == Events(chunks) + tail && Ending(tail, c)
    ensures |Events(chunks)| == |chunks| && c.cursor == LastOf(c.from, chunks)
  {
    chunks := Between(rows, c.from, c.cursor);
    tail := c.channel[|chunks|..];
    EventsLength(chunks);
  }

  lemma PollConnection(rows: seq<ReplyChunk>, last: nat, c: Connection)
    requires Indexed(rows) && ConnectionInv(rows, last, c) && c.open
    ensures var chunks := Since(rows, c.cursor);
      ConnectionInv(rows, last, c.(channel := c.channel + Events(chunks), cursor := LastOf(c.cursor, chunks)))
  {
    var pending, tail := Carried(rows, last, c);
    var chunks := Since(rows, c.cursor);
    var next := c.(channel := c.channel + Events(chunks), cursor := LastOf(c.cursor, chunks));
    var top := MaxOrdinal(rows);
    BetweenPrefix(rows, c.cursor, top, |chunks|);
    assert chunks[..|chunks|] == chunks;
    BetweenSplit(rows, c.from, c.cursor, next.cursor);
    EventsConcat(pending, chunks);
    assert Between(rows, c.cursor, next.cursor) == chunks;
    assert next.channel == Events(pending + chunks) + [];
    Carries(rows, last, next, pending + chunks, []);
  }

  lemma EventsPrefix(chunks: seq<ReplyChunk>, k: nat)
    requires k <= |chunks|
    ensures |Events(chunks)| == |chunks| && Events(chunks)[..k] == Events(chunks[..k])
  {
    EventsLength(chunks);
    EventsLength(chunks[..k]);
  }

  lemma BetweenTake(rows: seq<ReplyChunk>, a: nat, c: nat, k: nat)
    requires Indexed(rows) && a <= c && k <= |Between(rows, a, c)|
    ensures var first := Between(rows, a, c)[..k];
      a <= LastOf(a, first) <= c && Between(rows, a, LastOf(a, first)) == first
  {
    BetweenPrefix(rows, a, c, k);
  }

  lemma CutConnection(rows: seq<ReplyChunk>, last: nat, c: Connection, keep: nat)
    requires Indexed(rows) && ConnectionInv(rows, last, c) && keep <= |c.channel|
    ensures ConnectionInv(rows, last, c.(channel := c.channel[..keep], open := false, cursor := ReachedBy(c.from, c.channel[..keep])))
  {
    var pending, tail := Carried(rows, last, c);
    var next := c.(channel := c.channel[..keep], open := false, cursor := ReachedBy(c.from, c.channel[..keep]));
    if keep <= |pending| {
      EventsPrefix(pending, keep);
      assert next.channel == Events(pending[..keep]) + [];
      ReachedByEvents(c.from, pending[..keep], []);
      BetweenTake(rows, c.from, c.cursor, keep);
      Carries(rows, last, next, pending[..keep], []);
    } else {
      assert next.channel == c.channel;
      ReachedByEvents(c.from, pending, tail);
      Carries(rows, last, next, pending, tail);
    }
  }

  lemma EndConnection(rows: seq<ReplyChunk>, last: nat, c: Connection, end: Message)
    requires Indexed(rows) && ConnectionInv(rows, last, c) && c.open && (end == RetryEvent(c.cursor) || end == DoneEvent)
    ensures ConnectionInv(rows, last, c.(channel := c.channel + [end], open := false))
  {
    var pending, tail := Carried(rows, last, c);
    Carries(rows, last, c.(channel := c.channel + [end], open := false), pending, [end]);
  }

  lemma OneConnection(s: Pipeline, t: Pipeline, id: nat, c: Connection)
    requires Inv(s) && t == s.(connections := s.connections[id := c])
    requires !s.client.settled ==> ConnectionInv(s.rows, s.client.lastOrdinal, c)
    ensures Inv(t)
  {
    forall j | j in t.connections && !t.client.settled ensures ConnectionInv(t.rows, t.client.lastOrdinal, t.connections[j]) {
      assert j != id ==> ConnectionInv(s.rows, s.client.lastOrdinal, s.connections[j]);
    }
  }

  lemma ResponseStepInv(s: Pipeline, a: Action)
    requires Inv(s) && (a.Poll? || a.Retry? || a.Finish? || a.Cut?)
    ensures Inv(Step(s, a))
  {
    if Step(s, a) != s {
      var c := s.connections[a.id];
      var next := Step(s, a).connections[a.id];
      if !s.client.settled {
        assert ConnectionInv(s.rows, s.client.lastOrdinal, c);
        match a
        case Poll(_) => PollConnection(s.rows, s.client.lastOrdinal, c);
        case Retry(_) => EndConnection(s.rows, s.client.lastOrdinal, c, RetryEvent(c.cursor));
        case Finish(_) => EndConnection(s.rows, s.client.lastOrdinal, c, DoneEvent);
        case Cut(_, keep) => CutConnection(s.rows, s.client.lastOrdinal, c, keep);
      }
      OneConnection(s, Step(s, a), a.id, next);
    }
  }

  lemma NewConnection(rows: seq<ReplyChunk>, last: nat)
    requires last <= MaxOrdinal(rows)
    ensures ConnectionInv(rows, last, Connection(last, last, [], true))
  {
    EmptyRange(rows, last);
    Carries(rows, last, Connection(last, last, [], true), [], []);
  }

  lemma TimersAfter(timers: seq<nat>, timer: nat, last: nat)
    requires timer < |timers| && (forall i :: 0 <= i < |timers| ==> timers[i] <= last)
    ensures Max(last, timers[timer]) == last
    ensures var left := timers[..timer] + timers[timer + 1..]; forall i :: 0 <= i < |left| ==> left[i] <= last
  {
  }

  /** Between two states with the same rows and newest ordinal, one connection may be added or moved. */
  lemma ConnectionsKept(s: Pipeline, t: Pipeline, id: nat)
    requires Inv(s) && t.rows == s.rows && t.client.lastOrdinal == s.client.lastOrdinal && t.client.settled == s.client.settled
    requires id in t.connections && t.connections.Keys == s.connections.Keys + {id}
    requires forall j :: j in s.connections && j != id ==> t.connections[j] == s.connections[j]
    requires !t.client.settled ==> ConnectionInv(t.rows, t.client.lastOrdinal, t.connections[id])
    ensures !t.client.settled ==> forall j :: j in t.connections ==> ConnectionInv(t.rows, t.client.lastOrdinal, t.connections[j])
  {
    forall j | j in t.connections && !t.client.settled ensures ConnectionInv(t.rows, t.client.lastOrdinal, t.connections[j]) {
      assert j != id ==> ConnectionInv(s.rows, s.client.lastOrdinal, s.connections[j]);
    }
  }

  lemma ConnectInv(s: Pipeline, id: nat, timer: nat)
    requires Inv(s) && id !in s.connections && timer < |s.client.scheduled|
    ensures Inv(Step(s, Connect(id, timer)))
  {
    if !s.client.settled {
      TimersAfter(s.client.scheduled, timer, s.client.lastOrdinal);
      NewConnection(s.rows, s.client.lastOrdinal);
    }
    ConnectionsKept(s, Step(s, Connect(id, timer)), id);
  }

  /** Receiving a row: either it was seen before, or it is the very next stored one. */
  lemma NextRow(rows: seq<ReplyChunk>, from: nat, cursor: nat, last: nat)
    requires Indexed(rows) && from <= last && from <= cursor && Between(rows, from, cursor) != []
    ensures var row := Between(rows, from, cursor)[0];
      && from < row.ordinal <= cursor && row.ordinal <= MaxOrdinal(rows)
      && Between(rows, row.ordinal, cursor) == Between(rows, from, cursor)[1..]
      && (last < row.ordinal ==> Between(rows, 0, row.ordinal) == Between(rows, 0, last) + [row])
  {
    var row := Between(rows, from, cursor)[0];
    BetweenMembers(rows, from, cursor);
    BetweenPrefix(rows, from, cursor, 1);
    MaxIsLargest(rows, row);
    assert Between(rows, from, row.ordinal) == [row];
    if last < row.ordinal {
      BetweenSplit(rows, 0, last, row.ordinal);
      AloneInRange(rows, from, last, row);
    }
  }

  /** A range holding one row is still that row from any later point before it. */
  lemma AloneInRange(rows: seq<ReplyChunk>, from: nat, last: nat, row: ReplyChunk)
    requires Indexed(rows) && from <= last < row.ordinal && Between(rows, from, row.ordinal) == [row]
    ensures Between(rows, last, row.ordinal) == [row]
  {
    var early := Between(rows, from, last);
    BetweenSplit(rows, from, last, row.ordinal);
    BetweenMembers(rows, from, last);
    assert row !in early;
    SingleSplit(early, Between(rows, last, row.ordinal), row);
  }

  lemma SingleSplit(a: seq<ReplyChunk>, b: seq<ReplyChunk>, x: ReplyChunk)
    requires a + b == [x] && x !in a
    ensures a == [] && b == [x]
  {
    var first := (a + b)[0];
    assert a != [] ==> first in a;
  }

  lemma MaxIsLargest(rows: seq<ReplyChunk>, r: ReplyChunk)
    requires Indexed(rows) && r in rows
    ensures r.ordinal <= MaxOrdinal(rows)
  {
    var i :| 0 <= i < |rows| && rows[i] == r;
  }

  lemma ReachedByOne(from: nat, m: Message)
    ensures ReachedBy(from, [m]) == if m.ChunkEvent? then m.chunk.ordinal else from
  {
    assert [m][1..] == [];
  }

  /** The response after a row was received: the row was the first one pending. */
  lemma ReceiveRow(rows: seq<ReplyChunk>, last: nat, c: Connection, pending: seq<ReplyChunk>, tail: seq<Message>)
    requires Indexed(rows) && c.from <= last && c.from <= c.cursor <= MaxOrdinal(rows)
    requires pending == Between(rows, c.from, c.cursor) && pending != []
    requires c.channel == Events(pending) + tail && Ending(tail, c) && c.cursor == LastOf(c.from, pending)
    ensures var row := pending[0];
      c.channel[0] == ChunkEvent(row) && ConnectionInv(rows, Max(last, row.ordinal), c.(channel := c.channel[1..], from := row.ordinal))
  {
    var row := pending[0];
    NextRow(rows, c.from, c.cursor, c.from);
    EventsHead(pending, tail);
    LastOfTail(c.from, pending);
    Carries(rows, Max(last, row.ordinal), c.(channel := c.channel[1..], from := row.ordinal), pending[1..], tail);
  }

  lemma EventsHead(chunks: seq<ReplyChunk>, tail: seq<Message>)
    requires chunks != []
    ensures (Events(chunks) + tail)[0] == ChunkEvent(chunks[0])
    ensures (Events(chunks) + tail)[1..] == Events(chunks[1..]) + tail
  {
    ConsTail(ChunkEvent(chunks[0]), Events(chunks[1..]), tail);
  }

  lemma LastOfTail(from: nat, chunks: seq<ReplyChunk>)
    requires chunks != []
    ensures LastOf(chunks[0].ordinal, chunks[1..]) == LastOf(from, chunks)
  {
  }

  /** The response after its last message was received: no row was pending. */
  lemma ReceiveEnd(rows: seq<ReplyChunk>, last: nat, c: Connection)
    requires c.from <= last && c.from == c.cursor <= MaxOrdinal(rows) && |c.channel| == 1
    ensures ConnectionInv(rows, last, c.(channel := c.channel[1..]))
  {
    EmptyRange(rows, c.from);
    Carries(rows, last, c.(channel := c.channel[1..]), [], []);
  }

  /** The response after its first message, a row or its last one, was received. */
  lemma ReceiveConnection(rows: seq<ReplyChunk>, last: nat, c: Connection)
    requires Indexed(rows) && ConnectionInv(rows, last, c) && c.channel != []
    ensures var head := c.channel[0];
      var next := c.(channel := c.channel[1..], from := ReachedBy(c.from, [head]));
      && (head.ChunkEvent? ==>
            && Between(rows, c.from, c.cursor) != [] && head.chunk == Between(rows, c.from, c.cursor)[0]
            && ConnectionInv(rows, Max(last, head.chunk.ordinal), next))
      && (!head.ChunkEvent? ==> ConnectionInv(rows, last, next))
      && (head.RetryEvent? ==> head.after <= last)
  {
    var pending, tail := Carried(rows, last, c);
    ReachedByOne(c.from, c.channel[0]);
    if pending == [] {
      assert c.channel == tail;
      ReceiveEnd(rows, last, c);
    } else {
      ReceiveRow(rows, last, c, pending, tail);
    }
  }

  lemma LaterClient(rows: seq<ReplyChunk>, last: nat, later: nat, c: Connection)
    requires ConnectionInv(rows, last, c) && last <= later
    ensures ConnectionInv(rows, later, c)
  {
  }

  lemma ReceiveInv(s: Pipeline, id: nat)
    requires Inv(s) && !s.client.settled && id in s.connections && s.connections[id].channel != []
    ensures Inv(Step(s, Receive(id)))
  {
    var c := s.connections[id];
    var head := c.channel[0];
    var t := Step(s, Receive(id));
    var last := s.client.lastOrdinal;
    assert ConnectionInv(s.rows, last, c);
    ReceiveConnection(s.rows, last, c);
    assert c.channel[..1] == [head];
    if head.ChunkEvent? {
      NextRow(s.rows, c.from, c.cursor, last);
      FragmentsSnoc(Between(s.rows, 0, last), head.chunk);
    }
    forall j | j in t.connections && !t.client.settled ensures ConnectionInv(t.rows, t.client.lastOrdinal, t.connections[j]) {
      if j != id {
        LaterClient(s.rows, last, t.client.lastOrdinal, s.connections[j]);
      }
    }
  }

  lemma StepInv(s: Pipeline, a: Action)
    requires Inv(s)
    ensures Inv(Step(s, a))
  {
    match a
    case Push(_) => WriterStepInv(s, a);
    case TimerDrain => WriterStepInv(s, a);
    case Flush(_) => WriterStepInv(s, a);
    case WriteLands => StoreStepInv(s, a);
    case WriteFails(_) => StoreStepInv(s, a);
    case Connect(id, timer) => if id !in s.connections && timer < |s.client.scheduled| { ConnectInv(s, id, timer); }
    case Poll(_) => ResponseStepInv(s, a);
    case Retry(_) => ResponseStepInv(s, a);
    case Finish(_) => ResponseStepInv(s, a);
    case Cut(_, _) => ResponseStepInv(s, a);
    case Receive(id) => if id in s.connections && s.connections[id].channel != [] && !s.client.settled { ReceiveInv(s, id); }
    case Disconnected(giveUp) => DisconnectInv(s, giveUp);
  }

  lemma DisconnectInv(s: Pipeline, giveUp: bool)
    requires Inv(s)
    ensures Inv(Step(s, Disconnected(giveUp)))
  {
    var t := Step(s, Disconnected(giveUp));
    forall j | j in t.connections && !t.client.settled ensures ConnectionInv(t.rows, t.client.lastOrdinal, t.connections[j]) {
      assert ConnectionInv(s.rows, s.client.lastOrdinal, s.connections[j]);
    }
  }

  lemma {:induction false} PlayInv(actions: seq<Action>)
    ensures Inv(Play(Start, actions))
  {
    if actions == [] {
      StartInv();
    } else {
      PlayInv(actions[..|actions| - 1]);
      StepInv(Play(Start, actions[..|actions| - 1]), actions[|actions| - 1]);
    }
  }

  /** Exactly once, in order: whatever writes fail, polls, disconnects and reconnects happen, the text
      shown is the concatenation of the stored fragments up to the last ordinal received. */
  lemma {:induction false} TextIsStoredFragments(actions: seq<Action>)
    ensures var s := Play(Start, actions);
      s.client.text == Fragments(Between(s.rows, 0, s.client.lastOrdinal))
  {
    PlayInv(actions);
  }

  // ---- Against what the provider emitted ------------------------------------------------------

  /** No pushed fragment is large enough to be truncated, whatever is already buffered. */
  predicate SmallPushes(actions: seq<Action>) {
    forall i :: 0 <= i < |actions| && actions[i].Push? ==> |actions[i].fragment| + FLUSH_BYTES <= FRAGMENT_LIMIT + 1
  }

  /** Stored, queued and buffered text is together what was emitted. */
  predicate Whole(s: Pipeline) {
    && Fragments(s.rows) + Fragments(s.writer.queue) + s.writer.buffer == s.emitted
    && (forall i :: 0 <= i < |s.writer.queue| ==> |s.writer.queue[i].fragment| <= FRAGMENT_LIMIT)
  }

  lemma {:induction false} WholeStep(s: Pipeline, a: Action)
    requires Inv(s) && (s.writer.failures == 0 ==> Whole(s))
    requires a.Push? ==> |a.fragment| + FLUSH_BYTES <= FRAGMENT_LIMIT + 1
    ensures Step(s, a).writer.failures == 0 ==> Whole(Step(s, a))
  {
    var t := Step(s, a);
    if t.writer.failures == 0 {
      match a
      case Push(fragment) => WholePush(s, fragment);
      case TimerDrain => WholeDrain(s);
      case Flush(_) => WholeDrain(s);
      case WriteLands => WholeLands(s);
      case WriteFails(_) =>
      case _ =>
    }
  }

  lemma WholeDrain(s: Pipeline)
    requires Whole(s) && |s.writer.buffer| <= FRAGMENT_LIMIT
    ensures Whole(s.(writer := Drained(s.writer)))
  {
    var w := s.writer;
    if w.buffer != "" {
      FragmentsSnoc(w.queue, ReplyChunk(w.ordinal + 1, w.buffer));
      assert Fragments(s.rows) + (Fragments(w.queue) + w.buffer) + "" == s.emitted;
    }
  }

  lemma WholePush(s: Pipeline, fragment: string)
    requires Whole(s) && |s.writer.buffer| + |fragment| <= FRAGMENT_LIMIT
    ensures Whole(s.(emitted := s.emitted + fragment, writer := Pushed(s.writer, fragment)))
  {
    if fragment == "" {
      assert s.emitted + fragment == s.emitted;
    } else {
      var grown := s.(emitted := s.emitted + fragment, writer := s.writer.(buffer := s.writer.buffer + fragment));
      assert Fragments(s.rows) + Fragments(s.writer.queue) + (s.writer.buffer + fragment)
          == (Fragments(s.rows) + Fragments(s.writer.queue) + s.writer.buffer) + fragment;
      assert Whole(grown);
      WholeDrain(grown);
    }
  }

  lemma WholeLands(s: Pipeline)
    requires Inv(s) && Whole(s)
    ensures Whole(Step(s, WriteLands))
  {
    if s.writer.queue != [] {
      var head := s.writer.queue[0];
      StoreStepInv(s, WriteLands);
      assert head.(fragment := Truncate(head.fragment, FRAGMENT_LIMIT)) == head;
      FragmentsSnoc(s.rows, head);
      assert Fragments(s.writer.queue) == head.fragment + Fragments(s.writer.queue[1..]);
      Assoc(Fragments(s.rows), head.fragment, Fragments(s.writer.queue[1..]));
    }
  }

  lemma {:induction false} PlayWhole(actions: seq<Action>)
    requires SmallPushes(actions)
    ensures Play(Start, actions).writer.failures == 0 ==> Whole(Play(Start, actions))
  {
    if actions != [] {
      var before := actions[..|actions| - 1];
      assert forall i :: 0 <= i < |before| ==> before[i] == actions[i];
      PlayWhole(before);
      PlayInv(before);
      WholeStep(Play(Start, before), actions[|actions| - 1]);
    }
  }

  lemma PrefixOfWhole(shown: string, unseen: string, queued: string, buffered: string, emitted: string)
    requires shown + unseen + queued + buffered == emitted
    ensures shown <= emitted
  {
    assert emitted == shown + (unseen + queued + buffered);
  }

  /** With no failed write the text shown is a prefix of what the provider emitted, and all of it once
      the writer has nothing left and the client has the newest row. */
  lemma TextIsPrefixOfEmitted(actions: seq<Action>)
    requires SmallPushes(actions) && Play(Start, actions).writer.failures == 0
    ensures var s := Play(Start, actions);
      && s.client.text <= s.emitted
      && (s.writer.queue == [] && s.writer.buffer == "" && s.client.lastOrdinal == MaxOrdinal(s.rows) ==>
            s.client.text == s.emitted)
  {
    var s := Play(Start, actions);
    PlayInv(actions);
    PlayWhole(actions);
    BetweenAll(s.rows);
    BetweenSplit(s.rows, 0, s.client.lastOrdinal, MaxOrdinal(s.rows));
    FragmentsConcat(Between(s.rows, 0, s.client.lastOrdinal), Between(s.rows, s.client.lastOrdinal, MaxOrdinal(s.rows)));
    var unseen := Fragments(Between(s.rows, s.client.lastOrdinal, MaxOrdinal(s.rows)));
    PrefixOfWhole(s.client.text, unseen, Fragments(s.writer.queue), s.writer.buffer, s.emitted);
    if s.client.lastOrdinal == MaxOrdinal(s.rows) {
      EmptyRange(s.rows, s.client.lastOrdinal);
    }
  }

  /** A retry never moves the client past a row it has not received: until it settles, every
      reconnect resumes exactly after the last ordinal seen. */
  lemma ReconnectResumes(actions: seq<Action>, timer: nat)
    requires var c := Play(Start, actions).client; !c.settled && timer < |c.scheduled|
    ensures var c := Play(Start, actions).client; Max(c.lastOrdinal, c.scheduled[timer]) == c.lastOrdinal
  {
    PlayInv(actions);
  }
}
