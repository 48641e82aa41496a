/** The provider's event stream, read piece by piece. */
module EventStream {
  import opened Common
  import opened Text

  /** How long a blank-line separator `\r?\n\r?\n` at the start of `s` is; 0 when there is none. */
  function SeparatorLength(s: string): (n: nat)
    ensures n <= |s|
  {
    var i := if s != "" && s[0] == '\r' then 1 else 0;
    if |s| < i + 2 || s[i] != '\n' then 0
    else if s[i + 1] == '\n' then i + 2
    else if |s| < i + 3 || s[i + 1] != '\r' || s[i + 2] != '\n' then 0
    else i + 3
  }

  /** `s.split(/\r?\n\r?\n/)`: the stream's events, the last one possibly unfinished. */
  function Events(s: string): (events: seq<string>)
    ensures events != []
    decreases |s|
  {
    if s == "" then [""]
    else if SeparatorLength(s) > 0 then [""] + Events(s[SeparatorLength(s)..])
    else
      var rest := Events(s[1..]);
      [[s[0]] + rest[0]] + rest[1..]
  }

  /** The payload of one line: what follows `data:`, unless it is blank. */
  function LineData(line: string): seq<string> {
    if StartsWith(line, "data:") && Trim(line[5..]) != "" then [Trim(line[5..])] else []
  }

  function Data(lines: seq<string>): seq<string> {
    FlatMap(LineData, lines)
  }

  function EventData(event: string): seq<string> {
    Data(Split(event, '\n'))
  }

  function AllData(events: seq<string>): seq<string> {
    FlatMap(EventData, events)
  }

  // ---- What a separator, an event and a payload are --------------------------------------------

  /** Two line feeds with an optional carriage return before each. */
  predicate IsSeparator(s: string) {
    s == "\n\n" || s == "\r\n\n" || s == "\n\r\n" || s == "\r\n\r\n"
  }

  lemma SeparatorIff(s: string)
    ensures SeparatorLength(s) > 0 <==> exists n :: 0 <= n <= |s| && IsSeparator(s[..n])
    ensures SeparatorLength(s) > 0 ==> IsSeparator(s[..SeparatorLength(s)])
  {
    var k := SeparatorLength(s);
    if k > 0 {
      SeparatorText(s);
    }
    if n :| 0 <= n <= |s| && IsSeparator(s[..n]) {
      assert forall i :: 0 <= i < n ==> s[..n][i] == s[i];
    }
  }

  lemma SeparatorText(s: string)
    requires SeparatorLength(s) > 0
    ensures IsSeparator(s[..SeparatorLength(s)])
  {
    var t := s[..SeparatorLength(s)];
    if s[0] == '\r' {
      if s[2] == '\n' {
        assert t == "\r\n\n";
      } else {
        assert t == "\r\n\r\n";
      }
    } else if s[1] == '\n' {
      assert t == "\n\n";
    } else {
      assert t == "\n\r\n";
    }
  }

  predicate Unseparated(s: string) {
    forall i :: 0 <= i <= |s| ==> SeparatorLength(s[i..]) == 0
  }

  /** What is kept back holds no separator: every event that a separator ends has been handed on. */
  lemma {:induction false} UnfinishedIsUnseparated(s: string)
    ensures Unseparated(Events(s)[|Events(s)| - 1])
    decreases |s|
  {
    if s == "" {
    } else if SeparatorLength(s) > 0 {
      UnfinishedIsUnseparated(s[SeparatorLength(s)..]);
    } else {
      var rest := Events(s[1..]);
      UnfinishedIsUnseparated(s[1..]);
      if |rest| == 1 {
        SingleEvent(s[1..]);
        assert Events(s)[0] == s;
        forall i | 0 <= i <= |s| ensures SeparatorLength(s[i..]) == 0 {
          if i == 0 {
            assert s[0..] == s;
          } else {
            assert s[i..] == s[1..][i - 1..];
          }
        }
      } else {
        assert Events(s)[|Events(s)| - 1] == rest[|rest| - 1];
      }
    }
  }

  /** The payload of a line: one exactly for a line that begins with `data:` and says something after it, and
      then that text without the white space around it. */
  lemma LineDataIs(line: string)
    ensures LineData(line) != [] <==>
      |line| >= 5 && line[..5] == "data:" && exists i :: 5 <= i < |line| && !Space(line[i])
    ensures LineData(line) != [] ==> |LineData(line)| == 1 && Trimmed(line[5..], LineData(line)[0])
  {
    if StartsWith(line, "data:") {
      var rest := line[5..];
      TrimIs(rest);
      TrimmedBlank(rest, Trim(rest));
      assert forall i :: 5 <= i < |line| ==> line[i] == rest[i - 5];
      assert forall i :: 0 <= i < |rest| ==> rest[i] == line[i + 5];
    }
  }

  lemma TrimmedBlank(s: string, t: string)
    requires Trimmed(s, t)
    ensures t == "" <==> Blank(s)
  {
    var i, j :| 0 <= i <= j <= |s| && s[i..j] == t && Blank(s[..i]) && Blank(s[j..]);
    if t == "" {
      forall k | 0 <= k < |s| ensures Space(s[k]) {
        if k < i {
          assert s[..i][k] == s[k];
        } else {
          assert s[j..][k - j] == s[k];
        }
      }
    } else {
      assert s[i] == t[0];
    }
  }

  // ---- Cutting never changes a separator -----------------------------------------------------

  lemma {:induction false} WithoutSeparator(s: string)
    requires forall i :: 0 <= i <= |s| ==> SeparatorLength(s[i..]) == 0
    ensures Events(s) == [s]
    decreases |s|
  {
    if s != "" {
      assert s[0..] == s;
      forall i | 0 <= i <= |s[1..]| ensures SeparatorLength(s[1..][i..]) == 0 {
        assert s[1..][i..] == s[i + 1..];
      }
      WithoutSeparator(s[1..]);
      assert [s[0]] + s[1..] == s;
    }
  }

  /** A string that a longer input completes to a separator contains none itself. */
  lemma UnfinishedSeparator(s: string, more: string)
    requires SeparatorLength(s) == 0 && SeparatorLength(s + more) > 0
    ensures Events(s) == [s]
  {
    assert |s| <= 3;
    forall i | 0 <= i <= |s| ensures SeparatorLength(s[i..]) == 0 {
      assert s[0..] == s;
      assert forall j :: 0 <= j < |s| ==> s[j] == (s + more)[j];
    }
    WithoutSeparator(s);
  }

  lemma {:induction false} SingleEvent(s: string)
    requires |Events(s)| == 1
    ensures Events(s) == [s]
    decreases |s|
  {
    if s != "" {
      assert SeparatorLength(s) == 0;
      SingleEvent(s[1..]);
      assert [s[0]] + s[1..] == s;
    }
  }

  function Finished(events: seq<string>): seq<string>
    requires events != []
  {
    events[..|events| - 1]
  }

  function Unfinished(events: seq<string>): string
    requires events != []
  {
    events[|events| - 1]
  }

  function ConsFirst(c: char, events: seq<string>): seq<string>
    requires events != []
  {
    [[c] + events[0]] + events[1..]
  }

  lemma EventsStep(c: char, s: string, cs: string)
    requires cs == [c] + s && SeparatorLength(cs) == 0
    ensures Events(cs) == ConsFirst(c, Events(s))
  {
    assert cs[1..] == s;
  }

  predicate Appends(s: string, more: string) {
    Events(s + more) == Finished(Events(s)) + Events(Unfinished(Events(s)) + more)
  }

  lemma FinishedCons(x: string, events: seq<string>)
    requires events != []
    ensures Finished([x] + events) == [x] + Finished(events)
    ensures Unfinished([x] + events) == Unfinished(events)
  {
  }

  lemma SeparatorStep(s: string)
    requires SeparatorLength(s) > 0
    ensures Events(s) == [""] + Events(s[SeparatorLength(s)..])
  {
  }

  lemma SeparatorStays(s: string, more: string)
    requires SeparatorLength(s) > 0
    ensures SeparatorLength(s + more) == SeparatorLength(s)
    ensures (s + more)[SeparatorLength(s)..] == s[SeparatorLength(s)..] + more
  {
    assert forall j :: 0 <= j < |s| ==> s[j] == (s + more)[j];
  }

  lemma AppendsAfterSeparator(s: string, more: string)
    requires SeparatorLength(s) > 0 && Appends(s[SeparatorLength(s)..], more)
    ensures Appends(s, more)
  {
    var tail := Events(s[SeparatorLength(s)..]);
    var last := Events(Unfinished(tail) + more);
    SeparatorStep(s);
    SeparatorStays(s, more);
    SeparatorStep(s + more);
    FinishedCons("", tail);
    assert [""] + (Finished(tail) + last) == ([""] + Finished(tail)) + last;
  }

  lemma AppendsAfterChar(c: char, s: string, cs: string, more: string)
    requires cs == [c] + s && SeparatorLength(cs) == 0 && SeparatorLength(cs + more) == 0
    requires |Events(cs)| > 1 && Appends(s, more)
    ensures Appends(cs, more)
  {
    EventsStep(c, s, cs);
    EventsStep(c, s + more, cs + more);
    ConsFirstKeepsTail(c, Events(s), Events(s + more), Events(Unfinished(Events(s)) + more));
  }

  lemma ConsFirstKeepsTail(c: char, events: seq<string>, longer: seq<string>, last: seq<string>)
    requires |events| > 1 && longer == Finished(events) + last
    ensures longer != [] && ConsFirst(c, longer) == Finished(ConsFirst(c, events)) + last
    ensures Unfinished(ConsFirst(c, events)) == Unfinished(events)
  {
  }

  lemma FirstAndRest(s: string)
    requires s != ""
    ensures s == [s[0]] + s[1..]
  {
  }

  /** Reading more input re-splits only the last, unfinished event. */
  lemma {:induction false} EventsAppend(s: string, more: string)
    ensures Appends(s, more)
    decreases |s|
  {
    if |Events(s)| == 1 {
      SingleEvent(s);
    } else if SeparatorLength(s) > 0 {
      EventsAppend(s[SeparatorLength(s)..], more);
      AppendsAfterSeparator(s, more);
    } else if SeparatorLength(s + more) > 0 {
      UnfinishedSeparator(s, more);
    } else {
      EventsAppend(s[1..], more);
      FirstAndRest(s);
      AppendsAfterChar(s[0], s[1..], s, more);
    }
  }

  // ---- Events carry exactly the data lines of the text ----------------------------------------

  /** Equal lines, or lines that differ by a trailing carriage return. */
  predicate Near(line: string, inEvent: string) {
    line == inEvent || line == inEvent + "\r"
  }

  lemma {:induction false} TrimStartReturn(s: string)
    ensures TrimStart(s + "\r") == if Blank(s) then "" else TrimStart(s) + "\r"
  {
    if s == "" {
      assert s + "\r" == "\r" && TrimStart("\r"[1..]) == "";
    } else if Space(s[0]) {
      TrimStartReturn(s[1..]);
      assert (s + "\r")[1..] == s[1..] + "\r";
      assert Blank(s) <==> Blank(s[1..]) by {
        assert forall i :: 0 <= i < |s| - 1 ==> s[1..][i] == s[i + 1];
      }
    }
  }

  lemma {:induction false} TrimStartOfBlank(s: string)
    ensures Blank(s) <==> TrimStart(s) == ""
  {
    if s != "" && Space(s[0]) {
      TrimStartOfBlank(s[1..]);
      assert forall i :: 0 <= i < |s| - 1 ==> s[1..][i] == s[i + 1];
    }
  }

  lemma TrimReturn(s: string)
    ensures Trim(s + "\r") == Trim(s)
  {
    TrimStartReturn(s);
    TrimStartOfBlank(s);
    if !Blank(s) {
      var t := TrimStart(s) + "\r";
      assert t[..|t| - 1] == TrimStart(s);
    }
  }

  lemma NearLinesAgree(line: string, inEvent: string)
    requires Near(line, inEvent)
    ensures LineData(line) == LineData(inEvent)
  {
    if line == inEvent + "\r" {
      if |inEvent| >= 5 {
        assert line[..5] == inEvent[..5];
        assert line[5..] == inEvent[5..] + "\r";
        TrimReturn(inEvent[5..]);
      } else {
        if |inEvent| == 4 {
          assert line[4] == '\r' && "data:"[4] == ':';
        }
      }
    }
  }

  /** The data of all lines after the first. */
  function Later(lines: seq<string>): seq<string>
    requires lines != []
  {
    Data(lines[1..])
  }

  function LaterInEvents(events: seq<string>): seq<string>
    requires events != []
  {
    Later(Split(events[0], '\n')) + AllData(events[1..])
  }

  lemma AllDataFirst(events: seq<string>)
    requires events != []
    ensures AllData(events) == LineData(Split(events[0], '\n')[0]) + LaterInEvents(events)
  {
  }

  lemma SplitChar(c: char, s: string)
    ensures c == '\n' ==> Split([c] + s, '\n') == [""] + Split(s, '\n')
    ensures c != '\n' ==> Split([c] + s, '\n') == [[c] + Split(s, '\n')[0]] + Split(s, '\n')[1..]
  {
    assert ([c] + s)[1..] == s;
  }

  lemma SeparatorLines(s: string)
    requires SeparatorLength(s) > 0
    ensures var lines := Split(s, '\n');
      && Near(lines[0], "") && Later(lines) == Data(Split(s[SeparatorLength(s)..], '\n'))
  {
    var k := SeparatorLength(s);
    var tail := s[k..];
    var i := if s[0] == '\r' then 1 else 0;
    // The line between the two line feeds is empty or a carriage return.
    var second := s[i + 1..];
    assert s[i..] == ['\n'] + second;
    SplitChar('\n', second);
    if s[i + 1] == '\n' {
      assert second == ['\n'] + tail;
      SplitChar('\n', tail);
      BlankLine("", Split(tail, '\n'));
    } else {
      assert second == ['\r'] + (['\n'] + tail);
      SplitChar('\n', tail);
      SplitChar('\r', ['\n'] + tail);
      BlankLine("\r", Split(tail, '\n'));
    }
    if i == 1 {
      assert s == ['\r'] + s[1..];
      SplitChar('\r', s[1..]);
      assert ['\r'] + "" == "\r" && "" + "\r" == "\r";
    } else {
      assert s == s[0..];
    }
  }

  lemma BlankLine(line: string, rest: seq<string>)
    requires line == "" || line == "\r"
    ensures Data([line] + rest) == Data(rest)
  {
    assert ([line] + rest)[1..] == rest;
    assert LineData(line) == [];
  }

  /** Splitting into events first, then into lines, loses no data line and adds none. */
  lemma {:induction false} EventsKeepLines(s: string)
    ensures Near(Split(s, '\n')[0], Split(Events(s)[0], '\n')[0])
    ensures Later(Split(s, '\n')) == LaterInEvents(Events(s))
    ensures AllData(Events(s)) == Data(Split(s, '\n'))
    decreases |s|
  {
    var events := Events(s);
    var lines := Split(s, '\n');
    if s == "" {
    } else if SeparatorLength(s) > 0 {
      var tail := s[SeparatorLength(s)..];
      EventsKeepLines(tail);
      SeparatorLines(s);
      assert events[1..] == Events(tail);
      assert Split("", '\n') == [""];
    } else {
      var rest := Events(s[1..]);
      EventsKeepLines(s[1..]);
      assert s == [s[0]] + s[1..];
      SplitChar(s[0], s[1..]);
      SplitChar(s[0], rest[0]);
      assert events[0] == [s[0]] + rest[0] && events[1..] == rest[1..];
      if s[0] == '\n' {
        AllDataFirst(rest);
        assert Later(Split(events[0], '\n')) == Data(Split(rest[0], '\n'));
        assert Later(lines) == Data(Split(s[1..], '\n'));
      } else {
        assert Later(Split(events[0], '\n')) == Later(Split(rest[0], '\n'));
        assert Later(lines) == Later(Split(s[1..], '\n'));
        if Split(s[1..], '\n')[0] == Split(rest[0], '\n')[0] + "\r" {
          assert [s[0]] + (Split(rest[0], '\n')[0] + "\r") == ([s[0]] + Split(rest[0], '\n')[0]) + "\r";
        }
      }
    }
    NearLinesAgree(lines[0], Split(events[0], '\n')[0]);
    AllDataFirst(events);
  }

  // ---- The reader ----------------------------------------------------------------------------

  datatype Chunk = Chunk(id: Option<string>, model: Option<string>, usage: Option<string>,
                         reasoning: Option<string>, fragment: Option<string>)

  /** What the reader has made of the stream so far; `deltas` are its calls of onDelta. */
  datatype Progress = Progress(
    id: Option<string>,
    model: Option<string>,
    usage: Option<string>,
    content: string,
    reasoningChars: nat,
    doneSeen: bool,
    deltas: seq<string>,
    broken: bool)

  const NothingRead := Progress(None, None, None, "", 0, false, [], false)

  function Newer<T>(value: Option<T>, prior: Option<T>): Option<T> {
    if value.Some? then value else prior
  }

  /** One payload. `parse` is JSON.parse; an unparsable payload aborts the stream for good. */
  function Apply(p: Progress, parse: string -> Option<Chunk>, data: string): Progress {
    if p.broken then p
    else if data == "[DONE]" then p.(doneSeen := true)
    else
      match parse(data)
      case None => p.(broken := true)
      case Some(chunk) =>
        var named := p.(id := Newer(chunk.id, p.id), model := Newer(chunk.model, p.model), usage := Newer(chunk.usage, p.usage),
                        reasoningChars := p.reasoningChars + if chunk.reasoning.Some? then |chunk.reasoning.value| else 0);
        if chunk.fragment.Some? && chunk.fragment.value != "" then
          named.(content := p.content + chunk.fragment.value, deltas := p.deltas + [chunk.fragment.value])
        else named
  }

  function ApplyAll(p: Progress, parse: string -> Option<Chunk>, data: seq<string>): Progress
    decreases |data|
  {
    if data == [] then p else ApplyAll(Apply(p, parse, data[0]), parse, data[1..])
  }

  lemma {:induction false} ApplyAllConcat(p: Progress, parse: string -> Option<Chunk>, a: seq<string>, b: seq<string>)
    ensures ApplyAll(p, parse, a + b) == ApplyAll(ApplyAll(p, parse, a), parse, b)
    decreases |a|
  {
    if a != [] {
      ApplyAllConcat(Apply(p, parse, a[0]), parse, a[1..], b);
      assert (a + b)[1..] == a[1..] + b;
    } else {
      assert a + b == b;
    }
  }

  lemma {:induction false} BrokenStays(p: Progress, parse: string -> Option<Chunk>, data: seq<string>)
    requires p.broken
    ensures ApplyAll(p, parse, data) == p
  {
    if data != [] {
      BrokenStays(p, parse, data[1..]);
    }
  }

  /** One payload, on any progress: nothing once broken; the end mark is noted; what does not parse breaks the
      reader; a chunk renews what it names, counts its reasoning, and its nonempty fragment is passed on. */
  lemma ApplyIs(p: Progress, parse: string -> Option<Chunk>, payload: string)
    ensures var q := Apply(p, parse, payload);
      if p.broken then q == p
      else if payload == "[DONE]" then q.doneSeen && q == p.(doneSeen := q.doneSeen)
      else if parse(payload).None? then q.broken && q == p.(broken := q.broken)
      else
        var c := parse(payload).value;
        && !q.broken && q.doneSeen == p.doneSeen
        && q.id == (if c.id.Some? then c.id else p.id)
        && q.model == (if c.model.Some? then c.model else p.model)
        && q.usage == (if c.usage.Some? then c.usage else p.usage)
        && q.reasoningChars == p.reasoningChars + (if c.reasoning.Some? then |c.reasoning.value| else 0)
        && if c.fragment.None? || c.fragment.value == "" then q.content == p.content && q.deltas == p.deltas
           else q.content == p.content + c.fragment.value && q.deltas == p.deltas + [c.fragment.value]
  {
  }

  // ---- What the reader makes of the payloads, said of the payloads ------------------------------

  /** The first `k` payloads are readable, and payload `k`, if there is one, is neither the end mark nor
      something that parses. */
  predicate ReadableUpTo(parse: string -> Option<Chunk>, data: seq<string>, k: nat) {
    && k <= |data|
    && (forall i :: 0 <= i < k ==> data[i] == "[DONE]" || parse(data[i]).Some?)
    && (k < |data| ==> data[k] != "[DONE]" && parse(data[k]).None?)
  }

  predicate IsChunk(parse: string -> Option<Chunk>, payload: string) {
    payload != "[DONE]" && parse(payload).Some?
  }

  /** The nonempty pieces of answer text, in order. */
  function Fragments(parse: string -> Option<Chunk>, data: seq<string>): seq<string> {
    if data == [] then []
    else
      var before, last := Fragments(parse, data[..|data| - 1]), data[|data| - 1];
      if IsChunk(parse, last) && parse(last).value.fragment.Some? && |parse(last).value.fragment.value| > 0
      then before + [parse(last).value.fragment.value]
      else before
  }

  function ReasoningTotal(parse: string -> Option<Chunk>, data: seq<string>): nat {
    if data == [] then 0
    else
      var before, last := ReasoningTotal(parse, data[..|data| - 1]), data[|data| - 1];
      if IsChunk(parse, last) && parse(last).value.reasoning.Some? then before + |parse(last).value.reasoning.value| else before
  }

  /** `value` is what the last chunk that has one says, None if none has. */
  ghost predicate LastSaid(value: Option<string>, parse: string -> Option<Chunk>, data: seq<string>, field: Chunk -> Option<string>) {
    match value
    case None => forall i :: 0 <= i < |data| && IsChunk(parse, data[i]) ==> field(parse(data[i]).value).None?
    case Some(_) => exists i :: LastSaidAt(value, parse, data, field, i)
  }

  predicate LastSaidAt(value: Option<string>, parse: string -> Option<Chunk>, data: seq<string>, field: Chunk -> Option<string>, i: int) {
    && 0 <= i < |data| && IsChunk(parse, data[i]) && field(parse(data[i]).value) == value
    && forall j :: i < j < |data| && IsChunk(parse, data[j]) ==> field(parse(data[j]).value).None?
  }

  /** Everything the reader reports of readable payloads. */
  ghost predicate Reports(p: Progress, parse: string -> Option<Chunk>, data: seq<string>) {
    && p.deltas == Fragments(parse, data) && p.content == Concat(p.deltas)
    && p.reasoningChars == ReasoningTotal(parse, data)
    && (p.doneSeen <==> exists i :: 0 <= i < |data| && data[i] == "[DONE]")
    && LastSaid(p.id, parse, data, (c: Chunk) => c.id)
    && LastSaid(p.model, parse, data, (c: Chunk) => c.model)
    && LastSaid(p.usage, parse, data, (c: Chunk) => c.usage)
  }

  lemma LastSaidStep(value: Option<string>, parse: string -> Option<Chunk>, data: seq<string>, field: Chunk -> Option<string>,
                     payload: string, next: Option<string>)
    requires LastSaid(value, parse, data, field)
    requires next == if IsChunk(parse, payload) && field(parse(payload).value).Some? then field(parse(payload).value) else value
    ensures LastSaid(next, parse, data + [payload], field)
  {
    var all := data + [payload];
    assert forall i :: 0 <= i < |data| ==> all[i] == data[i];
    if next.Some? {
      if IsChunk(parse, payload) && field(parse(payload).value).Some? {
        assert LastSaidAt(next, parse, all, field, |data|);
      } else {
        var i :| LastSaidAt(value, parse, data, field, i);
        assert LastSaidAt(next, parse, all, field, i);
      }
    }
  }

  lemma DoneStep(data: seq<string>, payload: string)
    ensures (exists i :: 0 <= i < |data + [payload]| && (data + [payload])[i] == "[DONE]") <==>
      (exists i :: 0 <= i < |data| && data[i] == "[DONE]") || payload == "[DONE]"
  {
    var all := data + [payload];
    assert all[|data|] == payload;
    assert forall i :: 0 <= i < |data| ==> all[i] == data[i];
  }

  lemma FragmentsStep(parse: string -> Option<Chunk>, data: seq<string>, payload: string)
    ensures var fragment := if IsChunk(parse, payload) then parse(payload).value.fragment else None;
      Fragments(parse, data + [payload]) ==
        Fragments(parse, data) + if fragment.Some? && fragment.value != "" then [fragment.value] else []
    ensures var reasoning := if IsChunk(parse, payload) then parse(payload).value.reasoning else None;
      ReasoningTotal(parse, data + [payload]) ==
        ReasoningTotal(parse, data) + if reasoning.Some? then |reasoning.value| else 0
  {
    assert (data + [payload])[..|data|] == data;
  }

  lemma LastSaidSteps(p: Progress, q: Progress, parse: string -> Option<Chunk>, data: seq<string>, payload: string)
    requires LastSaid(p.id, parse, data, (c: Chunk) => c.id)
    requires LastSaid(p.model, parse, data, (c: Chunk) => c.model)
    requires LastSaid(p.usage, parse, data, (c: Chunk) => c.usage)
    requires q == Apply(p, parse, payload) && !p.broken && (payload == "[DONE]" || parse(payload).Some?)
    ensures LastSaid(q.id, parse, data + [payload], (c: Chunk) => c.id)
    ensures LastSaid(q.model, parse, data + [payload], (c: Chunk) => c.model)
    ensures LastSaid(q.usage, parse, data + [payload], (c: Chunk) => c.usage)
  {
    LastSaidStep(p.id, parse, data, (c: Chunk) => c.id, payload, q.id);
    LastSaidStep(p.model, parse, data, (c: Chunk) => c.model, payload, q.model);
    LastSaidStep(p.usage, parse, data, (c: Chunk) => c.usage, payload, q.usage);
  }

  lemma ReportsStep(p: Progress, parse: string -> Option<Chunk>, data: seq<string>, payload: string)
    requires Reports(p, parse, data) && !p.broken && (payload == "[DONE]" || parse(payload).Some?)
    ensures Reports(Apply(p, parse, payload), parse, data + [payload]) && !Apply(p, parse, payload).broken
  {
    var q := Apply(p, parse, payload);
    FragmentsStep(parse, data, payload);
    DoneStep(data, payload);
    LastSaidSteps(p, q, parse, data, payload);
    if q.deltas != p.deltas {
      ConcatSnoc(p.deltas, q.deltas[|q.deltas| - 1]);
    }
  }

  lemma {:induction false} ReadableReports(parse: string -> Option<Chunk>, data: seq<string>)
    requires forall i :: 0 <= i < |data| ==> data[i] == "[DONE]" || parse(data[i]).Some?
    ensures Reports(ApplyAll(NothingRead, parse, data), parse, data) && !ApplyAll(NothingRead, parse, data).broken
  {
    if data != [] {
      var before, last := data[..|data| - 1], data[|data| - 1];
      ReadableReports(parse, before);
      ApplyAllConcat(NothingRead, parse, before, [last]);
      assert before + [last] == data;
      ReportsStep(ApplyAll(NothingRead, parse, before), parse, before, last);
    }
  }

  /** What is reported is what the payloads up to the first unreadable one say, and whether there is one. */
  ghost predicate ReadsAs(p: Progress, parse: string -> Option<Chunk>, data: seq<string>) {
    exists k: nat :: ReadableUpTo(parse, data, k) && Reports(p, parse, data[..k]) && (p.broken <==> k < |data|)
  }

  lemma {:induction false} FirstUnreadable(parse: string -> Option<Chunk>, data: seq<string>) returns (k: nat)
    ensures ReadableUpTo(parse, data, k)
  {
    if data == [] || (data[0] != "[DONE]" && parse(data[0]).None?) {
      k := 0;
    } else {
      k := FirstUnreadable(parse, data[1..]);
      assert forall i :: 0 < i < |data| ==> data[i] == data[1..][i - 1];
      k := k + 1;
    }
  }

  lemma UnreadableChangesNothing(p: Progress, parse: string -> Option<Chunk>, data: seq<string>)
    requires data != [] && data[0] != "[DONE]" && parse(data[0]).None? && !p.broken
    ensures ApplyAll(p, parse, data) == p.(broken := true)
  {
    BrokenStays(Apply(p, parse, data[0]), parse, data[1..]);
  }

  lemma {:induction false} ApplyAllReads(parse: string -> Option<Chunk>, data: seq<string>)
    ensures ReadsAs(ApplyAll(NothingRead, parse, data), parse, data)
  {
    var k := FirstUnreadable(parse, data);
    var read := data[..k];
    ReadableReports(parse, read);
    ApplyAllConcat(NothingRead, parse, read, data[k..]);
    assert read + data[k..] == data;
    if k < |data| {
      UnreadableChangesNothing(ApplyAll(NothingRead, parse, read), parse, data[k..]);
    }
    assert Reports(ApplyAll(NothingRead, parse, data), parse, data[..k]);
  }

  class StreamReader {
    const parse: string -> Option<Chunk>
    var buffer: string
    var progress: Progress

    constructor (parse: string -> Option<Chunk>)
      ensures this.parse == parse && buffer == "" && progress == NothingRead
    {
      this.parse := parse;
      buffer := "";
      progress := NothingRead;
    }

    /** consume(): the data lines of one event, stopping where parsing throws. */
    method Consume(event: string)
      modifies this`progress
      ensures progress == ApplyAll(old(progress), parse, EventData(event))
    {
      var lines := Split(event, '\n');
      for i := 0 to |lines|
        invariant progress == ApplyAll(old(progress), parse, Data(lines[..i]))
      {
        assert lines[..i + 1] == lines[..i] + [lines[i]];
        FlatMapSnoc(LineData, lines[..i], lines[i]);
        ApplyAllConcat(old(progress), parse, Data(lines[..i]), LineData(lines[i]));
        if !StartsWith(lines[i], "data:") {
          continue;
        }
        var data := Trim(lines[i][5..]);
        if data == "" {
          continue;
        }
        progress := Apply(progress, parse, data);
        if progress.broken {
          BrokenAt(old(progress), parse, lines, i);
          return;
        }
      }
      assert lines[..|lines|] == lines;
    }

    /** One read(): append, split, consume the finished events, keep the unfinished one. */
    method Feed(piece: string)
      modifies this
      ensures buffer == Unfinished(Events(old(buffer) + piece))
      ensures progress == ApplyAll(old(progress), parse, AllData(Finished(Events(old(buffer) + piece))))
    {
      var events := Events(buffer + piece);
      buffer := events[|events| - 1];
      var finished := events[..|events| - 1];
      for i := 0 to |finished|
        invariant progress == ApplyAll(old(progress), parse, AllData(finished[..i]))
        invariant buffer == events[|events| - 1]
      {
        assert finished[..i + 1] == finished[..i] + [finished[i]];
        FlatMapSnoc(EventData, finished[..i], finished[i]);
        ApplyAllConcat(old(progress), parse, AllData(finished[..i]), EventData(finished[i]));
        Consume(finished[i]);
      }
      assert finished[..|finished|] == finished;
    }
  }

  lemma BrokenAt(p: Progress, parse: string -> Option<Chunk>, lines: seq<string>, i: nat)
    requires i < |lines|
    requires ApplyAll(p, parse, Data(lines[..i + 1])).broken
    ensures ApplyAll(p, parse, Data(lines)) == ApplyAll(p, parse, Data(lines[..i + 1]))
  {
    assert lines == lines[..i + 1] + lines[i + 1..];
    FlatMapConcat(LineData, lines[..i + 1], lines[i + 1..]);
    ApplyAllConcat(p, parse, Data(lines[..i + 1]), Data(lines[i + 1..]));
    BrokenStays(ApplyAll(p, parse, Data(lines[..i + 1])), parse, Data(lines[i + 1..]));
  }

  lemma {:induction false} BlankLines(s: string)
    requires Blank(s)
    ensures forall i :: 0 <= i < |Split(s, '\n')| ==> Blank(Split(s, '\n')[i])
  {
    if s != "" {
      assert forall i :: 0 <= i < |s| - 1 ==> s[1..][i] == s[i + 1];
      BlankLines(s[1..]);
    }
  }

  lemma {:induction false} NoDataInBlanks(lines: seq<string>)
    requires forall i :: 0 <= i < |lines| ==> Blank(lines[i])
    ensures Data(lines) == []
  {
    if lines != [] {
      assert LineData(lines[0]) == [] by {
        assert lines[0] != "" ==> Space(lines[0][0]) && "data:"[0] == 'd';
      }
      NoDataInBlanks(lines[1..]);
    }
  }

  lemma BlankCarriesNoData(s: string)
    requires Blank(s)
    ensures EventData(s) == []
  {
    BlankLines(s);
    NoDataInBlanks(Split(s, '\n'));
  }

  /** The reader's state after the text `read`: finished events applied, the last one pending. */
  ghost predicate CaughtUp(buffer: string, p: Progress, parse: string -> Option<Chunk>, read: string) {
    && buffer == Unfinished(Events(read))
    && p == ApplyAll(NothingRead, parse, AllData(Finished(Events(read))))
  }

  lemma {:induction false} FeedCatchesUp(parse: string -> Option<Chunk>, read: string, piece: string, buffer: string, p: Progress)
    requires CaughtUp(buffer, p, parse, read)
    ensures CaughtUp(Unfinished(Events(buffer + piece)),
                     ApplyAll(p, parse, AllData(Finished(Events(buffer + piece)))), parse, read + piece)
  {
    var before := Finished(Events(read));
    var more := Events(buffer + piece);
    EventsAppend(read, piece);
    assert Events(read + piece) == before + more;
    assert Finished(before + more) == before + Finished(more);
    FlatMapConcat(EventData, before, Finished(more));
    ApplyAllConcat(NothingRead, parse, AllData(before), AllData(Finished(more)));
  }

  lemma {:induction false} LastEventCompletes(parse: string -> Option<Chunk>, text: string, buffer: string, p: Progress)
    requires CaughtUp(buffer, p, parse, text)
    ensures ApplyAll(p, parse, EventData(buffer)) == ApplyAll(NothingRead, parse, Data(Split(text, '\n')))
    ensures Blank(buffer) ==> EventData(buffer) == []
  {
    var events := Events(text);
    assert events == Finished(events) + [buffer];
    FlatMapSnoc(EventData, Finished(events), buffer);
    ApplyAllConcat(NothingRead, parse, AllData(Finished(events)), EventData(buffer));
    EventsKeepLines(text);
    if Blank(buffer) {
      BlankCarriesNoData(buffer);
    }
  }

  /** The whole of invokeStreaming()'s read loop: what it makes of a stream is what one pass over the
      lines of the whole text makes of it, wherever the pieces were cut. */
  method ReadStream(parse: string -> Option<Chunk>, pieces: seq<string>) returns (p: Progress)
    ensures p == ApplyAll(NothingRead, parse, Data(Split(Concat(pieces), '\n')))
    ensures p.content == Concat(p.deltas)
    ensures ReadsAs(p, parse, Data(Split(Concat(pieces), '\n')))
  {
    var reader := new StreamReader(parse);
    for i := 0 to |pieces|
      invariant fresh(reader) && reader.parse == parse
      invariant CaughtUp(reader.buffer, reader.progress, parse, Concat(pieces[..i]))
    {
      assert pieces[..i + 1] == pieces[..i] + [pieces[i]];
      ConcatSnoc(pieces[..i], pieces[i]);
      FeedCatchesUp(parse, Concat(pieces[..i]), pieces[i], reader.buffer, reader.progress);
      reader.Feed(pieces[i]);
    }
    assert pieces[..|pieces|] == pieces;
    LastEventCompletes(parse, Concat(pieces), reader.buffer, reader.progress);
    if !Blank(reader.buffer) {
      reader.Consume(reader.buffer);
    }
    ApplyAllReads(parse, Data(Split(Concat(pieces), '\n')));
    p := reader.progress;
  }
}
