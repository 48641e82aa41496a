/** The newline-delimited output of a provider CLI, delivered line by line as it arrives. */
module LineStream {
  import opened Text

  /** A longer unfinished line is handed over as it is, so that memory stays bounded. */
  const MAX_STREAM_LINE: nat := 1_000_000

  function KeepNonBlank(line: string): seq<string> {
    if Blank(line) then [] else [line]
  }

  function NonBlank(lines: seq<string>): seq<string> {
    FlatMap(KeepNonBlank, lines)
  }

  function Init(lines: seq<string>): seq<string>
    requires lines != []
  {
    lines[..|lines| - 1]
  }

  function Last(lines: seq<string>): string
    requires lines != []
  {
    lines[|lines| - 1]
  }

  /** What one piece of output makes the splitter deliver, and what it leaves pending. */
  function OnPiece(pending: string, piece: string): (seq<string>, string) {
    var lines := Split(pending + piece, '\n');
    if MAX_STREAM_LINE < |Last(lines)| then (NonBlank(Init(lines)) + [Last(lines)], "")
    else (NonBlank(Init(lines)), Last(lines))
  }

  /** Everything delivered for the remaining pieces and the close of the stream. */
  function Delivered(pending: string, pieces: seq<string>): seq<string>
    decreases |pieces|
  {
    if pieces == [] then KeepNonBlank(pending)
    else
      var (now, next) := OnPiece(pending, pieces[0]);
      now + Delivered(next, pieces[1..])
  }

  class LineSplitter {
    var pending: string
    var delivered: seq<string>

    constructor ()
      ensures pending == "" && delivered == []
    {
      pending, delivered := "", [];
    }

    /** The "data" listener. */
    method OnData(piece: string)
      modifies this
      ensures delivered == old(delivered) + OnPiece(old(pending), piece).0
      ensures pending == OnPiece(old(pending), piece).1
    {
      pending := pending + piece;
      var lines := Split(pending, '\n');
      pending := lines[|lines| - 1];
      var finished := lines[..|lines| - 1];
      for i := 0 to |finished|
        invariant delivered == old(delivered) + NonBlank(finished[..i])
        invariant pending == Last(lines)
      {
        assert finished[..i + 1] == finished[..i] + [finished[i]];
        FlatMapSnoc(KeepNonBlank, finished[..i], finished[i]);
        if !Blank(finished[i]) {
          delivered := delivered + [finished[i]];
        }
      }
      assert finished[..|finished|] == finished;
      if MAX_STREAM_LINE < |pending| {
        delivered := delivered + [pending];
        pending := "";
      }
    }

    /** The "close" listener. */
    method Close()
      modifies this`delivered
      ensures delivered == old(delivered) + KeepNonBlank(pending)
    {
      if !Blank(pending) {
        delivered := delivered + [pending];
      }
    }
  }

  method Run(pieces: seq<string>) returns (delivered: seq<string>)
    ensures delivered == Delivered("", pieces)
  {
    var splitter := new LineSplitter();
    for i := 0 to |pieces|
      invariant fresh(splitter)
      invariant splitter.delivered + Delivered(splitter.pending, pieces[i..]) == Delivered("", pieces)
    {
      assert pieces[i..][1..] == pieces[i + 1..];
      splitter.OnData(pieces[i]);
    }
    splitter.Close();
    delivered := splitter.delivered;
  }

  // ---- Splitting and appending ---------------------------------------------------------------

  lemma {:induction false} SplitAppend(s: string, more: string)
    ensures Split(s + more, '\n') == Init(Split(s, '\n')) + Split(Last(Split(s, '\n')) + more, '\n')
  {
    if s == "" {
      assert s + more == more;
    } else {
      SplitAppend(s[1..], more);
      assert (s + more)[1..] == s[1..] + more && (s + more)[0] == s[0];
      SplitAppendStep(s[0], Split(s[1..], '\n'), Split(s[1..] + more, '\n'), more);
      if |Split(s[1..], '\n')| == 1 {
        OneLine(s[1..]);
        assert [s[0]] + s[1..] == s;
      }
    }
  }

  lemma SplitAppendStep(c: char, lines: seq<string>, longer: seq<string>, more: string)
    requires lines != [] && longer == Init(lines) + Split(Last(lines) + more, '\n')
    ensures c == '\n' ==> [""] + longer == Init([""] + lines) + Split(Last([""] + lines) + more, '\n')
    ensures |lines| > 1 ==>
      var withChar := [[c] + lines[0]] + lines[1..];
      [[c] + longer[0]] + longer[1..] == Init(withChar) + Split(Last(withChar) + more, '\n')
  {
    var last := Split(Last(lines) + more, '\n');
    if c == '\n' {
      assert Init([""] + lines) == [""] + Init(lines) && Last([""] + lines) == Last(lines);
      assert [""] + (Init(lines) + last) == ([""] + Init(lines)) + last;
    }
    if |lines| > 1 {
      var withChar := [[c] + lines[0]] + lines[1..];
      assert Last(withChar) == Last(lines);
      assert longer[0] == lines[0] && longer[1..] == Init(lines)[1..] + last;
      assert Init(withChar) == [[c] + lines[0]] + Init(lines)[1..];
    }
  }

  lemma {:induction false} OneLine(s: string)
    requires |Split(s, '\n')| == 1
    ensures Split(s, '\n') == [s]
  {
    if s != "" {
      OneLine(s[1..]);
      assert [s[0]] + s[1..] == s;
    }
  }

  lemma {:induction false} LinesHaveNoBreak(s: string)
    ensures forall i :: 0 <= i < |Split(s, '\n')| ==> '\n' !in Split(s, '\n')[i]
  {
    if s != "" {
      LinesHaveNoBreak(s[1..]);
    }
  }

  /** A line without breaks, followed by more: it begins the first line of the whole. */
  lemma {:induction false} SplitFirst(line: string, more: string)
    requires '\n' !in line
    ensures Split(line + more, '\n') == [line + Split(more, '\n')[0]] + Split(more, '\n')[1..]
  {
    if line == "" {
      assert line + more == more;
      assert "" + Split(more, '\n')[0] == Split(more, '\n')[0];
    } else {
      SplitFirst(line[1..], more);
      assert (line + more)[1..] == line[1..] + more;
      assert [line[0]] + (line[1..] + Split(more, '\n')[0]) == line + Split(more, '\n')[0];
    }
  }

  // ---- When the cap makes no difference ------------------------------------------------------

  /** A line the cap can never cut: short enough, or one longer, and then not blank. */
  predicate Fits(line: string) {
    |line| <= MAX_STREAM_LINE || (|line| == MAX_STREAM_LINE + 1 && !Blank(line))
  }

  predicate AllFit(lines: seq<string>) {
    forall i :: 0 <= i < |lines| ==> Fits(lines[i])
  }

  lemma NonBlankConcat(a: seq<string>, b: seq<string>)
    ensures NonBlank(a + b) == NonBlank(a) + NonBlank(b)
  {
    FlatMapConcat(KeepNonBlank, a, b);
  }

  lemma NonBlankFirst(line: string, rest: seq<string>)
    ensures NonBlank([line] + rest) == KeepNonBlank(line) + NonBlank(rest)
  {
    assert ([line] + rest)[1..] == rest;
  }

  /** The flush of an over-long pending line, when that line is complete. */
  lemma FlushedLine(last: string, more: string)
    requires '\n' !in last && MAX_STREAM_LINE < |last| && AllFit(Split(last + more, '\n'))
    ensures NonBlank(Split(last + more, '\n')) == [last] + NonBlank(Split(more, '\n'))
    ensures AllFit(Split(more, '\n'))
  {
    var lines := Split(more, '\n');
    SplitFirst(last, more);
    var whole := Split(last + more, '\n');
    assert Fits(whole[0]) && |whole[0]| == |last| + |lines[0]|;
    assert lines[0] == "" && whole[0] == last;
    assert lines == [""] + lines[1..];
    NonBlankFirst(last, lines[1..]);
    NonBlankFirst("", lines[1..]);
    forall i | 0 <= i < |lines| ensures Fits(lines[i]) {
      if i > 0 {
        assert lines[i] == whole[i];
      }
    }
  }

  lemma AllFitSuffix(a: seq<string>, b: seq<string>)
    requires AllFit(a + b)
    ensures AllFit(b)
  {
    forall i | 0 <= i < |b| ensures Fits(b[i]) {
      assert b[i] == (a + b)[|a| + i];
    }
  }

  lemma {:induction false} FittingLinesDelivered(pending: string, pieces: seq<string>)
    requires '\n' !in pending && |pending| <= MAX_STREAM_LINE
    requires AllFit(Split(pending + Concat(pieces), '\n'))
    ensures Delivered(pending, pieces) == NonBlank(Split(pending + Concat(pieces), '\n'))
    decreases |pieces|
  {
    if pieces == [] {
      assert pending + "" == pending;
      SplitFirst(pending, "");
      assert Split(pending, '\n') == [pending + ""] + [];
      NonBlankFirst(pending, []);
      assert Split(pending, '\n') == [pending] + [];
    } else {
      var s := pending + pieces[0];
      var more := Concat(pieces[1..]);
      var lines := Split(s, '\n');
      assert pending + Concat(pieces) == s + more;
      SplitAppend(s, more);
      LinesHaveNoBreak(s);
      NonBlankConcat(Init(lines), Split(Last(lines) + more, '\n'));
      AllFitSuffix(Init(lines), Split(Last(lines) + more, '\n'));
      if MAX_STREAM_LINE < |Last(lines)| {
        FlushedLine(Last(lines), more);
        assert "" + more == more;
        FittingLinesDelivered("", pieces[1..]);
      } else {
        FittingLinesDelivered(Last(lines), pieces[1..]);
      }
    }
  }

  // ---- When it does --------------------------------------------------------------------------

  function Join(lines: seq<string>): string {
    if lines == [] then "" else lines[0] + "\n" + Join(lines[1..])
  }

  lemma SplitLine(line: string, rest: string)
    requires '\n' !in line
    ensures Split(line + ("\n" + rest), '\n') == [line] + Split(rest, '\n')
  {
    SplitFirst(line, "\n" + rest);
    assert ("\n" + rest)[1..] == rest;
    assert line + "" == line;
  }

  lemma JoinFirst(lines: seq<string>, tail: string)
    requires lines != []
    ensures Join(lines) + tail == lines[0] + ("\n" + (Join(lines[1..]) + tail))
  {
  }

  lemma HeadBack(lines: seq<string>, rest: seq<string>)
    requires lines != []
    ensures [lines[0]] + (lines[1..] + rest) == lines + rest
  {
  }

  lemma {:induction false} SplitJoin(lines: seq<string>, tail: string)
    requires forall i :: 0 <= i < |lines| ==> '\n' !in lines[i]
    ensures Split(Join(lines) + tail, '\n') == lines + Split(tail, '\n')
  {
    if lines == [] {
      assert Join(lines) + tail == tail;
    } else {
      var rest := Join(lines[1..]) + tail;
      SplitJoin(lines[1..], tail);
      JoinFirst(lines, tail);
      SplitLine(lines[0], rest);
      HeadBack(lines, Split(tail, '\n'));
    }
  }

  /** Any text is its first lines, joined, and what follows them. */
  lemma {:induction false} TextAfter(text: string, k: nat) returns (tail: string)
    requires k < |Split(text, '\n')|
    ensures text == Join(Split(text, '\n')[..k]) + tail
    ensures Split(tail, '\n') == Split(text, '\n')[k..]
    decreases k
  {
    var lines := Split(text, '\n');
    if k == 0 {
      tail := text;
    } else {
      var rest := FirstBreak(text);
      tail := TextAfter(rest, k - 1);
      assert lines[..k] == [lines[0]] + Split(rest, '\n')[..k - 1];
      assert lines[..k][1..] == Split(rest, '\n')[..k - 1];
      assert text == lines[0] + "\n" + (Join(Split(rest, '\n')[..k - 1]) + tail);
      assert text == Join(lines[..k]) + tail;
    }
  }

  lemma {:induction false} FirstBreak(text: string) returns (rest: string)
    requires |Split(text, '\n')| > 1
    ensures text == Split(text, '\n')[0] + "\n" + rest
    ensures Split(text, '\n') == [Split(text, '\n')[0]] + Split(rest, '\n')
  {
    if text[0] == '\n' {
      rest := text[1..];
      assert text == "" + "\n" + rest;
    } else {
      rest := FirstBreak(text[1..]);
    }
  }

  lemma LinesBefore(text: string, k: nat)
    requires k < |Split(text, '\n')|
    ensures forall i :: 0 <= i < k ==> '\n' !in Split(text, '\n')[..k][i]
    ensures '\n' !in Split(text, '\n')[k]
  {
    LinesHaveNoBreak(text);
  }

  /** A cut just past the cap delivers the front of a misfit line as a line of its own. */
  lemma {:induction false} MisfitCut(text: string, k: nat) returns (pieces: seq<string>)
    requires k < |Split(text, '\n')| && !Fits(Split(text, '\n')[k])
    ensures Concat(pieces) == text
    ensures Delivered("", pieces) != NonBlank(Split(text, '\n'))
  {
    var lines := Split(text, '\n');
    var line := lines[k];
    var front := line[..MAX_STREAM_LINE + 1];
    var head := Join(lines[..k]);
    var tail := TextAfter(text, k);
    LinesBefore(text, k);
    FirstLineStarts(tail);
    var a := head + front;
    var b := tail[MAX_STREAM_LINE + 1..];
    assert tail[..MAX_STREAM_LINE + 1] == front;
    pieces := [a, b];
    assert Concat([b]) == b + Concat([]) == b;
    assert pieces[1..] == [b];
    assert Concat(pieces) == a + b;
    assert head + tail == head + (front + b) == a + b;
    // What the first piece delivers.
    SplitJoin(lines[..k], front);
    SplitFirst(front, "");
    assert front + "" == front && Split(front, '\n') == [front];
    assert "" + a == a;
    assert Split(a, '\n') == lines[..k] + [front];
    assert OnPiece("", a) == (NonBlank(lines[..k]) + [front], "");
    // What it should have begun with.
    assert lines == lines[..k] + ([line] + lines[k + 1..]);
    NonBlankConcat(lines[..k], [line] + lines[k + 1..]);
    NonBlankFirst(line, lines[k + 1..]);
    DeliveriesDiffer(NonBlank(lines[..k]), front, Delivered("", [b]), line, lines[k + 1..]);
  }

  lemma FirstLineStarts(tail: string)
    ensures |Split(tail, '\n')[0]| <= |tail|
    ensures tail[..|Split(tail, '\n')[0]|] == Split(tail, '\n')[0]
    decreases |tail|
  {
    if tail != "" && tail[0] != '\n' {
      FirstLineStarts(tail[1..]);
    }
  }

  lemma DeliveriesDiffer(before: seq<string>, front: string, more: seq<string>, line: string, after: seq<string>)
    requires !Fits(line) && front == line[..MAX_STREAM_LINE + 1]
    ensures before + [front] + more != before + (KeepNonBlank(line) + NonBlank(after))
  {
    var due := KeepNonBlank(line) + NonBlank(after);
    if |due| > 0 {
      assert due[0] != front by {
        if Blank(line) {
          OnlyNonBlank(after);
          assert due == NonBlank(after);
          assert Blank(front);
        } else {
          assert due[0] == line;
        }
      }
      assert (before + due)[|before|] == due[0];
    }
    assert (before + [front] + more)[|before|] == front;
  }

  lemma {:induction false} OnlyNonBlank(lines: seq<string>)
    ensures forall i :: 0 <= i < |NonBlank(lines)| ==> !Blank(NonBlank(lines)[i])
  {
    if lines != [] {
      OnlyNonBlank(lines[1..]);
      assert NonBlank(lines) == KeepNonBlank(lines[0]) + NonBlank(lines[1..]);
    }
  }

  /** The splitter delivers exactly the nonblank lines of the output, however it was cut, if and only
      if no line is longer than the cap, give or take the one character a nonblank line may exceed it. */
  lemma CutIndependentIff(text: string)
    ensures (forall pieces :: Concat(pieces) == text ==> Delivered("", pieces) == NonBlank(Split(text, '\n')))
      <==> AllFit(Split(text, '\n'))
  {
    if AllFit(Split(text, '\n')) {
      forall pieces | Concat(pieces) == text ensures Delivered("", pieces) == NonBlank(Split(text, '\n')) {
        assert "" + Concat(pieces) == text;
        FittingLinesDelivered("", pieces);
      }
    } else {
      var k :| 0 <= k < |Split(text, '\n')| && !Fits(Split(text, '\n')[k]);
      var pieces := MisfitCut(text, k);
    }
  }
}
