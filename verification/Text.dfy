/** The string operations of the source's language that the model needs. */
module Text {
  /** White space and line terminators, as String.prototype.trim() sees them. */
  predicate Space(c: char) {
    || '\t' <= c <= '\r' || c == ' ' || c == '\U{00A0}' || c == '\U{1680}'
    || '\U{2000}' <= c <= '\U{200A}' || c == '\U{2028}' || c == '\U{2029}' || c == '\U{202F}'
    || c == '\U{205F}' || c == '\U{3000}' || c == '\U{FEFF}'
  }

  predicate Blank(s: string) {
    forall i :: 0 <= i < |s| ==> Space(s[i])
  }

  function TrimStart(s: string): string {
    if s != "" && Space(s[0]) then TrimStart(s[1..]) else s
  }

  function TrimEnd(s: string): string {
    if s != "" && Space(s[|s| - 1]) then TrimEnd(s[..|s| - 1]) else s
  }

  function Trim(s: string): string {
    TrimEnd(TrimStart(s))
  }

  predicate StartsWith(s: string, prefix: string) {
    |prefix| <= |s| && s[..|prefix|] == prefix
  }

  /** `s.split(sep)` for a one-character separator: the pieces between its occurrences. */
  function Split(s: string, sep: char): (pieces: seq<string>)
    ensures pieces != []
  {
    if s == "" then [""]
    else
      var rest := Split(s[1..], sep);
      if s[0] == sep then [""] + rest else [[s[0]] + rest[0]] + rest[1..]
  }

  function Concat(pieces: seq<string>): string {
    if pieces == [] then "" else pieces[0] + Concat(pieces[1..])
  }

  lemma {:induction false} ConcatSnoc(pieces: seq<string>, piece: string)
    ensures Concat(pieces + [piece]) == Concat(pieces) + piece
  {
    if pieces == [] {
      assert pieces + [piece] == [piece];
    } else {
      ConcatSnoc(pieces[1..], piece);
      assert (pieces + [piece])[1..] == pieces[1..] + [piece];
    }
  }

  /** The results of `f` on each string, one after the other. */
  function FlatMap<T>(f: string -> seq<T>, xs: seq<string>): seq<T> {
    if xs == [] then [] else f(xs[0]) + FlatMap(f, xs[1..])
  }

  lemma {:induction false} FlatMapConcat<T>(f: string -> seq<T>, a: seq<string>, b: seq<string>)
    ensures FlatMap(f, a + b) == FlatMap(f, a) + FlatMap(f, b)
  {
    if a == [] {
      assert a + b == b;
    } else {
      FlatMapConcat(f, a[1..], b);
      assert (a + b)[1..] == a[1..] + b;
    }
  }

  lemma FlatMapSnoc<T>(f: string -> seq<T>, a: seq<string>, x: string)
    ensures FlatMap(f, a + [x]) == FlatMap(f, a) + f(x)
  {
    FlatMapConcat(f, a, [x]);
    assert FlatMap(f, [x]) == f(x) + FlatMap(f, []);
  }

  // ---- What trimming leaves ----------------------------------------------------------------------

  /** `t` is `s` between two stretches of white space, and neither begins nor ends with any. */
  ghost predicate Trimmed(s: string, t: string) {
    && (t == "" || (!Space(t[0]) && !Space(t[|t| - 1])))
    && exists i, j :: 0 <= i <= j <= |s| && s[i..j] == t && Blank(s[..i]) && Blank(s[j..])
  }

  lemma {:induction false} TrimStartIs(s: string)
    ensures |TrimStart(s)| <= |s| && s[|s| - |TrimStart(s)|..] == TrimStart(s) && Blank(s[..|s| - |TrimStart(s)|])
    ensures TrimStart(s) == "" || !Space(TrimStart(s)[0])
  {
    if s != "" && Space(s[0]) {
      var rest := s[1..];
      TrimStartIs(rest);
      var k := |rest| - |TrimStart(rest)|;
      assert s[..k + 1] == [s[0]] + rest[..k];
    }
  }

  lemma {:induction false} TrimEndIs(s: string)
    ensures |TrimEnd(s)| <= |s| && s[..|TrimEnd(s)|] == TrimEnd(s) && Blank(s[|TrimEnd(s)|..])
    ensures TrimEnd(s) == "" || !Space(TrimEnd(s)[|TrimEnd(s)| - 1])
  {
    if s != "" && Space(s[|s| - 1]) {
      var front := s[..|s| - 1];
      TrimEndIs(front);
      var k := |TrimEnd(front)|;
      assert s[k..] == front[k..] + [s[|s| - 1]];
    }
  }

  lemma TrimIs(s: string)
    ensures Trimmed(s, Trim(s))
  {
    TrimStartIs(s);
    TrimEndIs(TrimStart(s));
    var i := |s| - |TrimStart(s)|;
    var j := i + |Trim(s)|;
    assert s[i..j] == s[i..][..|Trim(s)|] == Trim(s);
    assert s[j..] == s[i..][|Trim(s)|..];
    if Trim(s) != "" {
      assert Trim(s)[0] == TrimStart(s)[0];
    }
  }

  /** The pieces hold no separator, and put together again with it they are the text. */
  function Joined(pieces: seq<string>, sep: char): string {
    if pieces == [] then "" else if |pieces| == 1 then pieces[0] else pieces[0] + [sep] + Joined(pieces[1..], sep)
  }

  lemma {:induction false} SplitIs(s: string, sep: char)
    ensures Joined(Split(s, sep), sep) == s
    ensures forall i :: 0 <= i < |Split(s, sep)| ==> sep !in Split(s, sep)[i]
  {
    if s != "" {
      var rest := Split(s[1..], sep);
      SplitIs(s[1..], sep);
      assert s == [s[0]] + s[1..];
      if s[0] == sep {
        assert ([""] + rest)[1..] == rest;
      } else {
        var pieces := [[s[0]] + rest[0]] + rest[1..];
        assert pieces[1..] == rest[1..];
        if |rest| > 1 {
          assert [s[0]] + (rest[0] + [sep] + Joined(rest[1..], sep)) == ([s[0]] + rest[0]) + [sep] + Joined(rest[1..], sep);
        }
      }
    }
  }

  // ---- Alphabets ---------------------------------------------------------------------------------

  const DIGITS := "0123456789"
  const LOWER := "abcdefghijklmnopqrstuvwxyz"
  const UPPER := "ABCDEFGHIJKLMNOPQRSTUVWXYZ"

  /** `letters` are so many consecutive characters from `first` on. */
  predicate Run(letters: string, first: char) {
    forall i :: 0 <= i < |letters| ==> letters[i] as int == first as int + i
  }

  lemma InRun(letters: string, first: char, c: char)
    requires Run(letters, first)
    ensures c in letters <==> first as int <= c as int < first as int + |letters|
  {
    if first as int <= c as int < first as int + |letters| {
      assert letters[c as int - first as int] == c;
    }
  }

  lemma AlphabetsAre(c: char)
    ensures c in DIGITS <==> '0' <= c <= '9'
    ensures c in LOWER <==> 'a' <= c <= 'z'
    ensures c in UPPER <==> 'A' <= c <= 'Z'
  {
    InRun(DIGITS, '0', c);
    InRun(LOWER, 'a', c);
    InRun(UPPER, 'A', c);
  }
}
