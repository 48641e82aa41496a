/** A parser of JSON text (RFC 8259, without insignificant white space) and the proof that it inverts the printer. */
module JsonParser {
  import opened Common
  import opened Canonical

  // ---- Parsing -------------------------------------------------------------------------------

  datatype Parsed<+T> = Parsed(value: T, rest: Units)

  function HexValue(c: Code): Option<int> {
    if 48 <= c < 58 then Some(c - 48)
    else if 97 <= c < 103 then Some(c - 87)
    else if 65 <= c < 71 then Some(c - 55)
    else None
  }

  function ShortValue(c: Code): Option<Code> {
    if c == 98 then Some(8)
    else if c == 116 then Some(9)
    else if c == 110 then Some(10)
    else if c == 102 then Some(12)
    else if c == 114 then Some(13)
    else if c == QUOTE || c == BACKSLASH || c == 47 then Some(c)
    else None
  }

  /** One character of a string literal: RFC 8259 section 7. */
  function ParseUnit(s: Units): (r: Option<Parsed<Code>>)
    ensures r.Some? ==> |r.value.rest| < |s|
  {
    if s == [] || s[0] < 32 || s[0] == QUOTE then None
    else if s[0] != BACKSLASH then Some(Parsed(s[0], s[1..]))
    else if |s| < 2 then None
    else if s[1] != 117 then
      if ShortValue(s[1]).Some? then Some(Parsed(ShortValue(s[1]).value, s[2..])) else None
    else if |s| < 6 then None
    else
      var a, b, c, d := HexValue(s[2]), HexValue(s[3]), HexValue(s[4]), HexValue(s[5]);
      if a.Some? && b.Some? && c.Some? && d.Some? then
        Some(Parsed(a.value * 4096 + b.value * 256 + c.value * 16 + d.value, s[6..]))
      else None
  }

  /** The rest of a string literal, after its opening quote. */
  function ParseChars(s: Units): (r: Option<Parsed<Units>>)
    ensures r.Some? ==> |r.value.rest| < |s|
    decreases |s|
  {
    if s != [] && s[0] == QUOTE then Some(Parsed([], s[1..]))
    else
      match ParseUnit(s)
      case None => None
      case Some(unit) =>
        match ParseChars(unit.rest)
        case None => None
        case Some(tail) => Some(Parsed([unit.value] + tail.value, tail.rest))
  }

  function ParseString(s: Units): (r: Option<Parsed<Units>>)
    ensures r.Some? ==> |r.value.rest| < |s|
  {
    if s == [] || s[0] != QUOTE then None else ParseChars(s[1..])
  }

  predicate IsDigit(c: Code) { 48 <= c < 58 }

  function ParseDigits(n: nat, s: Units): (r: Parsed<nat>)
    ensures |r.rest| <= |s|
    decreases |s|
  {
    if s != [] && IsDigit(s[0]) then ParseDigits(n * 10 + (s[0] - 48), s[1..]) else Parsed(n, s)
  }

  function ParseNumber(s: Units): (r: Option<Parsed<int>>)
    ensures r.Some? ==> |r.value.rest| < |s|
  {
    if s != [] && IsDigit(s[0]) then
      var p := ParseDigits(s[0] - 48, s[1..]);
      var value: int := p.value;
      Some(Parsed(value, p.rest))
    else if |s| > 1 && s[0] == MINUS && IsDigit(s[1]) then
      var p := ParseDigits(s[1] - 48, s[2..]);
      var size: int := p.value;
      Some(Parsed(-size, p.rest))
    else None
  }

  function Literal(s: Units, text: Units, v: Json): Option<Parsed<Json>> {
    if text <= s then Some(Parsed(v, s[|text|..])) else None
  }

  function ParseValue(s: Units): (r: Option<Parsed<Json>>)
    ensures r.Some? ==> |r.value.rest| < |s|
    decreases |s|, 0
  {
    if s == [] then None
    else if s[0] == 110 then Literal(s, NULL_TEXT, Null)
    else if s[0] == 116 then Literal(s, TRUE_TEXT, Bool(true))
    else if s[0] == 102 then Literal(s, FALSE_TEXT, Bool(false))
    else if s[0] == QUOTE then
      match ParseString(s)
      case None => None
      case Some(p) => Some(Parsed(Str(p.value), p.rest))
    else if s[0] == 91 then
      if |s| > 1 && s[1] == 93 then Some(Parsed(Arr([]), s[2..]))
      else
        match ParseItems(s[1..])
        case None => None
        case Some(p) => Some(Parsed(Arr(p.value), p.rest))
    else if s[0] == 123 then
      if |s| > 1 && s[1] == 125 then Some(Parsed(Obj([]), s[2..]))
      else
        match ParseEntries(s[1..])
        case None => None
        case Some(p) => Some(Parsed(Obj(p.value), p.rest))
    else
      match ParseNumber(s)
      case None => None
      case Some(p) => Some(Parsed(Num(p.value), p.rest))
  }

  /** The elements of an array up to and including its closing bracket. */
  function ParseItems(s: Units): (r: Option<Parsed<seq<Json>>>)
    ensures r.Some? ==> |r.value.rest| < |s|
    decreases |s|, 1
  {
    match ParseValue(s)
    case None => None
    case Some(head) =>
      if head.rest == [] then None
      else if head.rest[0] == 93 then Some(Parsed([head.value], head.rest[1..]))
      else if head.rest[0] != COMMA then None
      else
        match ParseItems(head.rest[1..])
        case None => None
        case Some(tail) => Some(Parsed([head.value] + tail.value, tail.rest))
  }

  /** The members of an object up to and including its closing brace. */
  function ParseEntries(s: Units): (r: Option<Parsed<seq<Entry>>>)
    ensures r.Some? ==> |r.value.rest| < |s|
    decreases |s|, 1
  {
    match ParseString(s)
    case None => None
    case Some(key) =>
      if key.rest == [] || key.rest[0] != COLON then None
      else
        match ParseValue(key.rest[1..])
        case None => None
        case Some(item) =>
          var head := Entry(key.value, item.value);
          if item.rest == [] then None
          else if item.rest[0] == 125 then Some(Parsed([head], item.rest[1..]))
          else if item.rest[0] != COMMA then None
          else
            match ParseEntries(item.rest[1..])
            case None => None
            case Some(tail) => Some(Parsed([head] + tail.value, tail.rest))
  }

  // ---- The parser inverts the printer --------------------------------------------------------

  lemma UnitParses(c: Code, rest: Units)
    ensures ParseUnit(EscapeUnit(c) + rest) == Some(Parsed(c, rest))
  {
    var text := EscapeUnit(c) + rest;
    if ShortEscape(c).Some? {
      assert text[2..] == rest;
    } else if c < 32 || High(c) || Low(c) {
      HexParses(c, rest);
    } else {
      assert text[1..] == rest;
    }
  }

  lemma HexDigitParses(d: int)
    requires 0 <= d < 16
    ensures HexValue(HexDigit(d)) == Some(d)
  {
  }

  lemma HexParses(c: Code, rest: Units)
    ensures ParseUnit(HexEscape(c) + rest) == Some(Parsed(c, rest))
  {
    var q := c / 16;
    var r := q / 16;
    HexDigitParses(r / 16);
    HexDigitParses(r % 16);
    HexDigitParses(q % 16);
    HexDigitParses(c % 16);
    assert (HexEscape(c) + rest)[6..] == rest;
  }

  lemma PlainUnitParses(c: Code, rest: Units)
    requires High(c) || Low(c)
    ensures ParseUnit([c] + rest) == Some(Parsed(c, rest))
  {
    assert ([c] + rest)[1..] == rest;
  }

  lemma CharsStep(text: Units, c: Code, next: Units, tail: Units, rest: Units)
    requires text != [] && text[0] != QUOTE
    requires ParseUnit(text) == Some(Parsed(c, next)) && ParseChars(next) == Some(Parsed(tail, rest))
    ensures ParseChars(text) == Some(Parsed([c] + tail, rest))
  {
  }

  lemma PairFirst(a: Code, b: Code, tail: Units, end: Units)
    ensures [a, b] + tail + end == [a] + ([b] + (tail + end))
    ensures [a, b] + tail == [a] + ([b] + tail)
  {
  }

  lemma {:induction false} CharsParse(s: Units, rest: Units)
    ensures ParseChars(Escape(s) + ([QUOTE] + rest)) == Some(Parsed(s, rest))
    decreases |s|
  {
    var end := [QUOTE] + rest;
    if s == [] {
      assert Escape(s) + end == end && end[1..] == rest;
    } else if High(s[0]) && |s| > 1 && Low(s[1]) {
      var tail := Escape(s[2..]) + end;
      CharsParse(s[2..], rest);
      PlainUnitParses(s[1], tail);
      CharsStep([s[1]] + tail, s[1], tail, s[2..], rest);
      PlainUnitParses(s[0], [s[1]] + tail);
      CharsStep([s[0]] + ([s[1]] + tail), s[0], [s[1]] + tail, [s[1]] + s[2..], rest);
      PairFirst(s[0], s[1], Escape(s[2..]), end);
      PairFirst(s[0], s[1], s[2..], []);
      assert s == [s[0], s[1]] + s[2..];
    } else {
      var tail := Escape(s[1..]) + end;
      CharsParse(s[1..], rest);
      UnitParses(s[0], tail);
      EscapeUnitIsNoQuote(s[0]);
      CharsStep(EscapeUnit(s[0]) + tail, s[0], tail, s[1..], rest);
      Assoc(EscapeUnit(s[0]), Escape(s[1..]), end);
      assert s == [s[0]] + s[1..];
    }
  }

  lemma EscapeUnitIsNoQuote(c: Code)
    ensures EscapeUnit(c)[0] != QUOTE
  {
  }

  lemma StringParses(s: Units, rest: Units)
    ensures ParseString(Quoted(s) + rest) == Some(Parsed(s, rest))
  {
    CharsParse(s, rest);
    assert (Quoted(s) + rest)[1..] == Escape(s) + ([QUOTE] + rest);
  }

  /** What may follow a value: nothing, or the end of an item. */
  predicate Follows(rest: Units) {
    rest == [] || rest[0] == COMMA || rest[0] == 93 || rest[0] == 125
  }

  lemma DigitStep(n: nat, d: int, rest: Units)
    requires 0 <= d < 10
    ensures ParseDigits(n, [48 + d] + rest) == ParseDigits(n * 10 + d, rest)
  {
    assert ([48 + d] + rest)[1..] == rest;
  }

  lemma LastDigit(digits: Units, last: Units, rest: Units)
    requires digits != []
    ensures (digits + last)[0] == digits[0] && (digits + last)[1..] + rest == digits[1..] + (last + rest)
  {
  }

  lemma {:induction false} DigitsParse(n: nat, rest: Units)
    ensures Digits(n) != [] && IsDigit(Digits(n)[0])
    ensures ParseDigits(Digits(n)[0] - 48, Digits(n)[1..] + rest) == ParseDigits(n, rest)
  {
    if n < 10 {
      assert Digits(n)[1..] + rest == rest;
    } else {
      var last := [48 + n % 10];
      DigitsParse(n / 10, last + rest);
      LastDigit(Digits(n / 10), last, rest);
      DigitStep(n / 10, n % 10, rest);
    }
  }

  lemma DigitsEnd(n: nat, rest: Units)
    requires Follows(rest)
    ensures ParseDigits(n, rest) == Parsed(n, rest)
  {
  }

  lemma PositiveParses(n: nat, rest: Units)
    requires Follows(rest)
    ensures ParseNumber(Digits(n) + rest) == Some(Parsed(n as int, rest))
  {
    DigitsParse(n, rest);
    DigitsEnd(n, rest);
    assert (Digits(n) + rest)[1..] == Digits(n)[1..] + rest;
  }

  lemma NegativeParses(n: nat, rest: Units)
    requires Follows(rest)
    ensures ParseNumber([MINUS] + Digits(n) + rest) == Some(Parsed(-(n as int), rest))
  {
    DigitsParse(n, rest);
    DigitsEnd(n, rest);
    var text := [MINUS] + Digits(n) + rest;
    assert text[1] == Digits(n)[0] && text[2..] == Digits(n)[1..] + rest;
  }

  lemma NumberParses(n: int, rest: Units)
    requires Follows(rest)
    ensures ParseNumber(Decimal(n) + rest) == Some(Parsed(n, rest))
    ensures Decimal(n) != [] && (IsDigit(Decimal(n)[0]) || Decimal(n)[0] == MINUS)
  {
    if n < 0 {
      NegativeParses(-n, rest);
    } else {
      PositiveParses(n, rest);
      DigitsParse(n, rest);
    }
  }

  lemma LiteralParses(text: Units, rest: Units, v: Json)
    ensures Literal(text + rest, text, v) == Some(Parsed(v, rest))
  {
    assert (text + rest)[..|text|] == text && (text + rest)[|text|..] == rest;
  }

  lemma LeafParses(v: Json, rest: Units)
    requires !v.Arr? && !v.Obj? && Follows(rest)
    ensures ParseValue(Leaf(v) + rest) == Some(Parsed(v, rest))
    ensures Leaf(v) != [] && Leaf(v)[0] != 93
  {
    match v
    case Null => LiteralParses(NULL_TEXT, rest, Null);
    case Bool(b) => LiteralParses(if b then TRUE_TEXT else FALSE_TEXT, rest, v);
    case Num(n) => NumberParses(n, rest);
    case Str(s) => StringParses(s, rest);
  }

  lemma {:induction false} PrintStarts(v: Json)
    ensures Print(v) != [] && Print(v)[0] != 93
  {
    if !v.Arr? && !v.Obj? {
      LeafParses(v, []);
    }
  }

  lemma ArrayStep(body: Units, items: seq<Json>, rest: Units)
    requires body != [] && body[0] != 93 && ParseItems(body) == Some(Parsed(items, rest))
    ensures ParseValue([91] + body) == Some(Parsed(Arr(items), rest))
  {
    assert ([91] + body)[1..] == body;
  }

  lemma ObjectStep(body: Units, entries: seq<Entry>, rest: Units)
    requires body != [] && body[0] == QUOTE && ParseEntries(body) == Some(Parsed(entries, rest))
    ensures ParseValue([123] + body) == Some(Parsed(Obj(entries), rest))
  {
    assert ([123] + body)[1..] == body;
  }

  lemma Wrapped(open: Units, body: Units, close: Units, rest: Units)
    ensures open + body + close + rest == open + (body + (close + rest))
  {
  }

  lemma EmptyParses(rest: Units)
    ensures ParseValue([91, 93] + rest) == Some(Parsed(Arr([]), rest))
    ensures ParseValue([123, 125] + rest) == Some(Parsed(Obj([]), rest))
  {
    assert ([91, 93] + rest)[2..] == rest && ([123, 125] + rest)[2..] == rest;
  }

  lemma {:induction false} ValueParses(v: Json, rest: Units)
    requires Follows(rest)
    ensures ParseValue(Print(v) + rest) == Some(Parsed(v, rest))
    decreases v, 0
  {
    EmptyParses(rest);
    match v
    case Arr(items) =>
      if items == [] {
        assert Print(v) == [91, 93];
      } else {
        ItemsParse(items, rest);
        PrintItemsStarts(items);
        ArrayStep(PrintItems(items) + ([93] + rest), items, rest);
        Wrapped([91], PrintItems(items), [93], rest);
      }
    case Obj(entries) =>
      if entries == [] {
        assert Print(v) == [123, 125];
      } else {
        EntriesParse(entries, rest);
        PrintEntriesStarts(entries);
        ObjectStep(PrintEntries(entries) + ([125] + rest), entries, rest);
        Wrapped([123], PrintEntries(entries), [125], rest);
      }
    case _ => LeafParses(v, rest);
  }

  lemma PrintItemsStarts(items: seq<Json>)
    requires items != []
    ensures PrintItems(items) != [] && PrintItems(items)[0] != 93
  {
    PrintStarts(items[0]);
  }

  lemma PrintEntriesStarts(entries: seq<Entry>)
    requires entries != []
    ensures PrintEntries(entries) != [] && PrintEntries(entries)[0] == QUOTE
  {
  }

  lemma LastItem(text: Units, v: Json, rest: Units)
    requires ParseValue(text) == Some(Parsed(v, [93] + rest))
    ensures ParseItems(text) == Some(Parsed([v], rest))
  {
    assert ([93] + rest)[1..] == rest;
  }

  lemma MoreItems(text: Units, v: Json, tail: Units, items: seq<Json>, rest: Units)
    requires ParseValue(text) == Some(Parsed(v, [COMMA] + tail)) && ParseItems(tail) == Some(Parsed(items, rest))
    ensures ParseItems(text) == Some(Parsed([v] + items, rest))
  {
    assert ([COMMA] + tail)[1..] == tail;
  }

  lemma {:induction false} ItemsParse(items: seq<Json>, rest: Units)
    requires items != []
    ensures ParseItems(PrintItems(items) + ([93] + rest)) == Some(Parsed(items, rest))
    decreases items, 1
  {
    if |items| == 1 {
      ValueParses(items[0], [93] + rest);
      LastItem(Print(items[0]) + ([93] + rest), items[0], rest);
      assert items == [items[0]];
    } else {
      var tail := PrintItems(items[1..]) + ([93] + rest);
      ItemsParse(items[1..], rest);
      ValueParses(items[0], [COMMA] + tail);
      MoreItems(Print(items[0]) + ([COMMA] + tail), items[0], tail, items[1..], rest);
      Wrapped(Print(items[0]), [COMMA], PrintItems(items[1..]), [93] + rest);
      assert items == [items[0]] + items[1..];
    }
  }

  lemma LastEntry(key: Units, text: Units, v: Json, rest: Units)
    requires ParseValue(text) == Some(Parsed(v, [125] + rest))
    ensures ParseEntries(Quoted(key) + ([COLON] + text)) == Some(Parsed([Entry(key, v)], rest))
  {
    StringParses(key, [COLON] + text);
    assert ([COLON] + text)[1..] == text && ([125] + rest)[1..] == rest;
  }

  lemma MoreEntries(key: Units, text: Units, v: Json, tail: Units, entries: seq<Entry>, rest: Units)
    requires ParseValue(text) == Some(Parsed(v, [COMMA] + tail)) && ParseEntries(tail) == Some(Parsed(entries, rest))
    ensures ParseEntries(Quoted(key) + ([COLON] + text)) == Some(Parsed([Entry(key, v)] + entries, rest))
  {
    StringParses(key, [COLON] + text);
    assert ([COLON] + text)[1..] == text && ([COMMA] + tail)[1..] == tail;
  }

  lemma EntryThenRest(key: Units, value: Units, others: Units, end: Units)
    ensures (key + [COLON] + value) + [COMMA] + others + end == key + ([COLON] + (value + ([COMMA] + (others + end))))
  {
    Wrapped(key + [COLON] + value, [COMMA], others, end);
    Wrapped(key, [COLON], value, [COMMA] + (others + end));
  }

  lemma {:induction false} EntriesParse(entries: seq<Entry>, rest: Units)
    requires entries != []
    ensures ParseEntries(PrintEntries(entries) + ([125] + rest)) == Some(Parsed(entries, rest))
    decreases entries, 1
  {
    var e := entries[0];
    if |entries| == 1 {
      ValueParses(e.value, [125] + rest);
      LastEntry(e.key, Print(e.value) + ([125] + rest), e.value, rest);
      Wrapped(Quoted(e.key), [COLON], Print(e.value), [125] + rest);
      assert entries == [e];
    } else {
      var tail := PrintEntries(entries[1..]) + ([125] + rest);
      EntriesParse(entries[1..], rest);
      ValueParses(e.value, [COMMA] + tail);
      MoreEntries(e.key, Print(e.value) + ([COMMA] + tail), e.value, tail, entries[1..], rest);
      EntryThenRest(Quoted(e.key), Print(e.value), PrintEntries(entries[1..]), [125] + rest);
      assert entries == [e] + entries[1..];
    }
  }

  /** Parsing the text of a value gives the value back. */
  lemma PrintRoundTrip(v: Json)
    ensures ParseValue(Print(v)) == Some(Parsed(v, []))
  {
    ValueParses(v, []);
    assert Print(v) + [] == Print(v);
  }

  /** The canonical text is JSON for the value with its keys sorted. */
  lemma StableRoundTrip(cmp: Comparator, v: Json)
    ensures ParseValue(Stable(cmp, v)) == Some(Parsed(Canon(cmp, v), []))
  {
    StableIsPrint(cmp, v);
    PrintRoundTrip(Canon(cmp, v));
  }
}
