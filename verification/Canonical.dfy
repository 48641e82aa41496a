/** The canonical text of a JSON value (RFC 8259), from which evidence and blueprint digests are taken. */
module Canonical {
  import opened Common

  /** A UTF-16 code unit; strings of the source's language are sequences of them, paired or not. */
  type Code = c: int | 0 <= c < 0x1_0000
  type Units = seq<Code>

  /** A value without `undefined`; an object is its own entries in property order. */
  datatype Json =
    | Null
    | Bool(b: bool)
    | Num(n: int)
    | Str(s: Units)
    | Arr(items: seq<Json>)
    | Obj(entries: seq<Entry>)
  datatype Entry = Entry(key: Units, value: Json)

  function Size(v: Json): nat {
    match v
    case Arr(items) => 1 + SizeItems(items)
    case Obj(entries) => 1 + SizeEntries(entries)
    case _ => 1
  }

  function SizeItems(items: seq<Json>): nat {
    if items == [] then 0 else 1 + Size(items[0]) + SizeItems(items[1..])
  }

  function SizeEntries(entries: seq<Entry>): nat {
    if entries == [] then 0 else 1 + Size(entries[0].value) + SizeEntries(entries[1..])
  }

  // ---- JSON.stringify on the leaves ----------------------------------------------------------

  const QUOTE: Code := 34
  const BACKSLASH: Code := 92
  const COMMA: Code := 44
  const COLON: Code := 58
  const MINUS: Code := 45
  const NULL_TEXT: Units := [110, 117, 108, 108]
  const TRUE_TEXT: Units := [116, 114, 117, 101]
  const FALSE_TEXT: Units := [102, 97, 108, 115, 101]

  predicate High(c: Code) { 0xD800 <= c < 0xDC00 }
  predicate Low(c: Code) { 0xDC00 <= c < 0xE000 }

  function HexDigit(d: int): Code
    requires 0 <= d < 16
  {
    if d < 10 then 48 + d else 87 + d
  }

  function HexEscape(c: Code): Units {
    [BACKSLASH, 117, HexDigit(c / 16 / 16 / 16), HexDigit(c / 16 / 16 % 16), HexDigit(c / 16 % 16), HexDigit(c % 16)]
  }

  /** The letter that stands for `c` after a backslash. */
  function ShortEscape(c: Code): Option<Code> {
    if c == 8 then Some(98)
    else if c == 9 then Some(116)
    else if c == 10 then Some(110)
    else if c == 12 then Some(102)
    else if c == 13 then Some(114)
    else if c == QUOTE || c == BACKSLASH then Some(c)
    else None
  }

  function EscapeUnit(c: Code): Units {
    if ShortEscape(c).Some? then [BACKSLASH, ShortEscape(c).value]
    else if c < 32 || High(c) || Low(c) then HexEscape(c)
    else [c]
  }

  /** A surrogate pair is copied, a lone surrogate escaped. */
  function Escape(s: Units): Units {
    if s == [] then []
    else if High(s[0]) && |s| > 1 && Low(s[1]) then [s[0], s[1]] + Escape(s[2..])
    else EscapeUnit(s[0]) + Escape(s[1..])
  }

  function Quoted(s: Units): Units {
    [QUOTE] + Escape(s) + [QUOTE]
  }

  function Digits(n: nat): Units {
    if n < 10 then [48 + n] else Digits(n / 10) + [48 + n % 10]
  }

  function Decimal(n: int): Units {
    if n < 0 then [MINUS] + Digits(-n) else Digits(n)
  }

  function Leaf(v: Json): Units
    requires !v.Arr? && !v.Obj?
  {
    match v
    case Null => NULL_TEXT
    case Bool(b) => if b then TRUE_TEXT else FALSE_TEXT
    case Num(n) => Decimal(n)
    case Str(s) => Quoted(s)
  }

  // ---- stable() ------------------------------------------------------------------------------

  /** `a.localeCompare(b)`, or the default order of sort(): negative, zero or positive. */
  type Comparator = (Units, Units) -> int

  ghost predicate Consistent(cmp: Comparator) {
    && (forall a, b :: cmp(a, b) <= 0 <==> 0 <= cmp(b, a))
    && (forall a, b, c :: cmp(a, b) <= 0 && cmp(b, c) <= 0 ==> cmp(a, c) <= 0)
  }

  /** Array.prototype.sort by key; entries that compare equal keep their order. */
  function Sorted(cmp: Comparator, entries: seq<Entry>): (r: seq<Entry>)
    ensures SizeEntries(r) == SizeEntries(entries)
  {
    if entries == [] then [] else Insert(cmp, entries[0], Sorted(cmp, entries[1..]))
  }

  function Insert(cmp: Comparator, e: Entry, entries: seq<Entry>): (r: seq<Entry>)
    ensures SizeEntries(r) == 1 + Size(e.value) + SizeEntries(entries)
  {
    if entries == [] || cmp(e.key, entries[0].key) <= 0 then
      assert ([e] + entries)[1..] == entries;
      [e] + entries
    else
      var rest := Insert(cmp, e, entries[1..]);
      assert ([entries[0]] + rest)[1..] == rest;
      [entries[0]] + rest
  }

  function Stable(cmp: Comparator, v: Json): Units
    decreases Size(v)
  {
    match v
    case Arr(items) => [91] + StableItems(cmp, items) + [93]
    case Obj(entries) => [123] + StableEntries(cmp, Sorted(cmp, entries)) + [125]
    case _ => Leaf(v)
  }

  function StableItems(cmp: Comparator, items: seq<Json>): Units
    decreases SizeItems(items)
  {
    if items == [] then []
    else if |items| == 1 then Stable(cmp, items[0])
    else Stable(cmp, items[0]) + [COMMA] + StableItems(cmp, items[1..])
  }

  function StableEntries(cmp: Comparator, entries: seq<Entry>): Units
    decreases SizeEntries(entries)
  {
    if entries == [] then []
    else
      var first := Quoted(entries[0].key) + [COLON] + Stable(cmp, entries[0].value);
      if |entries| == 1 then first else first + [COMMA] + StableEntries(cmp, entries[1..])
  }

  // ---- The printer and its inverse -----------------------------------------------------------

  /** The same text without sorting. */
  function Print(v: Json): Units {
    match v
    case Arr(items) => [91] + PrintItems(items) + [93]
    case Obj(entries) => [123] + PrintEntries(entries) + [125]
    case _ => Leaf(v)
  }

  function PrintItems(items: seq<Json>): Units {
    if items == [] then []
    else if |items| == 1 then Print(items[0])
    else Print(items[0]) + [COMMA] + PrintItems(items[1..])
  }

  function PrintEntries(entries: seq<Entry>): Units {
    if entries == [] then []
    else
      var first := Quoted(entries[0].key) + [COLON] + Print(entries[0].value);
      if |entries| == 1 then first else first + [COMMA] + PrintEntries(entries[1..])
  }

  /** `v` with every object's entries sorted. */
  function Canon(cmp: Comparator, v: Json): Json
    decreases Size(v)
  {
    match v
    case Arr(items) => Arr(CanonItems(cmp, items))
    case Obj(entries) => Obj(CanonEntries(cmp, Sorted(cmp, entries)))
    case _ => v
  }

  function CanonItems(cmp: Comparator, items: seq<Json>): seq<Json>
    decreases SizeItems(items)
  {
    if items == [] then [] else [Canon(cmp, items[0])] + CanonItems(cmp, items[1..])
  }

  function CanonEntries(cmp: Comparator, entries: seq<Entry>): seq<Entry>
    decreases SizeEntries(entries)
  {
    if entries == [] then []
    else [Entry(entries[0].key, Canon(cmp, entries[0].value))] + CanonEntries(cmp, entries[1..])
  }

  lemma {:induction false} StableIsPrint(cmp: Comparator, v: Json)
    ensures Stable(cmp, v) == Print(Canon(cmp, v))
    decreases Size(v)
  {
    match v
    case Arr(items) => StableItemsIsPrint(cmp, items);
    case Obj(entries) => StableEntriesIsPrint(cmp, Sorted(cmp, entries));
    case _ =>
  }

  lemma {:induction false} StableItemsIsPrint(cmp: Comparator, items: seq<Json>)
    ensures StableItems(cmp, items) == PrintItems(CanonItems(cmp, items))
    decreases SizeItems(items)
  {
    if items != [] {
      StableIsPrint(cmp, items[0]);
      StableItemsIsPrint(cmp, items[1..]);
      assert CanonItems(cmp, items)[1..] == CanonItems(cmp, items[1..]);
      assert |items| > 1 ==> CanonItems(cmp, items[1..]) != [];
    }
  }

  lemma {:induction false} StableEntriesIsPrint(cmp: Comparator, entries: seq<Entry>)
    ensures StableEntries(cmp, entries) == PrintEntries(CanonEntries(cmp, entries))
    decreases SizeEntries(entries)
  {
    if entries != [] {
      StableIsPrint(cmp, entries[0].value);
      StableEntriesIsPrint(cmp, entries[1..]);
      assert CanonEntries(cmp, entries)[1..] == CanonEntries(cmp, entries[1..]);
      assert |entries| > 1 ==> CanonEntries(cmp, entries[1..]) != [];
    }
  }
}
