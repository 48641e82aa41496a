/** When two values have the same canonical text: equality up to the order of object keys. */
module KeyOrder {
  import opened Canonical
  import opened JsonParser

  // ---- What a value means: objects are maps --------------------------------------------------

  datatype Value =
    | VNull
    | VBool(b: bool)
    | VNum(n: int)
    | VStr(s: Units)
    | VArr(items: seq<Value>)
    | VObj(members: map<Units, Value>)

  /** The value up to the order of object keys. */
  function Meaning(v: Json): Value {
    match v
    case Null => VNull
    case Bool(b) => VBool(b)
    case Num(n) => VNum(n)
    case Str(s) => VStr(s)
    case Arr(items) => VArr(ItemMeanings(items))
    case Obj(entries) => VObj(Members(entries))
  }

  function ItemMeanings(items: seq<Json>): seq<Value> {
    if items == [] then [] else [Meaning(items[0])] + ItemMeanings(items[1..])
  }

  function Members(entries: seq<Entry>): map<Units, Value> {
    if entries == [] then map[] else Members(entries[1..])[entries[0].key := Meaning(entries[0].value)]
  }

  predicate HasKey(entries: seq<Entry>, key: Units) {
    entries != [] && (entries[0].key == key || HasKey(entries[1..], key))
  }

  /** No object has a key twice, as in the source's language. */
  predicate WellFormed(v: Json) {
    match v
    case Arr(items) => WellFormedItems(items)
    case Obj(entries) => WellFormedEntries(entries)
    case _ => true
  }

  predicate WellFormedItems(items: seq<Json>) {
    items == [] || (WellFormed(items[0]) && WellFormedItems(items[1..]))
  }

  predicate WellFormedEntries(entries: seq<Entry>) {
    entries == [] || (!HasKey(entries[1..], entries[0].key) && WellFormed(entries[0].value) && WellFormedEntries(entries[1..]))
  }

  /** The comparator tells `key` from every other key of the entries. */
  predicate SeparatesKey(cmp: Comparator, key: Units, entries: seq<Entry>) {
    entries == [] || ((cmp(key, entries[0].key) == 0 ==> key == entries[0].key) && SeparatesKey(cmp, key, entries[1..]))
  }

  /** Within each object the comparator tells the keys apart. */
  predicate Separated(cmp: Comparator, v: Json) {
    match v
    case Arr(items) => SeparatedItems(cmp, items)
    case Obj(entries) => SeparatedEntries(cmp, entries)
    case _ => true
  }

  predicate SeparatedItems(cmp: Comparator, items: seq<Json>) {
    items == [] || (Separated(cmp, items[0]) && SeparatedItems(cmp, items[1..]))
  }

  predicate SeparatedEntries(cmp: Comparator, entries: seq<Entry>) {
    entries == []
    || (SeparatesKey(cmp, entries[0].key, entries[1..]) && Separated(cmp, entries[0].value) && SeparatedEntries(cmp, entries[1..]))
  }

  // ---- Sorting keeps the members ---------------------------------------------------------------

  predicate Ordered(cmp: Comparator, entries: seq<Entry>) {
    |entries| < 2 || (cmp(entries[0].key, entries[1].key) <= 0 && Ordered(cmp, entries[1..]))
  }

  lemma {:induction false} MembersKeys(entries: seq<Entry>, key: Units)
    ensures HasKey(entries, key) <==> key in Members(entries)
  {
    if entries != [] {
      MembersKeys(entries[1..], key);
    }
  }

  lemma {:induction false} InsertKeepsMembers(cmp: Comparator, e: Entry, entries: seq<Entry>)
    requires WellFormedEntries([e] + entries)
    ensures WellFormedEntries(Insert(cmp, e, entries)) && Members(Insert(cmp, e, entries)) == Members([e] + entries)
    ensures forall key :: HasKey(Insert(cmp, e, entries), key) <==> key == e.key || HasKey(entries, key)
  {
    assert ([e] + entries)[1..] == entries;
    if !(entries == [] || cmp(e.key, entries[0].key) <= 0) {
      var rest := Insert(cmp, e, entries[1..]);
      assert ([e] + entries[1..])[1..] == entries[1..];
      InsertKeepsMembers(cmp, e, entries[1..]);
      assert ([entries[0]] + rest)[1..] == rest;
    }
  }

  lemma {:induction false} SortKeepsMembers(cmp: Comparator, entries: seq<Entry>)
    requires WellFormedEntries(entries)
    ensures WellFormedEntries(Sorted(cmp, entries)) && Members(Sorted(cmp, entries)) == Members(entries)
    ensures forall key :: HasKey(Sorted(cmp, entries), key) <==> HasKey(entries, key)
  {
    if entries != [] {
      var sorted := Sorted(cmp, entries[1..]);
      SortKeepsMembers(cmp, entries[1..]);
      assert ([entries[0]] + sorted)[1..] == sorted;
      InsertKeepsMembers(cmp, entries[0], sorted);
    }
  }

  lemma {:induction false} InsertOrders(cmp: Comparator, e: Entry, entries: seq<Entry>)
    requires Consistent(cmp) && Ordered(cmp, entries)
    ensures Ordered(cmp, Insert(cmp, e, entries))
  {
    assert ([e] + entries)[1..] == entries;
    if !(entries == [] || cmp(e.key, entries[0].key) <= 0) {
      var rest := Insert(cmp, e, entries[1..]);
      InsertOrders(cmp, e, entries[1..]);
      assert ([entries[0]] + rest)[1..] == rest;
      assert cmp(entries[0].key, e.key) <= 0;
    }
  }

  lemma {:induction false} SortOrders(cmp: Comparator, entries: seq<Entry>)
    requires Consistent(cmp)
    ensures Ordered(cmp, Sorted(cmp, entries))
  {
    if entries != [] {
      SortOrders(cmp, entries[1..]);
      InsertOrders(cmp, entries[0], Sorted(cmp, entries[1..]));
    }
  }

  /** Equal keys keep their property order, as the language's sort promises. */
  function Tied(cmp: Comparator, key: Units, entries: seq<Entry>): seq<Entry> {
    if entries == [] then []
    else (if cmp(key, entries[0].key) == 0 then [entries[0]] else []) + Tied(cmp, key, entries[1..])
  }

  lemma NotBothTied(cmp: Comparator, key: Units, a: Units, b: Units)
    requires Consistent(cmp) && cmp(a, b) > 0
    ensures !(cmp(key, a) == 0 && cmp(key, b) == 0)
  {
    assert cmp(key, a) == 0 ==> cmp(a, key) <= 0;
  }

  lemma {:induction false} InsertIsStable(cmp: Comparator, e: Entry, entries: seq<Entry>, key: Units)
    requires Consistent(cmp)
    ensures Tied(cmp, key, Insert(cmp, e, entries)) == Tied(cmp, key, [e] + entries)
  {
    assert ([e] + entries)[1..] == entries;
    if !(entries == [] || cmp(e.key, entries[0].key) <= 0) {
      var rest := Insert(cmp, e, entries[1..]);
      InsertIsStable(cmp, e, entries[1..], key);
      assert ([e] + entries[1..])[1..] == entries[1..];
      assert ([entries[0]] + rest)[1..] == rest;
      NotBothTied(cmp, key, e.key, entries[0].key);
    }
  }

  lemma {:induction false} SortIsStable(cmp: Comparator, entries: seq<Entry>, key: Units)
    requires Consistent(cmp)
    ensures Tied(cmp, key, Sorted(cmp, entries)) == Tied(cmp, key, entries)
  {
    if entries != [] {
      var sorted := Sorted(cmp, entries[1..]);
      SortIsStable(cmp, entries[1..], key);
      InsertIsStable(cmp, entries[0], sorted, key);
      assert ([entries[0]] + sorted)[1..] == sorted;
    }
  }

  // ---- The canonical form means the same -------------------------------------------------------

  lemma {:induction false} CanonMeans(cmp: Comparator, v: Json)
    requires WellFormed(v)
    ensures Meaning(Canon(cmp, v)) == Meaning(v)
    decreases Size(v)
  {
    match v
    case Arr(items) => CanonItemsMean(cmp, items);
    case Obj(entries) =>
      SortKeepsMembers(cmp, entries);
      CanonEntriesMean(cmp, Sorted(cmp, entries));
    case _ =>
  }

  lemma {:induction false} CanonItemsMean(cmp: Comparator, items: seq<Json>)
    requires WellFormedItems(items)
    ensures ItemMeanings(CanonItems(cmp, items)) == ItemMeanings(items)
    decreases SizeItems(items)
  {
    if items != [] {
      CanonMeans(cmp, items[0]);
      CanonItemsMean(cmp, items[1..]);
      assert CanonItems(cmp, items)[1..] == CanonItems(cmp, items[1..]);
    }
  }

  lemma {:induction false} CanonEntriesMean(cmp: Comparator, entries: seq<Entry>)
    requires WellFormedEntries(entries)
    ensures Members(CanonEntries(cmp, entries)) == Members(entries)
    decreases SizeEntries(entries)
  {
    if entries != [] {
      CanonMeans(cmp, entries[0].value);
      CanonEntriesMean(cmp, entries[1..]);
      assert CanonEntries(cmp, entries)[1..] == CanonEntries(cmp, entries[1..]);
    }
  }

  /** Two values with the same canonical text are equal up to key order, for any comparator. */
  lemma StableInjective(cmp: Comparator, a: Json, b: Json)
    requires WellFormed(a) && WellFormed(b) && Stable(cmp, a) == Stable(cmp, b)
    ensures Meaning(a) == Meaning(b)
  {
    StableRoundTrip(cmp, a);
    StableRoundTrip(cmp, b);
    CanonMeans(cmp, a);
    CanonMeans(cmp, b);
  }

  // ---- Values that mean the same have the same canonical form --------------------------------

  lemma {:induction false} SeparatesHasKey(cmp: Comparator, key: Units, entries: seq<Entry>, other: Units)
    requires SeparatesKey(cmp, key, entries) && HasKey(entries, other) && cmp(key, other) == 0
    ensures key == other
  {
    if entries[0].key != other {
      SeparatesHasKey(cmp, key, entries[1..], other);
    }
  }

  lemma {:induction false} SeparatesMeaning(cmp: Comparator, key: Units, entries: seq<Entry>)
    ensures SeparatesKey(cmp, key, entries) <==> forall other :: HasKey(entries, other) && cmp(key, other) == 0 ==> key == other
  {
    if entries != [] {
      SeparatesMeaning(cmp, key, entries[1..]);
      assert HasKey(entries, entries[0].key);
      assert forall other :: HasKey(entries[1..], other) ==> HasKey(entries, other);
    }
  }

  lemma {:induction false} InsertSeparates(cmp: Comparator, e: Entry, entries: seq<Entry>)
    requires Consistent(cmp) && WellFormedEntries([e] + entries) && SeparatedEntries(cmp, [e] + entries)
    ensures SeparatedEntries(cmp, Insert(cmp, e, entries))
  {
    assert ([e] + entries)[1..] == entries;
    if !(entries == [] || cmp(e.key, entries[0].key) <= 0) {
      var rest := Insert(cmp, e, entries[1..]);
      assert ([e] + entries[1..])[1..] == entries[1..];
      InsertSeparates(cmp, e, entries[1..]);
      InsertKeepsMembers(cmp, e, entries[1..]);
      assert ([entries[0]] + rest)[1..] == rest;
      SeparatesMeaning(cmp, entries[0].key, entries[1..]);
      SeparatesMeaning(cmp, entries[0].key, rest);
    }
  }

  lemma {:induction false} SortSeparates(cmp: Comparator, entries: seq<Entry>)
    requires Consistent(cmp) && WellFormedEntries(entries) && SeparatedEntries(cmp, entries)
    ensures SeparatedEntries(cmp, Sorted(cmp, entries))
  {
    if entries != [] {
      var sorted := Sorted(cmp, entries[1..]);
      SortSeparates(cmp, entries[1..]);
      SortKeepsMembers(cmp, entries[1..]);
      assert ([entries[0]] + sorted)[1..] == sorted;
      SeparatesMeaning(cmp, entries[0].key, entries[1..]);
      SeparatesMeaning(cmp, entries[0].key, sorted);
      InsertSeparates(cmp, entries[0], sorted);
    }
  }

  /** In an ordered list the first key is the least. */
  lemma {:induction false} FirstIsLeast(cmp: Comparator, entries: seq<Entry>, key: Units)
    requires Consistent(cmp) && Ordered(cmp, entries) && HasKey(entries, key)
    ensures cmp(entries[0].key, key) <= 0
  {
    if entries[0].key != key {
      FirstIsLeast(cmp, entries[1..], key);
    } else {
      assert cmp(key, key) <= 0 || 0 <= cmp(key, key);
    }
  }

  lemma {:induction false} SameCanon(cmp: Comparator, a: Json, b: Json)
    requires Consistent(cmp) && WellFormed(a) && WellFormed(b) && Separated(cmp, a)
    requires Meaning(a) == Meaning(b)
    ensures Canon(cmp, a) == Canon(cmp, b)
    decreases Size(a)
  {
    match a
    case Arr(items) => SameCanonItems(cmp, items, b.items);
    case Obj(entries) =>
      var left, right := Sorted(cmp, entries), Sorted(cmp, b.entries);
      SortKeepsMembers(cmp, entries);
      SortKeepsMembers(cmp, b.entries);
      SortOrders(cmp, entries);
      SortOrders(cmp, b.entries);
      SortSeparates(cmp, entries);
      SameCanonEntries(cmp, left, right);
    case _ =>
  }

  lemma {:induction false} SameCanonItems(cmp: Comparator, items: seq<Json>, others: seq<Json>)
    requires Consistent(cmp) && WellFormedItems(items) && WellFormedItems(others) && SeparatedItems(cmp, items)
    requires ItemMeanings(items) == ItemMeanings(others)
    ensures CanonItems(cmp, items) == CanonItems(cmp, others)
    decreases SizeItems(items)
  {
    if items != [] {
      assert others != [];
      assert ItemMeanings(items)[1..] == ItemMeanings(items[1..]) && ItemMeanings(others)[1..] == ItemMeanings(others[1..]);
      SameCanon(cmp, items[0], others[0]);
      SameCanonItems(cmp, items[1..], others[1..]);
    }
  }

  lemma SameHead(cmp: Comparator, left: seq<Entry>, right: seq<Entry>)
    requires Consistent(cmp) && WellFormedEntries(left) && WellFormedEntries(right) && SeparatedEntries(cmp, left)
    requires Ordered(cmp, left) && Ordered(cmp, right) && Members(left) == Members(right) && left != []
    ensures right != [] && left[0].key == right[0].key && Meaning(left[0].value) == Meaning(right[0].value)
    ensures Members(left[1..]) == Members(right[1..])
  {
    var key := left[0].key;
    MembersKeys(left, key);
    MembersKeys(right, key);
    var other := right[0].key;
    MembersKeys(left, other);
    MembersKeys(right, other);
    FirstIsLeast(cmp, left, other);
    FirstIsLeast(cmp, right, key);
    assert cmp(key, other) == 0;
    if key != other {
      SeparatesHasKey(cmp, key, left[1..], other);
    }
    MembersKeys(left[1..], key);
    MembersKeys(right[1..], key);
    assert Members(left[1..]) == Members(left) - {key} == Members(right) - {key} == Members(right[1..]);
  }

  lemma HasMembers(entries: seq<Entry>)
    requires entries != []
    ensures Members(entries) != map[]
  {
    assert entries[0].key in Members(entries);
  }

  lemma {:induction false} SameCanonEntries(cmp: Comparator, left: seq<Entry>, right: seq<Entry>)
    requires Consistent(cmp) && WellFormedEntries(left) && WellFormedEntries(right) && SeparatedEntries(cmp, left)
    requires Ordered(cmp, left) && Ordered(cmp, right) && Members(left) == Members(right)
    ensures CanonEntries(cmp, left) == CanonEntries(cmp, right)
    decreases SizeEntries(left)
  {
    if left != [] {
      SameHead(cmp, left, right);
      SameCanon(cmp, left[0].value, right[0].value);
      SameCanonEntries(cmp, left[1..], right[1..]);
    } else if right != [] {
      HasMembers(right);
      assert false;
    }
  }

  /** The canonical text decides equality up to key order, wherever the comparator tells keys apart. */
  lemma StableDecides(cmp: Comparator, a: Json, b: Json)
    requires Consistent(cmp) && WellFormed(a) && WellFormed(b) && Separated(cmp, a)
    ensures Stable(cmp, a) == Stable(cmp, b) <==> Meaning(a) == Meaning(b)
  {
    if Stable(cmp, a) == Stable(cmp, b) {
      StableInjective(cmp, a, b);
    } else if Meaning(a) == Meaning(b) {
      SameCanon(cmp, a, b);
      StableIsPrint(cmp, a);
      StableIsPrint(cmp, b);
      assert false;
    }
  }

  /** Keys the comparator confuses make the text depend on property order. */
  lemma ConfusedKeysDiffer(cmp: Comparator, k: Units, l: Units)
    requires Consistent(cmp) && k != l && cmp(k, l) == 0
    ensures var a, b := Obj([Entry(k, Null), Entry(l, Null)]), Obj([Entry(l, Null), Entry(k, Null)]);
      WellFormed(a) && WellFormed(b) && Meaning(a) == Meaning(b) && Stable(cmp, a) != Stable(cmp, b)
  {
    var a, b := Obj([Entry(k, Null), Entry(l, Null)]), Obj([Entry(l, Null), Entry(k, Null)]);
    TwoEntries(cmp, k, l);
    TwoEntries(cmp, l, k);
    StableRoundTrip(cmp, a);
    StableRoundTrip(cmp, b);
    assert Canon(cmp, a).entries[0].key == k && Canon(cmp, b).entries[0].key == l;
  }

  lemma TwoEntries(cmp: Comparator, k: Units, l: Units)
    requires k != l && cmp(k, l) <= 0
    ensures var es := [Entry(k, Null), Entry(l, Null)];
      && Canon(cmp, Obj(es)) == Obj(es) && WellFormedEntries(es)
      && Members(es) == map[k := VNull, l := VNull]
  {
    var first, second := Entry(k, Null), Entry(l, Null);
    var es := [first, second];
    OneEntry(cmp, second);
    assert es[1..] == [second];
    assert Sorted(cmp, es) == Insert(cmp, first, [second]) == [first] + [second] == es;
    assert CanonEntries(cmp, es) == [first] + CanonEntries(cmp, [second]) == es;
    assert !HasKey([second], k);
    assert Members(es) == Members([second])[k := VNull] == map[l := VNull, k := VNull];
  }

  lemma OneEntry(cmp: Comparator, e: Entry)
    requires e.value == Null
    ensures Sorted(cmp, [e]) == [e] && CanonEntries(cmp, [e]) == [e] && WellFormedEntries([e])
    ensures Members([e]) == map[e.key := VNull]
    ensures forall key :: HasKey([e], key) <==> key == e.key
  {
    var es := [e];
    assert es[1..] == [];
    assert Sorted(cmp, es) == Insert(cmp, e, Sorted(cmp, [])) == [e];
    assert CanonEntries(cmp, es) == [Entry(e.key, Null)] + CanonEntries(cmp, []) == es;
    assert Members(es) == Members([])[e.key := VNull];
    forall key ensures HasKey(es, key) <==> key == e.key {
      assert !HasKey([], key);
    }
    assert WellFormedEntries(es) <==> !HasKey([], e.key) && WellFormed(e.value) && WellFormedEntries([]);
  }

  ghost predicate OrderInsensitive(cmp: Comparator) {
    forall a, b :: WellFormed(a) && WellFormed(b) && Meaning(a) == Meaning(b) ==> Stable(cmp, a) == Stable(cmp, b)
  }

  /** The text ignores key order exactly when the comparator is zero on equal keys only. */
  lemma OrderInsensitiveIff(cmp: Comparator)
    requires Consistent(cmp)
    ensures OrderInsensitive(cmp) <==> forall k, l :: cmp(k, l) == 0 ==> k == l
  {
    if OrderInsensitive(cmp) {
      forall k, l | cmp(k, l) == 0 ensures k == l {
        if k != l {
          ConfusedKeysDiffer(cmp, k, l);
          assert false;
        }
      }
    } else {
      var a, b :| WellFormed(a) && WellFormed(b) && Meaning(a) == Meaning(b) && Stable(cmp, a) != Stable(cmp, b);
      if forall k, l :: cmp(k, l) == 0 ==> k == l {
        TotalSeparates(cmp, a);
        StableDecides(cmp, a, b);
        assert false;
      }
    }
  }

  lemma {:induction false} TotalSeparates(cmp: Comparator, v: Json)
    requires forall k, l :: cmp(k, l) == 0 ==> k == l
    ensures Separated(cmp, v)
  {
    match v
    case Arr(items) => TotalSeparatesItems(cmp, items);
    case Obj(entries) => TotalSeparatesEntries(cmp, entries);
    case _ =>
  }

  lemma {:induction false} TotalSeparatesItems(cmp: Comparator, items: seq<Json>)
    requires forall k, l :: cmp(k, l) == 0 ==> k == l
    ensures SeparatedItems(cmp, items)
  {
    if items != [] {
      TotalSeparates(cmp, items[0]);
      TotalSeparatesItems(cmp, items[1..]);
    }
  }

  lemma {:induction false} TotalSeparatesEntries(cmp: Comparator, entries: seq<Entry>)
    requires forall k, l :: cmp(k, l) == 0 ==> k == l
    ensures SeparatedEntries(cmp, entries)
  {
    if entries != [] {
      SeparatesMeaning(cmp, entries[0].key, entries[1..]);
      TotalSeparates(cmp, entries[0].value);
      TotalSeparatesEntries(cmp, entries[1..]);
    }
  }

  // ---- The blueprint digest: default sort order ------------------------------------------------

  /** The order of sort() without a comparator: by code units. */
  function ByCodeUnits(a: Units, b: Units): int {
    if a == b then 0
    else if a == [] then -1
    else if b == [] then 1
    else if a[0] != b[0] then a[0] - b[0]
    else ByCodeUnits(a[1..], b[1..])
  }

  lemma {:induction false} CodeUnitsAntisymmetric(a: Units, b: Units)
    ensures ByCodeUnits(a, b) == -ByCodeUnits(b, a) && (ByCodeUnits(a, b) == 0 <==> a == b)
  {
    if a != [] && b != [] && a != b && a[0] == b[0] {
      CodeUnitsAntisymmetric(a[1..], b[1..]);
      assert a == [a[0]] + a[1..] && b == [b[0]] + b[1..];
    }
  }

  lemma {:induction false} CodeUnitsTransitive(a: Units, b: Units, c: Units)
    requires ByCodeUnits(a, b) <= 0 && ByCodeUnits(b, c) <= 0
    ensures ByCodeUnits(a, c) <= 0
  {
    if a != b && b != c && a != [] && b != [] && c != [] && a[0] == b[0] == c[0] {
      CodeUnitsTransitive(a[1..], b[1..], c[1..]);
    }
  }

  lemma {:induction false} CodeUnitsConsistent()
    ensures Consistent(ByCodeUnits) && forall k, l :: ByCodeUnits(k, l) == 0 ==> k == l
  {
    forall a, b ensures (ByCodeUnits(a, b) <= 0 <==> 0 <= ByCodeUnits(b, a)) && (ByCodeUnits(a, b) == 0 ==> a == b) {
      CodeUnitsAntisymmetric(a, b);
    }
    forall a, b, c | ByCodeUnits(a, b) <= 0 && ByCodeUnits(b, c) <= 0 ensures ByCodeUnits(a, c) <= 0 {
      CodeUnitsTransitive(a, b, c);
    }
  }

  /** The blueprint's text needs no condition: it decides equality up to key order. */
  lemma BlueprintTextDecides(a: Json, b: Json)
    requires WellFormed(a) && WellFormed(b)
    ensures Stable(ByCodeUnits, a) == Stable(ByCodeUnits, b) <==> Meaning(a) == Meaning(b)
  {
    CodeUnitsConsistent();
    TotalSeparates(ByCodeUnits, a);
    StableDecides(ByCodeUnits, a, b);
  }
}
