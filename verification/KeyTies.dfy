/** When two values have the same canonical text, for every comparator: equal up to key order, with the keys
    the comparator ties in the same order. */
module KeyTies {
  import opened Canonical
  import opened JsonParser
  import opened KeyOrder
  import opened KeyReversal

  function Keys(entries: seq<Entry>): seq<Units> {
    if entries == [] then [] else [entries[0].key] + Keys(entries[1..])
  }

  ghost predicate SameTies(cmp: Comparator, left: seq<Entry>, right: seq<Entry>) {
    forall key :: Keys(Tied(cmp, key, left)) == Keys(Tied(cmp, key, right))
  }

  /** In objects that correspond, keys the comparator ties come in the same order. */
  ghost predicate TiesAlike(cmp: Comparator, a: Json, b: Json) {
    match a
    case Arr(items) =>
      b.Arr? && |items| == |b.items| && forall i :: 0 <= i < |items| ==> TiesAlike(cmp, items[i], b.items[i])
    case Obj(entries) =>
      && b.Obj?
      && SameTies(cmp, entries, b.entries)
      && forall i, j :: 0 <= i < |entries| && 0 <= j < |b.entries| && entries[i].key == b.entries[j].key ==>
           TiesAlike(cmp, entries[i].value, b.entries[j].value)
    case _ => true
  }

  ghost predicate ValuesAlike(cmp: Comparator, left: seq<Entry>, right: seq<Entry>) {
    forall e, f :: e in left && f in right && e.key == f.key ==> TiesAlike(cmp, e.value, f.value)
  }

  // ---- Sorting and canonical form by position --------------------------------------------------

  lemma {:induction false} InsertIn(cmp: Comparator, e: Entry, entries: seq<Entry>)
    ensures forall f :: f in Insert(cmp, e, entries) <==> f == e || f in entries
  {
    if !(entries == [] || cmp(e.key, entries[0].key) <= 0) {
      InsertIn(cmp, e, entries[1..]);
      assert entries == [entries[0]] + entries[1..];
    }
  }

  lemma {:induction false} SortedIn(cmp: Comparator, entries: seq<Entry>)
    ensures forall f :: f in Sorted(cmp, entries) <==> f in entries
  {
    if entries != [] {
      SortedIn(cmp, entries[1..]);
      InsertIn(cmp, entries[0], Sorted(cmp, entries[1..]));
      assert entries == [entries[0]] + entries[1..];
    }
  }

  lemma {:induction false} CanonAt(cmp: Comparator, entries: seq<Entry>)
    ensures |CanonEntries(cmp, entries)| == |entries|
    ensures forall i :: 0 <= i < |entries| ==>
      CanonEntries(cmp, entries)[i] == Entry(entries[i].key, Canon(cmp, entries[i].value))
  {
    if entries != [] {
      CanonAt(cmp, entries[1..]);
    }
  }

  lemma {:induction false} CanonKeys(cmp: Comparator, entries: seq<Entry>)
    ensures Keys(CanonEntries(cmp, entries)) == Keys(entries)
  {
    if entries != [] {
      CanonKeys(cmp, entries[1..]);
      assert CanonEntries(cmp, entries)[1..] == CanonEntries(cmp, entries[1..]);
    }
  }

  lemma {:induction false} OneIndexPerKey(entries: seq<Entry>, i: nat, j: nat)
    requires WellFormedEntries(entries) && i < |entries| && j < |entries| && entries[i].key == entries[j].key
    ensures i == j
  {
    if i > 0 && j > 0 {
      OneIndexPerKey(entries[1..], i - 1, j - 1);
    } else if i > 0 {
      EachHasKey(entries[1..], i - 1);
    } else if j > 0 {
      EachHasKey(entries[1..], j - 1);
    }
  }

  // ---- Same text, same ties --------------------------------------------------------------------

  lemma SameCanonTies(cmp: Comparator, left: seq<Entry>, right: seq<Entry>, key: Units)
    requires Consistent(cmp) && CanonEntries(cmp, Sorted(cmp, left)) == CanonEntries(cmp, Sorted(cmp, right))
    ensures Keys(Tied(cmp, key, left)) == Keys(Tied(cmp, key, right))
  {
    TiedCanon(cmp, key, Sorted(cmp, left));
    TiedCanon(cmp, key, Sorted(cmp, right));
    SortIsStable(cmp, left, key);
    SortIsStable(cmp, right, key);
    CanonKeys(cmp, Tied(cmp, key, left));
    CanonKeys(cmp, Tied(cmp, key, right));
  }

  lemma SameCanonValue(cmp: Comparator, left: seq<Entry>, right: seq<Entry>, e: Entry, f: Entry)
    requires WellFormedEntries(left) && WellFormedEntries(right)
    requires CanonEntries(cmp, Sorted(cmp, left)) == CanonEntries(cmp, Sorted(cmp, right))
    requires e in left && f in right && e.key == f.key
    ensures Canon(cmp, e.value) == Canon(cmp, f.value)
  {
    var l, r := Sorted(cmp, left), Sorted(cmp, right);
    SortedIn(cmp, left);
    SortedIn(cmp, right);
    SortKeepsMembers(cmp, left);
    var p :| 0 <= p < |l| && l[p] == e;
    var q :| 0 <= q < |r| && r[q] == f;
    CanonAt(cmp, l);
    CanonAt(cmp, r);
    assert l[q].key == CanonEntries(cmp, l)[q].key == r[q].key;
    OneIndexPerKey(l, p, q);
  }

  lemma {:induction false} SameCanonTiesAlike(cmp: Comparator, a: Json, b: Json)
    requires Consistent(cmp) && WellFormed(a) && WellFormed(b) && Canon(cmp, a) == Canon(cmp, b)
    ensures TiesAlike(cmp, a, b)
    decreases Size(a)
  {
    match a
    case Arr(items) =>
      CanonItemAt(cmp, items);
      CanonItemAt(cmp, b.items);
      forall i | 0 <= i < |items| ensures TiesAlike(cmp, items[i], b.items[i]) {
        EachItem(items, i);
        EachItem(b.items, i);
        assert CanonItems(cmp, items)[i] == CanonItems(cmp, b.items)[i];
        SameCanonTiesAlike(cmp, items[i], b.items[i]);
      }
    case Obj(entries) =>
      forall key ensures Keys(Tied(cmp, key, entries)) == Keys(Tied(cmp, key, b.entries)) {
        SameCanonTies(cmp, entries, b.entries, key);
      }
      forall i, j | 0 <= i < |entries| && 0 <= j < |b.entries| && entries[i].key == b.entries[j].key
        ensures TiesAlike(cmp, entries[i].value, b.entries[j].value)
      {
        SameCanonValue(cmp, entries, b.entries, entries[i], b.entries[j]);
        EachWellFormed(entries, i);
        EachWellFormed(b.entries, j);
        SizeMember(entries, i);
        SameCanonTiesAlike(cmp, entries[i].value, b.entries[j].value);
      }
    case _ =>
  }

  lemma {:induction false} CanonItemAt(cmp: Comparator, items: seq<Json>)
    ensures |CanonItems(cmp, items)| == |items|
    ensures forall i :: 0 <= i < |items| ==> CanonItems(cmp, items)[i] == Canon(cmp, items[i])
  {
    if items != [] {
      CanonItemAt(cmp, items[1..]);
    }
  }

  lemma {:induction false} EachItem(items: seq<Json>, i: nat)
    requires i < |items| && WellFormedItems(items)
    ensures WellFormed(items[i]) && Size(items[i]) < SizeItems(items)
  {
    if i > 0 {
      EachItem(items[1..], i - 1);
    }
  }

  // ---- Same ties, same text --------------------------------------------------------------------

  /** The first entry leads the keys tied with it. */
  lemma FirstLeads(cmp: Comparator, entries: seq<Entry>, key: Units)
    requires entries != [] && cmp(key, entries[0].key) == 0
    ensures Keys(Tied(cmp, key, entries)) == [entries[0].key] + Keys(Tied(cmp, key, entries[1..]))
  {
    TiedStep(cmp, key, entries);
    assert ([entries[0]] + Tied(cmp, key, entries[1..]))[1..] == Tied(cmp, key, entries[1..]);
  }

  lemma SameLeader(cmp: Comparator, left: seq<Entry>, right: seq<Entry>)
    requires Consistent(cmp) && Ordered(cmp, left) && Ordered(cmp, right)
    requires Members(left) == Members(right) && SameTies(cmp, left, right) && left != []
    ensures right != [] && left[0].key == right[0].key
  {
    var key := left[0].key;
    MembersKeys(left, key);
    MembersKeys(right, key);
    var other := right[0].key;
    MembersKeys(left, other);
    MembersKeys(right, other);
    FirstIsLeast(cmp, left, other);
    FirstIsLeast(cmp, right, key);
    assert cmp(key, other) == 0 && cmp(key, key) == 0;
    FirstLeads(cmp, left, key);
    FirstLeads(cmp, right, key);
    assert Keys(Tied(cmp, key, left))[0] == Keys(Tied(cmp, key, right))[0];
  }

  lemma RestTies(cmp: Comparator, left: seq<Entry>, right: seq<Entry>)
    requires SameTies(cmp, left, right) && left != [] && right != [] && left[0].key == right[0].key
    ensures SameTies(cmp, left[1..], right[1..])
  {
    forall key ensures Keys(Tied(cmp, key, left[1..])) == Keys(Tied(cmp, key, right[1..])) {
      assert Keys(Tied(cmp, key, left)) == Keys(Tied(cmp, key, right));
      if cmp(key, left[0].key) == 0 {
        FirstLeads(cmp, left, key);
        FirstLeads(cmp, right, key);
        assert Keys(Tied(cmp, key, left))[1..] == Keys(Tied(cmp, key, left[1..]));
        assert Keys(Tied(cmp, key, right))[1..] == Keys(Tied(cmp, key, right[1..]));
      } else {
        TiedStep(cmp, key, left);
        TiedStep(cmp, key, right);
      }
    }
  }

  lemma RestMembers(left: seq<Entry>, right: seq<Entry>)
    requires WellFormedEntries(left) && WellFormedEntries(right) && Members(left) == Members(right)
    requires left != [] && right != [] && left[0].key == right[0].key
    ensures Meaning(left[0].value) == Meaning(right[0].value) && Members(left[1..]) == Members(right[1..])
  {
    var key := left[0].key;
    MembersKeys(left[1..], key);
    MembersKeys(right[1..], key);
    assert Members(left)[key] == Members(right)[key];
    assert Members(left[1..]) == Members(left) - {key} == Members(right) - {key} == Members(right[1..]);
  }

  lemma {:induction false} TiesAlikeSameEntries(cmp: Comparator, left: seq<Entry>, right: seq<Entry>)
    requires Consistent(cmp) && WellFormedEntries(left) && WellFormedEntries(right)
    requires Ordered(cmp, left) && Ordered(cmp, right) && Members(left) == Members(right)
    requires SameTies(cmp, left, right) && ValuesAlike(cmp, left, right)
    ensures CanonEntries(cmp, left) == CanonEntries(cmp, right)
    decreases SizeEntries(left)
  {
    if left != [] {
      SameLeader(cmp, left, right);
      RestMembers(left, right);
      RestTies(cmp, left, right);
      TiesAlikeSameCanon(cmp, left[0].value, right[0].value);
      assert forall e :: e in left[1..] ==> e in left;
      assert forall f :: f in right[1..] ==> f in right;
      TiesAlikeSameEntries(cmp, left[1..], right[1..]);
    } else if right != [] {
      HasMembers(right);
      assert false;
    }
  }

  lemma {:induction false} SortedAlike(cmp: Comparator, left: seq<Entry>, right: seq<Entry>)
    requires Consistent(cmp) && SameTies(cmp, left, right)
    ensures SameTies(cmp, Sorted(cmp, left), Sorted(cmp, right))
  {
    forall key ensures Keys(Tied(cmp, key, Sorted(cmp, left))) == Keys(Tied(cmp, key, Sorted(cmp, right))) {
      SortIsStable(cmp, left, key);
      SortIsStable(cmp, right, key);
    }
  }

  lemma {:induction false} TiesAlikeSameCanon(cmp: Comparator, a: Json, b: Json)
    requires Consistent(cmp) && WellFormed(a) && WellFormed(b)
    requires Meaning(a) == Meaning(b) && TiesAlike(cmp, a, b)
    ensures Canon(cmp, a) == Canon(cmp, b)
    decreases Size(a)
  {
    match a
    case Arr(items) => TiesAlikeSameItems(cmp, items, b.items);
    case Obj(entries) =>
      SortKeepsMembers(cmp, entries);
      SortKeepsMembers(cmp, b.entries);
      SortOrders(cmp, entries);
      SortOrders(cmp, b.entries);
      SortedIn(cmp, entries);
      SortedIn(cmp, b.entries);
      SortedAlike(cmp, entries, b.entries);
      TiesAlikeSameEntries(cmp, Sorted(cmp, entries), Sorted(cmp, b.entries));
    case _ =>
  }

  lemma {:induction false} TiesAlikeSameItems(cmp: Comparator, items: seq<Json>, others: seq<Json>)
    requires Consistent(cmp) && WellFormedItems(items) && WellFormedItems(others)
    requires ItemMeanings(items) == ItemMeanings(others)
    requires |items| == |others| && forall i :: 0 <= i < |items| ==> TiesAlike(cmp, items[i], others[i])
    ensures CanonItems(cmp, items) == CanonItems(cmp, others)
    decreases SizeItems(items)
  {
    if items != [] {
      assert ItemMeanings(items)[1..] == ItemMeanings(items[1..]) && ItemMeanings(others)[1..] == ItemMeanings(others[1..]);
      assert ItemMeanings(items)[0] == ItemMeanings(others)[0];
      TiesAlikeSameCanon(cmp, items[0], others[0]);
      TiesAlikeSameItems(cmp, items[1..], others[1..]);
    }
  }

  /** The canonical text decides, for every comparator, exactly equality up to the order of untied keys. */
  lemma {:induction false} SameTextIff(cmp: Comparator, a: Json, b: Json)
    requires Consistent(cmp) && WellFormed(a) && WellFormed(b)
    ensures Stable(cmp, a) == Stable(cmp, b) <==> Meaning(a) == Meaning(b) && TiesAlike(cmp, a, b)
  {
    if Stable(cmp, a) == Stable(cmp, b) {
      StableInjective(cmp, a, b);
      SameTextSameCanon(cmp, a, b);
      SameCanonTiesAlike(cmp, a, b);
    } else if Meaning(a) == Meaning(b) && TiesAlike(cmp, a, b) {
      TiesAlikeSameCanon(cmp, a, b);
      StableIsPrint(cmp, a);
      StableIsPrint(cmp, b);
      assert false;
    }
  }
}
