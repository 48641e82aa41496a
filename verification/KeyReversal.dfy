/** For which values the canonical text ignores the order of object keys, exactly. */
module KeyReversal {
  import opened Canonical
  import opened JsonParser
  import opened KeyOrder

  // ---- The same value with every object listed backwards ---------------------------------------

  function Rev(v: Json): Json {
    match v
    case Arr(items) => Arr(RevItems(items))
    case Obj(entries) => Obj(RevEntries(entries))
    case _ => v
  }

  function RevItems(items: seq<Json>): seq<Json> {
    if items == [] then [] else [Rev(items[0])] + RevItems(items[1..])
  }

  function RevEntries(entries: seq<Entry>): (r: seq<Entry>)
    ensures |r| == |entries|
  {
    if entries == [] then [] else RevEntries(entries[1..]) + [Entry(entries[0].key, Rev(entries[0].value))]
  }

  lemma {:induction false} SnocHasKey(entries: seq<Entry>, e: Entry, key: Units)
    ensures HasKey(entries + [e], key) <==> HasKey(entries, key) || key == e.key
  {
    if entries == [] {
      assert [e][1..] == [];
    } else {
      assert (entries + [e])[1..] == entries[1..] + [e];
      SnocHasKey(entries[1..], e, key);
    }
  }

  lemma {:induction false} SnocMembers(entries: seq<Entry>, e: Entry)
    requires !HasKey(entries, e.key) && WellFormedEntries(entries) && WellFormed(e.value)
    ensures WellFormedEntries(entries + [e])
    ensures Members(entries + [e]) == Members(entries)[e.key := Meaning(e.value)]
  {
    if entries == [] {
      assert [e][1..] == [];
    } else {
      assert (entries + [e])[1..] == entries[1..] + [e];
      SnocMembers(entries[1..], e);
      SnocHasKey(entries[1..], e, entries[0].key);
    }
  }

  lemma {:induction false} RevMeans(v: Json)
    requires WellFormed(v)
    ensures WellFormed(Rev(v)) && Meaning(Rev(v)) == Meaning(v)
  {
    match v
    case Arr(items) => RevItemsMean(items);
    case Obj(entries) => RevEntriesMean(entries);
    case _ =>
  }

  lemma {:induction false} RevItemsMean(items: seq<Json>)
    requires WellFormedItems(items)
    ensures WellFormedItems(RevItems(items)) && ItemMeanings(RevItems(items)) == ItemMeanings(items)
  {
    if items != [] {
      RevMeans(items[0]);
      RevItemsMean(items[1..]);
      assert RevItems(items)[1..] == RevItems(items[1..]);
    }
  }

  lemma {:induction false} RevEntriesMean(entries: seq<Entry>)
    requires WellFormedEntries(entries)
    ensures WellFormedEntries(RevEntries(entries)) && Members(RevEntries(entries)) == Members(entries)
    ensures forall key :: HasKey(RevEntries(entries), key) <==> HasKey(entries, key)
  {
    if entries != [] {
      var rest, last := RevEntries(entries[1..]), Entry(entries[0].key, Rev(entries[0].value));
      RevMeans(entries[0].value);
      RevEntriesMean(entries[1..]);
      SnocMembers(rest, last);
      forall key ensures HasKey(rest + [last], key) <==> HasKey(entries, key) {
        SnocHasKey(rest, last, key);
      }
    }
  }

  // ---- Keys the comparator ties ----------------------------------------------------------------

  lemma TiedStep(cmp: Comparator, key: Units, entries: seq<Entry>)
    requires entries != []
    ensures var tied := Tied(cmp, key, entries[1..]);
      Tied(cmp, key, entries) == if cmp(key, entries[0].key) == 0 then [entries[0]] + tied else tied
  {
    assert [] + Tied(cmp, key, entries[1..]) == Tied(cmp, key, entries[1..]);
  }

  lemma {:induction false} TiedConcat(cmp: Comparator, key: Units, a: seq<Entry>, b: seq<Entry>)
    ensures Tied(cmp, key, a + b) == Tied(cmp, key, a) + Tied(cmp, key, b)
  {
    if a == [] {
      assert a + b == b;
    } else {
      assert (a + b)[1..] == a[1..] + b;
      TiedConcat(cmp, key, a[1..], b);
    }
  }

  lemma {:induction false} RevSnoc(entries: seq<Entry>, rest: seq<Entry>)
    ensures RevEntries(entries + rest) == RevEntries(rest) + RevEntries(entries)
  {
    if entries == [] {
      assert entries + rest == rest;
    } else {
      assert (entries + rest)[1..] == entries[1..] + rest;
      RevSnoc(entries[1..], rest);
    }
  }

  /** Listing an object backwards lists its tied keys backwards. */
  lemma {:induction false} TiedRev(cmp: Comparator, key: Units, entries: seq<Entry>)
    ensures Tied(cmp, key, RevEntries(entries)) == RevEntries(Tied(cmp, key, entries))
  {
    if entries != [] {
      var first, rest := entries[0], entries[1..];
      var last := Entry(first.key, Rev(first.value));
      TiedStep(cmp, key, entries);
      TiedRev(cmp, key, rest);
      TiedConcat(cmp, key, RevEntries(rest), [last]);
      assert [last][1..] == [];
      assert Tied(cmp, key, [last]) == if cmp(key, first.key) == 0 then [last] else [];
      if cmp(key, first.key) == 0 {
        RevSnoc([first], Tied(cmp, key, rest));
        assert [first][1..] == [];
        assert RevEntries([first]) == [last];
      }
    }
  }

  lemma {:induction false} TiedCanon(cmp: Comparator, key: Units, entries: seq<Entry>)
    ensures Tied(cmp, key, CanonEntries(cmp, entries)) == CanonEntries(cmp, Tied(cmp, key, entries))
  {
    if entries != [] {
      assert CanonEntries(cmp, entries)[1..] == CanonEntries(cmp, entries[1..]);
      TiedStep(cmp, key, entries);
      TiedStep(cmp, key, CanonEntries(cmp, entries));
      TiedCanon(cmp, key, entries[1..]);
      var tied := Tied(cmp, key, entries[1..]);
      assert ([entries[0]] + tied)[1..] == tied;
    }
  }

  /** So where the backward listing has the same canonical form, so has each group of tied keys. */
  lemma TiesAgree(cmp: Comparator, entries: seq<Entry>, key: Units)
    requires Consistent(cmp)
    requires CanonEntries(cmp, Sorted(cmp, entries)) == CanonEntries(cmp, Sorted(cmp, RevEntries(entries)))
    ensures var tied := Tied(cmp, key, entries); CanonEntries(cmp, tied) == CanonEntries(cmp, RevEntries(tied))
  {
    var back := RevEntries(entries);
    TiedCanon(cmp, key, Sorted(cmp, entries));
    TiedCanon(cmp, key, Sorted(cmp, back));
    SortIsStable(cmp, entries, key);
    SortIsStable(cmp, back, key);
    TiedRev(cmp, key, entries);
  }

  lemma {:induction false} TiedKeys(cmp: Comparator, key: Units, entries: seq<Entry>)
    requires WellFormedEntries(entries)
    ensures WellFormedEntries(Tied(cmp, key, entries))
    ensures forall other :: HasKey(Tied(cmp, key, entries), other) ==> HasKey(entries, other)
  {
    if entries != [] {
      var tied := Tied(cmp, key, entries[1..]);
      TiedStep(cmp, key, entries);
      TiedKeys(cmp, key, entries[1..]);
      assert ([entries[0]] + tied)[1..] == tied;
    }
  }

  lemma {:induction false} EachHasKey(entries: seq<Entry>, i: nat)
    requires i < |entries|
    ensures HasKey(entries, entries[i].key)
  {
    if i > 0 {
      EachHasKey(entries[1..], i - 1);
    }
  }

  lemma CanonFirstKey(cmp: Comparator, entries: seq<Entry>)
    requires entries != []
    ensures CanonEntries(cmp, entries) != [] && CanonEntries(cmp, entries)[0].key == entries[0].key
  {
  }

  lemma {:induction false} RevFirst(entries: seq<Entry>)
    requires entries != []
    ensures RevEntries(entries)[0] == Entry(entries[|entries| - 1].key, Rev(entries[|entries| - 1].value))
  {
    if |entries| > 1 {
      RevFirst(entries[1..]);
    }
  }

  /** Distinct keys that read the same both ways are at most one. */
  lemma AtMostOneTied(cmp: Comparator, tied: seq<Entry>)
    requires WellFormedEntries(tied) && CanonEntries(cmp, tied) == CanonEntries(cmp, RevEntries(tied))
    ensures |tied| <= 1
  {
    if |tied| > 1 {
      CanonFirstKey(cmp, tied);
      CanonFirstKey(cmp, RevEntries(tied));
      RevFirst(tied);
      EachHasKey(tied[1..], |tied| - 2);
      assert false;
    }
  }

  // ---- Only separated values survive -----------------------------------------------------------

  lemma {:induction false} TiedHas(cmp: Comparator, entries: seq<Entry>, i: nat)
    requires Consistent(cmp) && i < |entries|
    ensures entries[i] in Tied(cmp, entries[i].key, entries)
  {
    if i == 0 {
      assert cmp(entries[0].key, entries[0].key) == 0;
    } else {
      TiedHas(cmp, entries[1..], i - 1);
    }
  }

  lemma {:induction false} NoneTied(cmp: Comparator, key: Units, entries: seq<Entry>)
    requires Tied(cmp, key, entries) == []
    ensures SeparatesKey(cmp, key, entries)
  {
    if entries != [] {
      NoneTied(cmp, key, entries[1..]);
    }
  }

  lemma {:induction false} AloneMeansSeparated(cmp: Comparator, entries: seq<Entry>)
    requires Consistent(cmp)
    requires forall key :: |Tied(cmp, key, entries)| <= 1
    requires forall i :: 0 <= i < |entries| ==> Separated(cmp, entries[i].value)
    ensures SeparatedEntries(cmp, entries)
  {
    if entries != [] {
      var rest := entries[1..];
      assert forall key :: |Tied(cmp, key, rest)| <= |Tied(cmp, key, entries)|;
      assert forall i :: 0 <= i < |rest| ==> rest[i] == entries[i + 1];
      AloneMeansSeparated(cmp, rest);
      assert cmp(entries[0].key, entries[0].key) == 0;
      assert |Tied(cmp, entries[0].key, entries)| <= 1;
      NoneTied(cmp, entries[0].key, rest);
    }
  }

  lemma {:induction false} SizeMember(entries: seq<Entry>, i: nat)
    requires i < |entries|
    ensures Size(entries[i].value) < SizeEntries(entries)
  {
    if i > 0 {
      SizeMember(entries[1..], i - 1);
    }
  }

  /** The value of an entry that nothing ties has the same canonical form backwards. */
  lemma AloneValue(cmp: Comparator, entries: seq<Entry>, i: nat)
    requires Consistent(cmp) && i < |entries|
    requires var tied := Tied(cmp, entries[i].key, entries);
      |tied| <= 1 && CanonEntries(cmp, tied) == CanonEntries(cmp, RevEntries(tied))
    ensures Canon(cmp, entries[i].value) == Canon(cmp, Rev(entries[i].value))
  {
    var e := entries[i];
    var tied := Tied(cmp, e.key, entries);
    TiedHas(cmp, entries, i);
    assert tied == [e];
    RevFirst(tied);
    assert CanonEntries(cmp, tied)[0].value == CanonEntries(cmp, RevEntries(tied))[0].value;
  }

  lemma {:induction false} RevSeparates(cmp: Comparator, v: Json)
    requires Consistent(cmp) && WellFormed(v) && Canon(cmp, v) == Canon(cmp, Rev(v))
    ensures Separated(cmp, v)
    decreases Size(v)
  {
    match v
    case Arr(items) => RevSeparatesItems(cmp, items);
    case Obj(entries) =>
      forall key ensures |Tied(cmp, key, entries)| <= 1 {
        TiesAgree(cmp, entries, key);
        TiedKeys(cmp, key, entries);
        AtMostOneTied(cmp, Tied(cmp, key, entries));
      }
      forall i | 0 <= i < |entries| ensures Separated(cmp, entries[i].value) {
        TiesAgree(cmp, entries, entries[i].key);
        AloneValue(cmp, entries, i);
        SizeMember(entries, i);
        EachWellFormed(entries, i);
        RevSeparates(cmp, entries[i].value);
      }
      AloneMeansSeparated(cmp, entries);
    case _ =>
  }

  lemma {:induction false} EachWellFormed(entries: seq<Entry>, i: nat)
    requires i < |entries| && WellFormedEntries(entries)
    ensures WellFormed(entries[i].value)
  {
    if i > 0 {
      EachWellFormed(entries[1..], i - 1);
    }
  }

  lemma {:induction false} RevSeparatesItems(cmp: Comparator, items: seq<Json>)
    requires Consistent(cmp) && WellFormedItems(items)
    requires CanonItems(cmp, items) == CanonItems(cmp, RevItems(items))
    ensures SeparatedItems(cmp, items)
    decreases SizeItems(items)
  {
    if items != [] {
      var back := RevItems(items);
      assert back[1..] == RevItems(items[1..]);
      assert CanonItems(cmp, items)[0] == CanonItems(cmp, back)[0];
      assert CanonItems(cmp, items)[1..] == CanonItems(cmp, items[1..]);
      assert CanonItems(cmp, back)[1..] == CanonItems(cmp, back[1..]);
      RevSeparates(cmp, items[0]);
      RevSeparatesItems(cmp, items[1..]);
    }
  }

  lemma SameTextSameCanon(cmp: Comparator, a: Json, b: Json)
    requires Stable(cmp, a) == Stable(cmp, b)
    ensures Canon(cmp, a) == Canon(cmp, b)
  {
    StableRoundTrip(cmp, a);
    StableRoundTrip(cmp, b);
  }

  /** No listing of the value's keys in another order changes its text. */
  ghost predicate IgnoresKeyOrder(cmp: Comparator, a: Json) {
    forall b :: WellFormed(b) && Meaning(b) == Meaning(a) ==> Stable(cmp, b) == Stable(cmp, a)
  }

  /** A value's text ignores key order exactly when, in each of its objects, the comparator tells the keys
      apart: listing every object backwards already shows a tie. */
  lemma {:induction false} IgnoresKeyOrderIff(cmp: Comparator, a: Json)
    requires Consistent(cmp) && WellFormed(a)
    ensures IgnoresKeyOrder(cmp, a) <==> Separated(cmp, a)
  {
    if IgnoresKeyOrder(cmp, a) {
      RevMeans(a);
      SameTextSameCanon(cmp, Rev(a), a);
      RevSeparates(cmp, a);
    }
    if Separated(cmp, a) {
      forall b | WellFormed(b) && Meaning(b) == Meaning(a) ensures Stable(cmp, b) == Stable(cmp, a) {
        StableDecides(cmp, a, b);
      }
    }
  }
}
