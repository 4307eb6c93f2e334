/**
 * The two forms of a query: the string a client signs, and the record a server builds from it,
 * which groups the values of each key and lists its keys in an order of its own. Laid out again,
 * the record is the string's pairs sorted by that order.
 */
module QueryForms {
  import opened Sorting
  import opened CanonicalQuery
  import D = Domain

  // ----- the record a server builds from a query -----

  /** One more pair: a new field, or one more value of a field already there. */
  function AddPair(entries: seq<Entry>, p: Pair): seq<Entry>
  {
    if entries == [] then [Entry(p.key, One(p.value))]
    else if entries[0].key != p.key then [entries[0]] + AddPair(entries[1..], p)
    else match entries[0].field
      case Undefined => [Entry(p.key, One(p.value))] + entries[1..]
      case One(value) => [Entry(p.key, Many([value, p.value]))] + entries[1..]
      case Many(values) => [Entry(p.key, Many(values + [p.value]))] + entries[1..]
  }

  function Group(pairs: seq<Pair>): seq<Entry>
  {
    if pairs == [] then [] else AddPair(Group(pairs[..|pairs| - 1]), pairs[|pairs| - 1])
  }

  lemma AddValueAdds(entries: seq<Entry>, p: Pair)
    requires entries != [] && entries[0].key == p.key
    ensures Flatten(AddPair(entries, p)) == FieldPairs(entries[0]) + [p] + Flatten(entries[1..])
  {
    assert AddPair(entries, p)[1..] == entries[1..];
    assert FieldPairs(AddPair(entries, p)[0]) == FieldPairs(entries[0]) + [p];
  }

  // ----- grouping keeps the order within each key -----

  /** Where a key first appears, or the number of pairs. */
  function First(pairs: seq<Pair>, key: Text): (n: nat)
    ensures n <= |pairs|
    ensures n < |pairs| ==> pairs[n].key == key
    ensures forall k :: 0 <= k < n ==> pairs[k].key != key
  {
    if pairs == [] || pairs[0].key == key then 0 else 1 + First(pairs[1..], key)
  }

  /** The pairs of one key, in order. */
  function OfKey(pairs: seq<Pair>, key: Text): seq<Pair>
  {
    if pairs == [] then [] else (if pairs[0].key == key then [pairs[0]] else []) + OfKey(pairs[1..], key)
  }

  lemma {:induction false} OfKeyJoins(p: seq<Pair>, q: seq<Pair>, key: Text)
    ensures OfKey(p + q, key) == OfKey(p, key) + OfKey(q, key)
  {
    if p == [] {
      assert p + q == q;
    } else {
      OfKeyJoins(p[1..], q, key);
      assert (p + q)[0] == p[0] && (p + q)[1..] == p[1..] + q;
      var own := if p[0].key == key then [p[0]] else [];
      assert own + (OfKey(p[1..], key) + OfKey(q, key)) == own + OfKey(p[1..], key) + OfKey(q, key);
    }
  }

  predicate DistinctKeys(entries: seq<Entry>) { forall j, k :: 0 <= j < k < |entries| ==> entries[j].key != entries[k].key }

  lemma {:induction false} OfKeyOfField(values: seq<Pair>, key: Text, own: Text)
    requires forall k :: 0 <= k < |values| ==> values[k].key == own
    ensures OfKey(values, key) == if own == key then values else []
  {
    if values != [] {
      OfKeyOfField(values[1..], key, own);
      assert values == [values[0]] + values[1..];
    }
  }

  /** One more pair goes to the end of its key. */
  lemma {:induction false} AddPairKeepsOrder(entries: seq<Entry>, p: Pair, key: Text)
    requires DistinctKeys(entries)
    ensures OfKey(Flatten(AddPair(entries, p)), key) == OfKey(Flatten(entries), key) + (if p.key == key then [p] else [])
  {
    var more := AddPair(entries, p);
    if entries == [] {
      assert more[1..] == [];
    } else if entries[0].key != p.key {
      AddPairKeepsOrder(entries[1..], p, key);
      assert more[0] == entries[0] && more[1..] == AddPair(entries[1..], p);
      OfKeyFlatten(more, key);
      OfKeyFlatten(entries, key);
    } else {
      AddToFirstKeepsOrder(entries, p, key);
    }
  }

  lemma AddToFirstKeepsOrder(entries: seq<Entry>, p: Pair, key: Text)
    requires DistinctKeys(entries) && entries != [] && entries[0].key == p.key
    ensures OfKey(Flatten(AddPair(entries, p)), key) == OfKey(Flatten(entries), key) + (if p.key == key then [p] else [])
  {
    AddValueAdds(entries, p);
    RestHasOtherKeys(entries, key);
    ValueGoesLast(FieldPairs(entries[0]), p, Flatten(entries[1..]), key);
  }

  lemma RestHasOtherKeys(entries: seq<Entry>, key: Text)
    requires DistinctKeys(entries) && entries != []
    ensures entries[0].key == key ==> OfKey(Flatten(entries[1..]), key) == []
  {
    if entries[0].key == key { OtherKeysOnly(entries[1..], key); }
  }

  lemma ValueGoesLast(own: seq<Pair>, p: Pair, rest: seq<Pair>, key: Text)
    requires key == p.key ==> OfKey(rest, key) == []
    ensures OfKey(own + [p] + rest, key) == OfKey(own + rest, key) + (if p.key == key then [p] else [])
  {
    OfKeyJoins(own, rest, key);
    OfKeyJoins(own + [p], rest, key);
    OfKeyJoins(own, [p], key);
    assert OfKey([p], key) == if p.key == key then [p] else [];
  }

  lemma OfKeyFlatten(entries: seq<Entry>, key: Text)
    requires entries != []
    ensures OfKey(Flatten(entries), key) == OfKey(FieldPairs(entries[0]), key) + OfKey(Flatten(entries[1..]), key)
  {
    OfKeyJoins(FieldPairs(entries[0]), Flatten(entries[1..]), key);
  }

  lemma {:induction false} OtherKeysOnly(entries: seq<Entry>, key: Text)
    requires forall k :: 0 <= k < |entries| ==> entries[k].key != key
    ensures OfKey(Flatten(entries), key) == []
  {
    if entries != [] {
      OtherKeysOnly(entries[1..], key);
      OfKeyJoins(FieldPairs(entries[0]), Flatten(entries[1..]), key);
      OfKeyOfField(FieldPairs(entries[0]), key, entries[0].key);
    }
  }

  lemma FirstOfMore(most: seq<Pair>, last: Pair, key: Text)
    ensures First(most + [last], key) ==
      if First(most, key) < |most| then First(most, key) else if last.key == key then |most| else |most| + 1
  {
    var n := First(most + [last], key);
    assert forall k :: 0 <= k < |most| ==> (most + [last])[k] == most[k];
    assert (most + [last])[|most|] == last;
  }

  predicate HasKey(entries: seq<Entry>, key: Text) { exists j :: 0 <= j < |entries| && entries[j].key == key }

  /** A new key goes last. */
  lemma {:induction false} NewKeyGoesLast(entries: seq<Entry>, p: Pair)
    requires !HasKey(entries, p.key)
    ensures AddPair(entries, p) == entries + [Entry(p.key, One(p.value))]
  {
    if entries != [] {
      assert forall k :: 0 <= k < |entries[1..]| ==> entries[1..][k] == entries[k + 1];
      NewKeyGoesLast(entries[1..], p);
      assert entries == [entries[0]] + entries[1..];
    }
  }

  /** A key that is there changes no key. */
  lemma {:induction false} OldKeyStays(entries: seq<Entry>, p: Pair)
    requires HasKey(entries, p.key)
    ensures var more := AddPair(entries, p);
      |more| == |entries| && forall k :: 0 <= k < |entries| ==> more[k].key == entries[k].key
  {
    if entries[0].key != p.key {
      var j :| 0 <= j < |entries| && entries[j].key == p.key;
      assert entries[1..][j - 1].key == p.key;
      OldKeyStays(entries[1..], p);
    }
  }

  /** The keys of a record, in the order they first appear. */
  predicate InOrder(entries: seq<Entry>, pairs: seq<Pair>)
  {
    && (forall k :: 0 <= k < |entries| ==> First(pairs, entries[k].key) < |pairs|)
    && (forall j, k :: 0 <= j < k < |entries| ==> First(pairs, entries[j].key) < First(pairs, entries[k].key))
  }

  lemma NewKeyInOrder(entries: seq<Entry>, most: seq<Pair>, p: Pair)
    requires InOrder(entries, most) && First(most, p.key) == |most|
    ensures InOrder(entries + [Entry(p.key, One(p.value))], most + [p])
  {
    var more := entries + [Entry(p.key, One(p.value))];
    forall k | 0 <= k < |more|
      ensures First(most + [p], more[k].key) == if k < |entries| then First(most, entries[k].key) else |most|
    {
      FirstOfMore(most, p, more[k].key);
    }
  }

  lemma SameKeysInOrder(entries: seq<Entry>, more: seq<Entry>, most: seq<Pair>, p: Pair)
    requires InOrder(entries, most)
    requires |more| == |entries| && forall k :: 0 <= k < |entries| ==> more[k].key == entries[k].key
    ensures InOrder(more, most + [p])
  {
    forall k | 0 <= k < |more|
      ensures First(most + [p], more[k].key) == First(most, entries[k].key)
    {
      FirstOfMore(most, p, more[k].key);
    }
  }

  lemma AddPairCovers(entries: seq<Entry>, p: Pair, key: Text)
    ensures HasKey(AddPair(entries, p), key) <==> HasKey(entries, key) || key == p.key
  {
    var more := AddPair(entries, p);
    if HasKey(entries, p.key) {
      OldKeyStays(entries, p);
      assert HasKey(more, key) ==> HasKey(entries, key);
      if HasKey(entries, key) {
        var j :| 0 <= j < |entries| && entries[j].key == key;
        assert more[j].key == key;
      }
    } else {
      NewKeyGoesLast(entries, p);
      assert more[|entries|].key == p.key;
      assert forall k :: 0 <= k < |entries| ==> more[k] == entries[k];
    }
  }

  /** A record has the keys of its pairs, in order of first appearance. */
  lemma {:induction false} GroupInOrder(pairs: seq<Pair>)
    ensures InOrder(Group(pairs), pairs)
    ensures forall key :: HasKey(Group(pairs), key) <==> First(pairs, key) < |pairs|
  {
    if pairs != [] {
      var most, last := pairs[..|pairs| - 1], pairs[|pairs| - 1];
      GroupInOrder(most);
      assert pairs == most + [last];
      if HasKey(Group(most), last.key) {
        OldKeyStays(Group(most), last);
        SameKeysInOrder(Group(most), Group(pairs), most, last);
      } else {
        NewKeyGoesLast(Group(most), last);
        NewKeyInOrder(Group(most), most, last);
      }
      forall key
        ensures HasKey(Group(pairs), key) <==> First(pairs, key) < |pairs|
      {
        AddPairCovers(Group(most), last, key);
        FirstOfMore(most, last, key);
      }
    }
  }

  lemma {:induction false} GroupKeepsOrder(pairs: seq<Pair>, key: Text)
    ensures OfKey(Flatten(Group(pairs)), key) == OfKey(pairs, key)
  {
    if pairs != [] {
      var most, last := pairs[..|pairs| - 1], pairs[|pairs| - 1];
      GroupKeepsOrder(most, key);
      GroupInOrder(most);
      AddPairKeepsOrder(Group(most), last, key);
      OfKeyJoins(most, [last], key);
      assert pairs == most + [last];
    }
  }

  lemma {:induction false} FlattenKeys(entries: seq<Entry>)
    ensures forall x :: x in Flatten(entries) ==> exists k :: 0 <= k < |entries| && entries[k].key == x.key
  {
    if entries != [] {
      FlattenKeys(entries[1..]);
      forall x | x in Flatten(entries)
        ensures exists k :: 0 <= k < |entries| && entries[k].key == x.key
      {
        if x in Flatten(entries[1..]) {
          var k :| 0 <= k < |entries[1..]| && entries[1..][k].key == x.key;
          assert entries[k + 1].key == x.key;
        } else {
          assert x in FieldPairs(entries[0]) && entries[0].key == x.key;
        }
      }
    }
  }

  // ----- listing the keys in some order -----

  /** Entries by their keys, and pairs by theirs. */
  function EntryOrder(ko: (Text, Text) -> bool): (Entry, Entry) -> bool { (a: Entry, b: Entry) => ko(a.key, b.key) }

  function ByKey(ko: (Text, Text) -> bool): (Pair, Pair) -> bool { (a: Pair, b: Pair) => ko(a.key, b.key) }

  /** The record of a query, its keys listed in the order `ko`. */
  function RecordOf(pairs: seq<Pair>, ko: (Text, Text) -> bool): Query { Record(Sort(Group(pairs), EntryOrder(ko))) }

  /** The order ranks no key of the query with another key. */
  ghost predicate KeysApart(pairs: seq<Pair>, ko: (Text, Text) -> bool)
  {
    TotalOrder(ko) && forall x, key :: x in pairs && ko(x.key, key) && ko(key, x.key) ==> key == x.key
  }

  lemma {:induction false} InsertKeepsDistinct(x: Entry, entries: seq<Entry>, le: (Entry, Entry) -> bool)
    requires DistinctKeys(entries) && forall y :: y in entries ==> y.key != x.key
    ensures DistinctKeys(Insert(x, entries, le))
  {
    if entries != [] && !le(x, entries[0]) {
      InsertKeepsDistinct(x, entries[1..], le);
      InsertAdds(x, entries[1..], le);
      SameMembers(Insert(x, entries[1..], le), entries[1..] + [x]);
      NewHeadIsDistinct(entries[0], Insert(x, entries[1..], le));
    } else {
      NewHeadIsDistinct(x, entries);
    }
  }

  lemma NewHeadIsDistinct(x: Entry, entries: seq<Entry>)
    requires DistinctKeys(entries) && forall y :: y in entries ==> y.key != x.key
    ensures DistinctKeys([x] + entries)
  {
  }

  lemma {:induction false} SortKeepsDistinct(entries: seq<Entry>, le: (Entry, Entry) -> bool)
    requires TotalOrder(le) && DistinctKeys(entries)
    ensures DistinctKeys(Sort(entries, le))
  {
    if entries != [] {
      SortKeepsDistinct(entries[1..], le);
      SortSorts(entries[1..], le);
      SameMembers(Sort(entries[1..], le), entries[1..]);
      InsertKeepsDistinct(entries[0], Sort(entries[1..], le), le);
    }
  }

  /** With distinct keys, the pairs of a key are those of its one entry. */
  lemma {:induction false} OfKeyOne(entries: seq<Entry>, e: Entry)
    requires DistinctKeys(entries) && e in entries
    ensures OfKey(Flatten(entries), e.key) == FieldPairs(e)
  {
    OfKeyFlatten(entries, e.key);
    OfKeyOfField(FieldPairs(entries[0]), e.key, entries[0].key);
    if e == entries[0] {
      OtherKeysOnly(entries[1..], e.key);
    } else {
      OfKeyOne(entries[1..], e);
    }
  }

  lemma RelistingKeepsKeys(entries: seq<Entry>, more: seq<Entry>, key: Text)
    requires DistinctKeys(entries) && DistinctKeys(more) && multiset(entries) == multiset(more)
    ensures OfKey(Flatten(more), key) == OfKey(Flatten(entries), key)
  {
    SameMembers(entries, more);
    if e :| e in entries && e.key == key {
      OfKeyOne(entries, e);
      OfKeyOne(more, e);
    } else {
      assert forall k :: 0 <= k < |more| ==> more[k] in more && more[k].key != key;
      OtherKeysOnly(entries, key);
      OtherKeysOnly(more, key);
    }
  }

  lemma {:induction false} FlattenSorted(entries: seq<Entry>, ko: (Text, Text) -> bool)
    requires TotalOrder(ko) && Sorted(entries, EntryOrder(ko))
    ensures Sorted(Flatten(entries), ByKey(ko))
  {
    if entries != [] {
      FlattenSorted(entries[1..], ko);
      FlattenKeys(entries[1..]);
      var own, rest := FieldPairs(entries[0]), Flatten(entries[1..]);
      forall j, k | 0 <= j < k < |own + rest|
        ensures ByKey(ko)((own + rest)[j], (own + rest)[k])
      {
        assert ko(entries[0].key, entries[0].key);
        if j < |own| <= k {
          assert rest[k - |own|] in rest;
        }
      }
    }
  }

  /** Ranked by key, a pair ties with those of its own key. */
  lemma {:induction false} TiedIsOfKey(s: seq<Pair>, z: Pair, pairs: seq<Pair>, ko: (Text, Text) -> bool)
    requires KeysApart(pairs, ko) && forall x :: x in s ==> x in pairs
    ensures Tied(s, z, ByKey(ko)) == OfKey(s, z.key)
  {
    if s != [] {
      TiedIsOfKey(s[1..], z, pairs, ko);
      assert s[0] in s && ko(z.key, z.key);
    }
  }

  lemma ByKeyIsTotal(ko: (Text, Text) -> bool)
    requires TotalOrder(ko)
    ensures TotalOrder(ByKey(ko)) && TotalOrder(EntryOrder(ko))
  {
    forall a: Text, b: Text, c: Text
      ensures ko(a, b) || ko(b, a)
      ensures ko(a, b) && ko(b, c) ==> ko(a, c)
    {
    }
    assert forall a, b :: ByKey(ko)(a, b) == ko(a.key, b.key);
    assert forall a, b :: EntryOrder(ko)(a, b) == ko(a.key, b.key);
  }

  /** Building a record and laying it out again is sorting the pairs by the order of its keys. */
  lemma RecordIsStableSort(pairs: seq<Pair>, ko: (Text, Text) -> bool)
    requires KeysApart(pairs, ko)
    ensures Pairs(RecordOf(pairs, ko)) == D.Some(Sort(pairs, ByKey(ko)))
  {
    var entries, b := Sort(Group(pairs), EntryOrder(ko)), ByKey(ko);
    var flat := Flatten(entries);
    ByKeyIsTotal(ko);
    GroupInOrder(pairs);
    SortSorts(Group(pairs), EntryOrder(ko));
    SortKeepsDistinct(Group(pairs), EntryOrder(ko));
    FlattenSorted(entries, ko);
    SortSorts(pairs, b);
    forall z
      ensures Tied(flat, z, b) == Tied(Sort(pairs, b), z, b)
    {
      RelistingKeepsKeys(Group(pairs), entries, z.key);
      GroupKeepsOrder(pairs, z.key);
      OnlyItsPairs(pairs, entries, flat);
      TiedIsOfKey(flat, z, pairs, ko);
      TiedIsOfKey(pairs, z, pairs, ko);
      SortIsStable(pairs, z, b);
    }
    SortedByTies(flat, Sort(pairs, b), b);
  }

  /** A record holds the pairs of its query and no others. */
  lemma OnlyItsPairs(pairs: seq<Pair>, entries: seq<Entry>, flat: seq<Pair>)
    requires flat == Flatten(entries) && DistinctKeys(entries) && DistinctKeys(Group(pairs)) && multiset(entries) == multiset(Group(pairs))
    ensures forall x :: x in flat ==> x in pairs
  {
    forall x | x in flat
      ensures x in pairs
    {
      RelistingKeepsKeys(Group(pairs), entries, x.key);
      GroupKeepsOrder(pairs, x.key);
      OfKeyHolds(flat, x.key);
      OfKeyHolds(pairs, x.key);
    }
  }

  lemma {:induction false} OfKeyHolds(s: seq<Pair>, key: Text)
    ensures forall x :: x in OfKey(s, key) <==> x in s && x.key == key
  {
    if s != [] { OfKeyHolds(s[1..], key); }
  }

  // ----- when the two forms agree -----

  lemma {:induction false} TiedTwice(s: seq<Pair>, z: Pair, w: Pair, o: (Pair, Pair) -> bool, b: (Pair, Pair) -> bool)
    ensures Tied(Tied(s, z, o), w, b) == Tied(Tied(s, w, b), z, o)
  {
    if s != [] {
      TiedTwice(s[1..], z, w, o, b);
      TiedJoins(if Ties(s[0], z, o) then [s[0]] else [], Tied(s[1..], z, o), w, b);
      TiedJoins(if Ties(s[0], w, b) then [s[0]] else [], Tied(s[1..], w, b), z, o);
    }
  }

  /** Taking the pairs of one rank out of a list whose ties are sorted gives a sorted list. */
  lemma {:induction false} TiedStaysSorted(s: seq<Pair>, z: Pair, o: (Pair, Pair) -> bool, b: (Pair, Pair) -> bool)
    requires TotalOrder(o)
    requires forall j, k :: 0 <= j < k < |s| && Ties(s[j], z, o) && Ties(s[k], z, o) ==> b(s[j], s[k])
    ensures Sorted(Tied(s, z, o), b)
  {
    if s != [] {
      TiedStaysSorted(s[1..], z, o, b);
      if Ties(s[0], z, o) {
        forall y | y in Tied(s[1..], z, o)
          ensures b(s[0], y)
        {
          TiedHolds(s[1..], z, o);
          var k :| 0 <= k < |s[1..]| && s[1..][k] == y;
          assert s[k + 1] == y;
        }
        AfterHead(s[0], Tied(s[1..], z, o), b);
      }
    }
  }

  /** Two pairs of one rank stand in the list of that rank as they stood. */
  lemma {:induction false} TiedInOrder(s: seq<Pair>, j: nat, k: nat, z: Pair, o: (Pair, Pair) -> bool)
    returns (m: nat, n: nat)
    requires TotalOrder(o) && j < k < |s| && Ties(s[j], z, o) && Ties(s[k], z, o)
    ensures m < n < |Tied(s, z, o)| && Tied(s, z, o)[m] == s[j] && Tied(s, z, o)[n] == s[k]
  {
    if 0 < j {
      m, n := TiedInOrder(s[1..], j - 1, k - 1, z, o);
      if Ties(s[0], z, o) { m, n := m + 1, n + 1; }
    } else {
      TiedHolds(s[1..], z, o);
      assert s[1..][k - 1] == s[k];
      var i :| 0 <= i < |Tied(s[1..], z, o)| && Tied(s[1..], z, o)[i] == s[k];
      m, n := 0, i + 1;
    }
  }

  /** Of two pairs that rank the same, the earlier has the key that is listed first. */
  predicate TiesByKey(pairs: seq<Pair>, o: (Pair, Pair) -> bool, ko: (Text, Text) -> bool)
  {
    forall j, k :: 0 <= j < k < |pairs| && Ties(pairs[j], pairs[k], o) ==> ko(pairs[j].key, pairs[k].key)
  }

  lemma SortingMovesTies(pairs: seq<Pair>, o: (Pair, Pair) -> bool, ko: (Text, Text) -> bool)
    requires TotalOrder(o) && TotalOrder(ko) && SameTies(Sort(pairs, ByKey(ko)), pairs, o)
    ensures TiesByKey(pairs, o, ko)
  {
    var b := ByKey(ko);
    var flat := Sort(pairs, b);
    ByKeyIsTotal(ko);
    SortSorts(pairs, b);
    forall j, k | 0 <= j < k < |pairs| && Ties(pairs[j], pairs[k], o)
      ensures ko(pairs[j].key, pairs[k].key)
    {
      var z := pairs[j];
      assert Ties(z, z, o);
      var m, n := TiedInOrder(pairs, j, k, z, o);
      TiedStaysSorted(flat, z, o, b);
      assert Tied(flat, z, o) == Tied(pairs, z, o);
      assert b(Tied(flat, z, o)[m], Tied(flat, z, o)[n]);
    }
  }

  lemma SortingKeepsTies(pairs: seq<Pair>, o: (Pair, Pair) -> bool, ko: (Text, Text) -> bool)
    requires TotalOrder(o) && TotalOrder(ko) && TiesByKey(pairs, o, ko)
    ensures SameTies(Sort(pairs, ByKey(ko)), pairs, o)
  {
    var b := ByKey(ko);
    var flat := Sort(pairs, b);
    ByKeyIsTotal(ko);
    SortSorts(pairs, b);
    forall z
      ensures Tied(flat, z, o) == Tied(pairs, z, o)
    {
      TiedStaysSorted(flat, z, o, b);
      TiedStaysSorted(pairs, z, o, b);
      forall w
        ensures Tied(Tied(flat, z, o), w, b) == Tied(Tied(pairs, z, o), w, b)
      {
        TiedTwice(flat, z, w, o, b);
        TiedTwice(pairs, z, w, o, b);
        SortIsStable(pairs, w, b);
      }
      SortedByTies(Tied(flat, z, o), Tied(pairs, z, o), b);
    }
  }

  /**
   * The client signs the string it sends, the server verifies over the record it parsed. In
   * whatever order the record lists its keys, they agree exactly when pairs that rank the same
   * come in that order; a query with no ties always agrees.
   */
  lemma StringAndRecordAgreeExactly(text: Text, le: (Text, Text) -> bool, ko: (Text, Text) -> bool)
    requires TotalOrder(le) && Parse(text).Some? && KeysApart(Parse(text).value, ko)
    ensures Canonical(RecordOf(Parse(text).value, ko), le) == Canonical(Raw(text), le)
      <==> TiesByKey(Parse(text).value, PairOrder(le), ko)
    ensures TieFree(Raw(text), le) ==> Canonical(RecordOf(Parse(text).value, ko), le) == Canonical(Raw(text), le)
  {
    var pairs, o := Parse(text).value, PairOrder(le);
    PairOrderIsTotal(le);
    RecordIsStableSort(pairs, ko);
    CanonicalTellsTies(RecordOf(pairs, ko), Raw(text), le);
    if TiesByKey(pairs, o, ko) { SortingKeepsTies(pairs, o, ko); }
    if SameTies(Sort(pairs, ByKey(ko)), pairs, o) { SortingMovesTies(pairs, o, ko); }
    if TieFree(Raw(text), le) { assert forall x :: x in pairs ==> ko(x.key, x.key); }
  }

  // ----- the order in which a script object lists its keys -----

  const MaxIndex: Text := [52, 50, 57, 52, 57, 54, 55, 50, 57, 52]  // 4294967294

  function Smaller(): (byte, byte) -> bool { (a: byte, b: byte) => a < b }

  /** Decimal numerals without leading zeros, by value. */
  predicate NumeralLe(a: Text, b: Text) { |a| < |b| || (|a| == |b| && LexLe(a, b, Smaller())) }

  /** A key that reads as an array index. */
  predicate IsIndex(t: Text)
  {
    && t != [] && (forall k :: 0 <= k < |t| ==> Within(t[k], '0', '9')) && (t[0] == '0' as int ==> |t| == 1)
    && NumeralLe(t, MaxIndex)
  }

  /** Array indices first and by value, then the others as they first appeared. */
  function ScriptOrder(pairs: seq<Pair>): (Text, Text) -> bool
  {
    (a: Text, b: Text) =>
      if IsIndex(a) then !IsIndex(b) || NumeralLe(a, b)
      else !IsIndex(b) && First(pairs, a) <= First(pairs, b)
  }

  lemma NumeralLeTotal(a: Text, b: Text, c: Text)
    ensures NumeralLe(a, b) || NumeralLe(b, a)
    ensures NumeralLe(a, b) && NumeralLe(b, a) ==> a == b
    ensures NumeralLe(a, b) && NumeralLe(b, c) ==> NumeralLe(a, c)
  {
    LexLeTotal(a, b, Smaller());
    if LexLe(a, b, Smaller()) && LexLe(b, c, Smaller()) { LexLeTransitive(a, b, c, Smaller()); }
  }

  lemma ScriptOrderTellsKeys(pairs: seq<Pair>)
    ensures KeysApart(pairs, ScriptOrder(pairs))
  {
    var ko := ScriptOrder(pairs);
    forall a, b
      ensures ko(a, b) || ko(b, a)
      ensures First(pairs, a) < |pairs| && ko(a, b) && ko(b, a) ==> a == b
    {
      NumeralLeTotal(a, b, a);
    }
    forall a, b, c | ko(a, b) && ko(b, c)
      ensures ko(a, c)
    {
      NumeralLeTotal(a, b, c);
    }
    forall x | x in pairs
      ensures First(pairs, x.key) < |pairs|
    {
      var k :| 0 <= k < |pairs| && pairs[k] == x;
    }
  }

  /** For the record a script builds: agreement exactly when tied pairs come as it lists their keys. */
  lemma ScriptRecordAgreesExactly(text: Text, le: (Text, Text) -> bool)
    requires TotalOrder(le) && Parse(text).Some?
    ensures var pairs := Parse(text).value;
      && (Canonical(RecordOf(pairs, ScriptOrder(pairs)), le) == Canonical(Raw(text), le) <==>
            TiesByKey(pairs, PairOrder(le), ScriptOrder(pairs)))
  {
    ScriptOrderTellsKeys(Parse(text).value);
    StringAndRecordAgreeExactly(text, le, ScriptOrder(Parse(text).value));
  }

  /** A query on which client and server part: two spellings of one letter as keys, the first of them again at the end. */
  lemma EquivalentKeysPartTheForms(le: (Text, Text) -> bool)
    requires TotalOrder(le) && le(Composed, Decomposed) && le(Decomposed, Composed)
    ensures var pairs := [Pair(Decomposed, []), Pair(Composed, []), Pair(Decomposed, [])];
      Canonical(RecordOf(pairs, ScriptOrder(pairs)), le) != Canonical(Raw(Print(pairs)), le)
  {
    var pairs := [Pair(Decomposed, []), Pair(Composed, []), Pair(Decomposed, [])];
    ParseUndoesPrint(pairs);
    ScriptRecordAgreesExactly(Print(pairs), le);
    assert le([], []);
    assert pairs[1..][0].key == Composed && Composed != Decomposed;
    assert First(pairs, Decomposed) == 0 && First(pairs, Composed) == 1;
    assert !IsIndex(Composed) && !IsIndex(Decomposed) by {
      assert !Within(Composed[0], '0', '9') && !Within(Decomposed[0], '0', '9');
    }
    assert Ties(pairs[1], pairs[2], PairOrder(le)) && !ScriptOrder(pairs)(Composed, Decomposed);
  }

  const PlainOne: Text := [49]
  const SoftOne: Text := [49, 0xC2, 0xAD]

  /** Another, with each key once: the digit 1 after the digit 1 with a soft hyphen, which comparison ignores. The record lists the index first. */
  lemma IndexKeysPartTheForms(le: (Text, Text) -> bool)
    requires TotalOrder(le) && le(PlainOne, SoftOne) && le(SoftOne, PlainOne)
    ensures var pairs := [Pair(SoftOne, []), Pair(PlainOne, [])];
      Canonical(RecordOf(pairs, ScriptOrder(pairs)), le) != Canonical(Raw(Print(pairs)), le)
  {
    var pairs := [Pair(SoftOne, []), Pair(PlainOne, [])];
    ParseUndoesPrint(pairs);
    ScriptRecordAgreesExactly(Print(pairs), le);
    assert le([], []);
    assert IsIndex(PlainOne);
    assert !IsIndex(SoftOne) by {
      assert !Within(SoftOne[1], '0', '9');
    }
    assert Ties(pairs[0], pairs[1], PairOrder(le)) && !ScriptOrder(pairs)(SoftOne, PlainOne);
  }
}
