/** Sorting by a total order, and why the result depends only on what is sorted. */
module Sorting {

  ghost predicate TotalOrder<T(!new)>(le: (T, T) -> bool)
  {
    && (forall x, y :: le(x, y) || le(y, x))
    && (forall x, y, z :: le(x, y) && le(y, z) ==> le(x, z))
  }

  ghost predicate Antisymmetric<T>(s: seq<T>, le: (T, T) -> bool)
  {
    forall x, y :: x in s && y in s && le(x, y) && le(y, x) ==> x == y
  }

  ghost predicate Sorted<T>(s: seq<T>, le: (T, T) -> bool)
  {
    forall j, k :: 0 <= j < k < |s| ==> le(s[j], s[k])
  }

  function Insert<T>(x: T, s: seq<T>, le: (T, T) -> bool): seq<T>
  {
    if s == [] || le(x, s[0]) then [x] + s else [s[0]] + Insert(x, s[1..], le)
  }

  function Sort<T>(s: seq<T>, le: (T, T) -> bool): seq<T>
  {
    if s == [] then [] else Insert(s[0], Sort(s[1..], le), le)
  }

  lemma {:induction false} InsertAdds<T>(x: T, s: seq<T>, le: (T, T) -> bool)
    ensures multiset(Insert(x, s, le)) == multiset(s) + multiset{x}
  {
    if s != [] && !le(x, s[0]) {
      InsertAdds(x, s[1..], le);
      assert s == [s[0]] + s[1..];
    }
  }

  lemma {:induction false} InsertSorts<T(!new)>(x: T, s: seq<T>, le: (T, T) -> bool)
    requires TotalOrder(le) && Sorted(s, le)
    ensures Sorted(Insert(x, s, le), le)
  {
    if s != [] && !le(x, s[0]) {
      InsertSorts(x, s[1..], le);
      InsertAdds(x, s[1..], le);
      SameMembers(Insert(x, s[1..], le), s[1..] + [x]);
      AfterHead(s[0], Insert(x, s[1..], le), le);
    }
  }

  lemma AfterHead<T>(x: T, s: seq<T>, le: (T, T) -> bool)
    requires Sorted(s, le) && forall y :: y in s ==> le(x, y)
    ensures Sorted([x] + s, le)
  {
  }

  lemma {:induction false} SortSorts<T(!new)>(s: seq<T>, le: (T, T) -> bool)
    requires TotalOrder(le)
    ensures Sorted(Sort(s, le), le) && multiset(Sort(s, le)) == multiset(s)
  {
    if s != [] {
      SortSorts(s[1..], le);
      InsertSorts(s[0], Sort(s[1..], le), le);
      InsertAdds(s[0], Sort(s[1..], le), le);
      assert s == [s[0]] + s[1..];
    }
  }

  lemma SameMembers<T>(s: seq<T>, t: seq<T>)
    requires multiset(s) == multiset(t)
    ensures |s| == |t| && forall x :: x in s <==> x in t
  {
    assert |multiset(s)| == |s| && |multiset(t)| == |t|;
    forall x
      ensures x in s <==> x in t
    {
      assert x in s <==> x in multiset(s);
      assert x in t <==> x in multiset(t);
    }
  }

  lemma SameHead<T(!new)>(s: seq<T>, t: seq<T>, le: (T, T) -> bool)
    requires Sorted(s, le) && Sorted(t, le) && TotalOrder(le) && Antisymmetric(s, le)
    requires s != [] && t != [] && s[0] in t && t[0] in s
    ensures s[0] == t[0]
  {
    assert le(s[0], t[0]) && le(t[0], s[0]);
  }

  lemma SameTail<T>(s: seq<T>, t: seq<T>)
    requires multiset(s) == multiset(t) && s != [] && t != [] && s[0] == t[0]
    ensures multiset(s[1..]) == multiset(t[1..])
  {
    assert s == [s[0]] + s[1..] && t == [t[0]] + t[1..];
    assert multiset(s[1..]) == multiset(s) - multiset{s[0]};
    assert multiset(t[1..]) == multiset(t) - multiset{t[0]};
  }

  /** Two sorted sequences of the same elements are the same sequence. */
  lemma {:induction false} SortedIsUnique<T(!new)>(s: seq<T>, t: seq<T>, le: (T, T) -> bool)
    requires Sorted(s, le) && Sorted(t, le) && multiset(s) == multiset(t) && Antisymmetric(s, le)
    requires TotalOrder(le)
    ensures s == t
  {
    SameMembers(s, t);
    if s != [] {
      SameHead(s, t, le);
      SameTail(s, t);
      assert Antisymmetric(s[1..], le);
      SortedIsUnique(s[1..], t[1..], le);
      assert s == [s[0]] + s[1..] && t == [t[0]] + t[1..];
    }
  }

  lemma SortIsCanonical<T(!new)>(s: seq<T>, t: seq<T>, le: (T, T) -> bool)
    requires TotalOrder(le) && Antisymmetric(s, le) && multiset(s) == multiset(t)
    ensures Sort(s, le) == Sort(t, le)
  {
    SortSorts(s, le);
    SortSorts(t, le);
    SameMembers(Sort(s, le), s);
    SortedIsUnique(Sort(s, le), Sort(t, le), le);
  }

  // ----- ties -----

  predicate Ties<T>(x: T, y: T, le: (T, T) -> bool) { le(x, y) && le(y, x) }

  /** The elements that rank with `z`, in the order they come. */
  function Tied<T>(s: seq<T>, z: T, le: (T, T) -> bool): seq<T>
  {
    if s == [] then [] else (if Ties(s[0], z, le) then [s[0]] else []) + Tied(s[1..], z, le)
  }

  lemma TiedCons<T>(x: T, s: seq<T>, z: T, le: (T, T) -> bool)
    ensures Tied([x] + s, z, le) == (if Ties(x, z, le) then [x] else []) + Tied(s, z, le)
  {
    assert ([x] + s)[0] == x && ([x] + s)[1..] == s;
  }

  lemma {:induction false} TiedJoins<T>(s: seq<T>, t: seq<T>, z: T, le: (T, T) -> bool)
    ensures Tied(s + t, z, le) == Tied(s, z, le) + Tied(t, z, le)
  {
    if s == [] {
      assert s + t == t;
    } else {
      TiedJoins(s[1..], t, z, le);
      TiedCons(s[0], s[1..] + t, z, le);
      assert s + t == [s[0]] + (s[1..] + t);
      Regroup(if Ties(s[0], z, le) then [s[0]] else [], Tied(s[1..], z, le), Tied(t, z, le));
    }
  }

  lemma Regroup<T>(r: seq<T>, s: seq<T>, t: seq<T>)
    ensures r + (s + t) == r + s + t
  {
  }

  ghost predicate SameTies<T(!new)>(s: seq<T>, t: seq<T>, le: (T, T) -> bool)
  {
    forall z :: Tied(s, z, le) == Tied(t, z, le)
  }

  lemma OneIsEmpty<T>(g: seq<T>, h: seq<T>, t: seq<T>)
    requires g == [] || h == []
    ensures h + (g + t) == g + (h + t)
  {
  }

  lemma {:induction false} InsertIsStable<T(!new)>(x: T, s: seq<T>, z: T, le: (T, T) -> bool)
    requires TotalOrder(le)
    ensures Tied(Insert(x, s, le), z, le) == (if Ties(x, z, le) then [x] else []) + Tied(s, z, le)
  {
    if s == [] || le(x, s[0]) {
      TiedCons(x, s, z, le);
    } else {
      InsertIsStable(x, s[1..], z, le);
      TiedCons(s[0], Insert(x, s[1..], le), z, le);
      assert !(Ties(x, z, le) && Ties(s[0], z, le));
      OneIsEmpty(if Ties(x, z, le) then [x] else [], if Ties(s[0], z, le) then [s[0]] else [], Tied(s[1..], z, le));
    }
  }

  /** Sorting keeps the order of elements that rank the same. */
  lemma {:induction false} SortIsStable<T(!new)>(s: seq<T>, z: T, le: (T, T) -> bool)
    requires TotalOrder(le)
    ensures Tied(Sort(s, le), z, le) == Tied(s, z, le)
  {
    if s != [] {
      SortIsStable(s[1..], z, le);
      InsertIsStable(s[0], Sort(s[1..], le), z, le);
    }
  }

  lemma {:induction false} TiedHolds<T(!new)>(s: seq<T>, z: T, le: (T, T) -> bool)
    requires TotalOrder(le)
    ensures forall x :: x in Tied(s, z, le) <==> x in s && Ties(x, z, le)
  {
    if s != [] { TiedHolds(s[1..], z, le); }
  }

  /** Two sorted sequences that agree on every rank are the same sequence. */
  lemma {:induction false} SortedByTies<T(!new)>(s: seq<T>, t: seq<T>, le: (T, T) -> bool)
    requires TotalOrder(le) && Sorted(s, le) && Sorted(t, le) && SameTies(s, t, le)
    ensures s == t
  {
    if s != [] || t != [] {
      SameFirst(s, t, le);
      forall z
        ensures Tied(s[1..], z, le) == Tied(t[1..], z, le)
      {
        var n := if Ties(s[0], z, le) then 1 else 0;
        assert Tied(s[1..], z, le) == Tied(s, z, le)[n..] == Tied(t, z, le)[n..] == Tied(t[1..], z, le);
      }
      SortedByTies(s[1..], t[1..], le);
      assert s == [s[0]] + s[1..] && t == [t[0]] + t[1..];
    }
  }

  lemma SameFirst<T(!new)>(s: seq<T>, t: seq<T>, le: (T, T) -> bool)
    requires TotalOrder(le) && Sorted(s, le) && Sorted(t, le) && SameTies(s, t, le) && (s != [] || t != [])
    ensures s != [] && t != [] && s[0] == t[0]
  {
    var first := if s != [] then s[0] else t[0];
    TiedHolds(s, first, le);
    TiedHolds(t, first, le);
    assert first in Tied(s, first, le);
    assert le(s[0], t[0]) && le(t[0], s[0]) by {
      TiedHolds(s, t[0], le);
      TiedHolds(t, t[0], le);
      assert t[0] in Tied(s, t[0], le);
      TiedHolds(s, s[0], le);
      TiedHolds(t, s[0], le);
      assert s[0] in Tied(t, s[0], le);
    }
    assert Tied(s, s[0], le)[0] == s[0] && Tied(t, s[0], le)[0] == t[0];
  }

  /** Two sequences sort alike exactly when they list the elements of each rank in the same order. */
  lemma SortsAlikeExactly<T(!new)>(s: seq<T>, t: seq<T>, le: (T, T) -> bool)
    requires TotalOrder(le)
    ensures Sort(s, le) == Sort(t, le) <==> SameTies(s, t, le)
  {
    forall z
      ensures Tied(Sort(s, le), z, le) == Tied(s, z, le) && Tied(Sort(t, le), z, le) == Tied(t, z, le)
    {
      SortIsStable(s, z, le);
      SortIsStable(t, z, le);
    }
    SortSorts(s, le);
    SortSorts(t, le);
    if SameTies(s, t, le) { SortedByTies(Sort(s, le), Sort(t, le), le); }
  }

  lemma SwapShows<T(!new)>(x: T, y: T, rest: seq<T>, le: (T, T) -> bool)
    requires TotalOrder(le) && Ties(x, y, le) && x != y
    ensures Sort([x, y] + rest, le) != Sort([y, x] + rest, le)
  {
    SortsAlikeExactly([x, y] + rest, [y, x] + rest, le);
    assert Tied([x, y] + rest, x, le)[0] == x && Tied([y, x] + rest, x, le)[0] == y;
  }

  lemma BringForward<T>(s: seq<T>, j: nat, k: nat)
    requires j < k < |s|
    ensures multiset(s) == multiset([s[j], s[k]] + (s[..j] + s[j + 1..k] + s[k + 1..]))
    ensures multiset(s) == multiset([s[k], s[j]] + (s[..j] + s[j + 1..k] + s[k + 1..]))
  {
    assert s == s[..j] + [s[j]] + s[j + 1..k] + [s[k]] + s[k + 1..];
  }

  /** A tie between different elements shows in one reordering or another. */
  lemma TieShows<T(!new)>(s: seq<T>, j: nat, k: nat, le: (T, T) -> bool) returns (t: seq<T>)
    requires TotalOrder(le) && j < k < |s| && Ties(s[j], s[k], le) && s[j] != s[k]
    ensures multiset(t) == multiset(s) && Sort(t, le) != Sort(s, le)
  {
    var rest := s[..j] + s[j + 1..k] + s[k + 1..];
    BringForward(s, j, k);
    SwapShows(s[j], s[k], rest, le);
    t := if Sort([s[j], s[k]] + rest, le) != Sort(s, le) then [s[j], s[k]] + rest else [s[k], s[j]] + rest;
  }

  /** Every reordering sorts alike exactly when no two different elements rank the same. */
  lemma OrderForgottenExactly<T(!new)>(s: seq<T>, le: (T, T) -> bool)
    requires TotalOrder(le)
    ensures (forall t :: multiset(t) == multiset(s) ==> Sort(t, le) == Sort(s, le)) <==> Antisymmetric(s, le)
  {
    if Antisymmetric(s, le) {
      forall t | multiset(t) == multiset(s)
        ensures Sort(t, le) == Sort(s, le)
      {
        SortIsCanonical(s, t, le);
      }
    } else {
      var x, y :| x in s && y in s && le(x, y) && le(y, x) && x != y;
      var m :| 0 <= m < |s| && s[m] == x;
      var n :| 0 <= n < |s| && s[n] == y;
      var t := TieShows(s, if m < n then m else n, if m < n then n else m, le);
    }
  }

  // ----- dictionary order -----

  ghost predicate StrictOrder<T(!new)>(lt: (T, T) -> bool)
  {
    && (forall x, y :: lt(x, y) || lt(y, x) || x == y)
    && (forall x, y :: lt(x, y) ==> !lt(y, x))
    && (forall x, y, z :: lt(x, y) && lt(y, z) ==> lt(x, z))
  }

  predicate LexLe<T(==)>(a: seq<T>, b: seq<T>, lt: (T, T) -> bool)
  {
    a == [] || (b != [] && (lt(a[0], b[0]) || (a[0] == b[0] && LexLe(a[1..], b[1..], lt))))
  }

  lemma {:induction false} LexLeTotal<T(!new)>(a: seq<T>, b: seq<T>, lt: (T, T) -> bool)
    requires StrictOrder(lt)
    ensures LexLe(a, b, lt) || LexLe(b, a, lt)
    ensures LexLe(a, b, lt) && LexLe(b, a, lt) ==> a == b
  {
    if a != [] && b != [] {
      LexLeTotal(a[1..], b[1..], lt);
      assert lt(a[0], b[0]) || lt(b[0], a[0]) || a[0] == b[0];
      assert a == [a[0]] + a[1..] && b == [b[0]] + b[1..];
    }
  }

  lemma {:induction false} LexLeTransitive<T(!new)>(a: seq<T>, b: seq<T>, c: seq<T>, lt: (T, T) -> bool)
    requires StrictOrder(lt) && LexLe(a, b, lt) && LexLe(b, c, lt)
    ensures LexLe(a, c, lt)
  {
    if a != [] && b[0] == a[0] && c[0] == b[0] {
      LexLeTransitive(a[1..], b[1..], c[1..], lt);
    }
  }
}
