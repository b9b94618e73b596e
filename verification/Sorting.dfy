/** The stable sort of the runtime (`[...s].sort((a, b) => key(a) - key(b))`) as a function. */
module Sorting {
  import opened Options

  ghost predicate SortedBy<T(!new)>(s: seq<T>, key: T -> int) {
    forall i, j :: 0 <= i < j < |s| ==> key(s[i]) <= key(s[j])
  }

  function Filter<T(!new)>(s: seq<T>, p: T -> bool): (r: seq<T>)
    ensures |r| <= |s|
  {
    if s == [] then []
    else
      var before := Filter(s[..|s| - 1], p);
      if p(s[|s| - 1]) then before + [s[|s| - 1]] else before
  }

  lemma {:induction false} FilterMembers<T(!new)>(s: seq<T>, p: T -> bool)
    ensures forall x :: x in Filter(s, p) <==> x in s && p(x)
  {
    if s != [] {
      FilterMembers(s[..|s| - 1], p);
      assert s == s[..|s| - 1] + [s[|s| - 1]];
    }
  }

  function Insert<T(!new)>(s: seq<T>, x: T, key: T -> int): (r: seq<T>)
    ensures |r| == |s| + 1
  {
    if s == [] || key(s[|s| - 1]) <= key(x) then s + [x]
    else Insert(s[..|s| - 1], x, key) + [s[|s| - 1]]
  }

  function SortBy<T(!new)>(s: seq<T>, key: T -> int): (r: seq<T>)
    ensures |r| == |s|
  {
    if s == [] then [] else Insert(SortBy(s[..|s| - 1], key), s[|s| - 1], key)
  }

  lemma {:induction false} InsertHolds<T(!new)>(s: seq<T>, x: T, key: T -> int)
    ensures multiset(Insert(s, x, key)) == multiset(s) + multiset{x}
  {
    if s != [] && key(s[|s| - 1]) > key(x) {
      var m := |s| - 1;
      InsertHolds(s[..m], x, key);
      assert s == s[..m] + [s[m]];
    }
  }

  lemma SortedAppend<T(!new)>(s: seq<T>, x: T, key: T -> int)
    requires SortedBy(s, key) && (s != [] ==> key(s[|s| - 1]) <= key(x))
    ensures SortedBy(s + [x], key)
  {
  }

  lemma SortedInit<T(!new)>(s: seq<T>, key: T -> int)
    requires SortedBy(s, key) && s != []
    ensures SortedBy(s[..|s| - 1], key)
    ensures |s| > 1 ==> key(s[|s| - 2]) <= key(s[|s| - 1])
  {
  }

  lemma {:induction false} InsertSorts<T(!new)>(s: seq<T>, x: T, key: T -> int)
    requires SortedBy(s, key)
    ensures SortedBy(Insert(s, x, key), key)
    ensures s != [] ==> key(Insert(s, x, key)[|s|]) == if key(s[|s| - 1]) <= key(x) then key(x) else key(s[|s| - 1])
    ensures s == [] ==> Insert(s, x, key) == [x]
  {
    hide SortedBy;
    if s == [] || key(s[|s| - 1]) <= key(x) {
      SortedAppend(s, x, key);
    } else {
      var m := |s| - 1;
      SortedInit(s, key);
      InsertSorts(s[..m], x, key);
      SortedAppend(Insert(s[..m], x, key), s[m], key);
    }
  }

  /** The result is sorted and holds exactly the elements of the input. */
  lemma {:induction false} SortSorts<T(!new)>(s: seq<T>, key: T -> int)
    ensures SortedBy(SortBy(s, key), key)
    ensures multiset(SortBy(s, key)) == multiset(s)
  {
    hide SortedBy, Insert;
    if s == [] {
      assert SortedBy<T>([], key) by { EmptyIsSorted(key); }
    } else {
      var m := |s| - 1;
      SortSorts(s[..m], key);
      InsertSorts(SortBy(s[..m], key), s[m], key);
      InsertHolds(SortBy(s[..m], key), s[m], key);
      assert s == s[..m] + [s[m]];
    }
  }

  lemma EmptyIsSorted<T(!new)>(key: T -> int)
    ensures SortedBy([], key)
  {
  }

  lemma SortMembers<T(!new)>(s: seq<T>, key: T -> int)
    ensures forall x :: x in SortBy(s, key) <==> x in s
  {
    hide SortBy;
    SortSorts(s, key);
    forall x
      ensures x in SortBy(s, key) <==> x in s
    {
      assert x in SortBy(s, key) <==> x in multiset(SortBy(s, key));
    }
  }

  lemma {:induction false} SortedIsFixed<T(!new)>(s: seq<T>, key: T -> int)
    requires SortedBy(s, key)
    ensures SortBy(s, key) == s
  {
    hide SortedBy, Insert;
    if s != [] {
      var m := |s| - 1;
      SortedPrefix(s, key);
      SortedIsFixed(s[..m], key);
      assert s == s[..m] + [s[m]];
    }
  }

  lemma SortedPrefix<T(!new)>(s: seq<T>, key: T -> int)
    requires SortedBy(s, key) && s != []
    ensures SortedBy(s[..|s| - 1], key)
    ensures Insert(s[..|s| - 1], s[|s| - 1], key) == s[..|s| - 1] + [s[|s| - 1]]
  {
    hide SortedBy;
    SortedInit(s, key);
  }

  lemma {:induction false} FilterInsert<T(!new)>(s: seq<T>, x: T, key: T -> int, p: T -> bool)
    requires SortedBy(s, key)
    ensures Filter(Insert(s, x, key), p) == if p(x) then Insert(Filter(s, p), x, key) else Filter(s, p)
  {
    if s == [] || key(s[|s| - 1]) <= key(x) {
      assert (s + [x])[..|s|] == s;
      if p(x) && Filter(s, p) != [] {
        FilterMembers(s, p);
        var l := Filter(s, p)[|Filter(s, p)| - 1];
        assert l in s;
      }
    } else {
      var m := |s| - 1;
      var t := Insert(s[..m], x, key);
      FilterInsert(s[..m], x, key, p);
      assert (t + [s[m]])[..|t|] == t;
      if p(x) {
        var before := Filter(s[..m], p);
        if p(s[m]) {
          assert (before + [s[m]])[..|before|] == before;
        }
      }
    }
  }

  /** Filtering before or after the stable sort is the same: ties keep their input order. */
  lemma {:induction false} FilterSort<T(!new)>(s: seq<T>, key: T -> int, p: T -> bool)
    ensures Filter(SortBy(s, key), p) == SortBy(Filter(s, p), key)
  {
    if s != [] {
      var m := |s| - 1;
      FilterSort(s[..m], key, p);
      SortSorts(s[..m], key);
      FilterInsert(SortBy(s[..m], key), s[m], key, p);
      var before := Filter(s[..m], p);
      if p(s[m]) {
        assert (before + [s[m]])[..|before|] == before;
      }
    }
  }

  lemma {:induction false} FilterConcat<T(!new)>(a: seq<T>, b: seq<T>, p: T -> bool)
    ensures Filter(a + b, p) == Filter(a, p) + Filter(b, p)
  {
    if b == [] {
      assert a + b == a;
    } else {
      var m := |b| - 1;
      FilterConcat(a, b[..m], p);
      assert (a + b)[..|a + b| - 1] == a + b[..m];
    }
  }

  lemma {:induction false} FilterAll<T(!new)>(s: seq<T>, p: T -> bool)
    requires forall x :: x in s ==> p(x)
    ensures Filter(s, p) == s
  {
    if s != [] {
      FilterAll(s[..|s| - 1], p);
    }
  }

  lemma {:induction false} FilterNone<T(!new)>(s: seq<T>, p: T -> bool)
    requires forall x :: x in s ==> !p(x)
    ensures Filter(s, p) == []
  {
    if s != [] {
      FilterNone(s[..|s| - 1], p);
    }
  }

  /** The matches in sorted order are exactly the matches, and all keys lie between those of the first and the
      last one. */
  lemma SortedMatches<T(!new)>(s: seq<T>, p: T -> bool, key: T -> int)
    ensures var sorted := SortBy(Filter(s, p), key);
            && (forall x :: x in sorted <==> x in s && p(x))
            && (forall x :: x in sorted ==> key(sorted[0]) <= key(x) <= key(sorted[|sorted| - 1]))
  {
    hide SortBy, Filter;
    var kept := Filter(s, p);
    var sorted := SortBy(kept, key);
    FilterMembers(s, p);
    SortMembers(kept, key);
    SortSorts(kept, key);
    forall x | x in sorted
      ensures key(sorted[0]) <= key(x) <= key(sorted[|sorted| - 1])
    {
      var i :| 0 <= i < |sorted| && sorted[i] == x;
    }
  }

  function First<T>(s: seq<T>): Option<T> { if s == [] then None else Some(s[0]) }

  /** The first of the sorted matches is a match, and no match has a smaller key; there is none exactly when nothing
      matches. */
  lemma FirstIsLeast<T(!new)>(s: seq<T>, p: T -> bool, key: T -> int)
    ensures match First(SortBy(Filter(s, p), key))
            case None => forall y :: y in s ==> !p(y)
            case Some(x) => x in s && p(x) && forall y :: y in s && p(y) ==> key(x) <= key(y)
  {
    hide SortBy, Filter;
    SortedMatches(s, p, key);
    var sorted := SortBy(Filter(s, p), key);
    if sorted != [] {
      assert sorted[0] in sorted;
    } else {
      forall y | y in s
        ensures !p(y)
      {
        assert y !in sorted;
      }
    }
  }

  // ----- distinct keys

  ghost predicate DistinctKeys<T(!new)>(s: seq<T>, key: T -> int) {
    forall i, j :: 0 <= i < j < |s| ==> key(s[i]) != key(s[j])
  }

  ghost predicate StrictlyBy<T(!new)>(s: seq<T>, key: T -> int) {
    forall i, j :: 0 <= i < j < |s| ==> key(s[i]) < key(s[j])
  }

  lemma StrictAppend<T(!new)>(s: seq<T>, x: T, key: T -> int)
    requires StrictlyBy(s, key) && (s != [] ==> key(s[|s| - 1]) < key(x))
    ensures StrictlyBy(s + [x], key)
  {
  }

  lemma StrictInit<T(!new)>(s: seq<T>, key: T -> int)
    requires StrictlyBy(s, key) && s != []
    ensures StrictlyBy(s[..|s| - 1], key)
    ensures |s| > 1 ==> key(s[|s| - 2]) < key(s[|s| - 1])
  {
  }

  lemma {:induction false} InsertStrict<T(!new)>(s: seq<T>, x: T, key: T -> int)
    requires StrictlyBy(s, key) && forall y :: y in s ==> key(y) != key(x)
    ensures StrictlyBy(Insert(s, x, key), key)
    ensures key(Insert(s, x, key)[|s|]) == if s == [] || key(s[|s| - 1]) < key(x) then key(x) else key(s[|s| - 1])
  {
    hide StrictlyBy;
    if s == [] {
      StrictAppend(s, x, key);
    } else {
      var m := |s| - 1;
      assert s[m] in s;
      if key(s[m]) <= key(x) {
        StrictAppend(s, x, key);
      } else {
        StrictInit(s, key);
        InsertStrict(s[..m], x, key);
        StrictAppend(Insert(s[..m], x, key), s[m], key);
      }
    }
  }

  /** With distinct keys the sorted order is strict. */
  lemma {:induction false} SortStrict<T(!new)>(s: seq<T>, key: T -> int)
    requires DistinctKeys(s, key)
    ensures StrictlyBy(SortBy(s, key), key)
  {
    if s != [] {
      hide StrictlyBy, Insert;
      var m := |s| - 1;
      SortStrict(s[..m], key);
      SortMembers(s[..m], key);
      forall y | y in SortBy(s[..m], key)
        ensures key(y) != key(s[m])
      {
        assert y in s[..m];
      }
      InsertStrict(SortBy(s[..m], key), s[m], key);
    }
  }

  /** Whose key is greater than `t`. */
  function After<T(!new)>(key: T -> int, t: int): T -> bool { (x: T) => key(x) > t }

  /** With distinct keys, exactly `n - 1 - k` elements of the unsorted list come after element `k` of the sorted one. */
  lemma PlaceInOrder<T(!new)>(s: seq<T>, key: T -> int, k: nat)
    requires DistinctKeys(s, key) && k < |s|
    ensures SortBy(s, key)[k] in s
    ensures |Filter(s, After(key, key(SortBy(s, key)[k])))| == |s| - 1 - k
  {
    hide SortBy, Filter;
    var sorted := SortBy(s, key);
    var p := After(key, key(sorted[k]));
    SortStrict(s, key);
    SortMembers(s, key);
    assert sorted[k] in sorted;
    FilterSort(s, key, p);
    assert |Filter(s, p)| == |SortBy(Filter(s, p), key)|;
    assert sorted == sorted[..k + 1] + sorted[k + 1..];
    FilterConcat(sorted[..k + 1], sorted[k + 1..], p);
    FilterNone(sorted[..k + 1], p);
    FilterAll(sorted[k + 1..], p);
  }

  // ----- short lists

  lemma OneFiltered<T(!new)>(x: T, p: T -> bool)
    ensures Filter([x], p) == if p(x) then [x] else []
  {
    assert [x][..0] == [];
  }

  lemma PairFiltered<T(!new)>(x: T, y: T, p: T -> bool)
    ensures Filter([x, y], p) == (if p(x) then [x] else []) + (if p(y) then [y] else [])
  {
    assert [x, y][..1] == [x] && [x][..0] == [];
  }

  lemma TripleFiltered<T(!new)>(x: T, y: T, z: T, p: T -> bool)
    ensures Filter([x, y, z], p)
         == (if p(x) then [x] else []) + (if p(y) then [y] else []) + (if p(z) then [z] else [])
  {
    hide Filter;
    assert [x, y, z] == [x, y] + [z];
    FilterConcat([x, y], [z], p);
    PairFiltered(x, y, p);
    OneFiltered(z, p);
  }

  // ----- prefixes and repeats

  function Take<T>(s: seq<T>, n: nat): seq<T> { if |s| <= n then s else s[..n] }

  ghost predicate Distinct<T(!new)>(s: seq<T>) { forall i, j :: 0 <= i < j < |s| ==> s[i] != s[j] }

  /** `[...new Set(s)]`: first occurrences, in order. */
  function Unique<T(==)>(s: seq<T>): seq<T> {
    if s == [] then []
    else
      var before := Unique(s[..|s| - 1]);
      if s[|s| - 1] in before then before else before + [s[|s| - 1]]
  }

  lemma {:induction false} UniqueIsDistinct<T(!new)>(s: seq<T>)
    ensures Distinct(Unique(s)) && forall x :: x in Unique(s) <==> x in s
  {
    if s != [] {
      UniqueIsDistinct(s[..|s| - 1]);
      assert s == s[..|s| - 1] + [s[|s| - 1]];
    }
  }
}
