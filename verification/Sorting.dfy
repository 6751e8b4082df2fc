/** `Array.prototype.sort` with a numeric key: a stable sort. */
module Sorting {
  /** `x` goes behind everything whose key is not above its own. */
  function Insert<T>(s: seq<T>, x: T, key: T -> int): seq<T> {
    if s == [] || key(s[|s| - 1]) <= key(x) then s + [x]
    else Insert(s[..|s| - 1], x, key) + [s[|s| - 1]]
  }

  function Sort<T>(s: seq<T>, key: T -> int): seq<T> {
    if s == [] then [] else Insert(Sort(s[..|s| - 1], key), s[|s| - 1], key)
  }

  ghost predicate Sorted<T>(s: seq<T>, key: T -> int) {
    forall i, j :: 0 <= i < j < |s| ==> key(s[i]) <= key(s[j])
  }

  /** The elements of `s` with key `k`, in order. */
  function WithKey<T>(s: seq<T>, key: T -> int, k: int): seq<T> {
    if s == [] then [] else
      WithKey(s[..|s| - 1], key, k) + (if key(s[|s| - 1]) == k then [s[|s| - 1]] else [])
  }

  lemma WithKeySnoc<T>(s: seq<T>, x: T, key: T -> int, k: int)
    ensures WithKey(s + [x], key, k) == WithKey(s, key, k) + (if key(x) == k then [x] else [])
  {
    assert (s + [x])[..|s|] == s;
  }

  /** Where an element with key `k` is put. */
  function Place<T>(s: seq<T>, key: T -> int, k: int): (p: nat)
    ensures p <= |s|
    ensures p > 0 ==> key(s[p - 1]) <= k
    ensures forall i :: p <= i < |s| ==> k < key(s[i])
  {
    if s == [] || key(s[|s| - 1]) <= k then |s|
    else
      var p := Place(s[..|s| - 1], key, k);
      assert forall i :: p <= i < |s| - 1 ==> s[i] == s[..|s| - 1][i];
      p
  }

  lemma {:induction false} InsertPlaces<T>(s: seq<T>, x: T, key: T -> int)
    ensures var p := Place(s, key, key(x)); Insert(s, x, key) == s[..p] + [x] + s[p..]
  {
    if s != [] && key(s[|s| - 1]) > key(x) {
      var n := |s| - 1;
      InsertPlaces(s[..n], x, key);
      var p := Place(s[..n], key, key(x));
      Rejoin(s, p, x);
    }
  }

  lemma Rejoin<T>(s: seq<T>, p: nat, x: T)
    requires s != [] && p < |s|
    ensures var n := |s| - 1; s[..n][..p] + [x] + s[..n][p..] + [s[n]] == s[..p] + [x] + s[p..]
  {}

  lemma {:induction false} InsertIsStable<T>(s: seq<T>, x: T, key: T -> int, k: int)
    ensures WithKey(Insert(s, x, key), key, k) == WithKey(s + [x], key, k)
  {
    WithKeySnoc(s, x, key, k);
    if s != [] && key(s[|s| - 1]) > key(x) {
      var n := |s| - 1;
      InsertIsStable(s[..n], x, key, k);
      WithKeySnoc(s[..n], x, key, k);
      WithKeySnoc(Insert(s[..n], x, key), s[n], key, k);
    }
  }

  lemma InsertKeepsSorted<T>(s: seq<T>, x: T, key: T -> int)
    requires Sorted(s, key)
    ensures Sorted(Insert(s, x, key), key)
  {
    InsertPlaces(s, x, key);
    var p := Place(s, key, key(x));
    var t := s[..p] + [x] + s[p..];
    forall i, j | 0 <= i < j < |t| ensures key(t[i]) <= key(t[j]) {
      if i < p { assert key(s[i]) <= key(s[p - 1]); }
    }
  }

  lemma InsertKeepsElements<T>(s: seq<T>, x: T, key: T -> int)
    ensures multiset(Insert(s, x, key)) == multiset(s) + multiset{x}
  {
    InsertPlaces(s, x, key);
    var p := Place(s, key, key(x));
    assert s == s[..p] + s[p..];
  }

  /** Sorting orders by key and keeps every element. */
  lemma {:induction false} SortSorts<T>(s: seq<T>, key: T -> int)
    ensures Sorted(Sort(s, key), key)
    ensures multiset(Sort(s, key)) == multiset(s)
  {
    if s != [] {
      var n := |s| - 1;
      assert s == s[..n] + [s[n]];
      SortSorts(s[..n], key);
      InsertKeepsSorted(Sort(s[..n], key), s[n], key);
      InsertKeepsElements(Sort(s[..n], key), s[n], key);
    }
  }

  /** Sorting keeps the order of elements with the same key. */
  lemma {:induction false} SortIsStable<T>(s: seq<T>, key: T -> int, k: int)
    ensures WithKey(Sort(s, key), key, k) == WithKey(s, key, k)
  {
    if s != [] {
      var n := |s| - 1;
      SortIsStable(s[..n], key, k);
      InsertIsStable(Sort(s[..n], key), s[n], key, k);
      WithKeySnoc(Sort(s[..n], key), s[n], key, k);
    }
  }

  lemma LastOfInsert<T>(s: seq<T>, x: T, key: T -> int)
    ensures var t := Insert(s, x, key);
            |t| == |s| + 1 && (t[|s|] == x || (s != [] && t[|s|] == s[|s| - 1]))
  {}

  lemma {:induction false} InsertsCommute<T>(s: seq<T>, x: T, y: T, key: T -> int)
    requires key(x) < key(y)
    ensures Insert(Insert(s, x, key), y, key) == Insert(Insert(s, y, key), x, key)
  {
    LastOfInsert(s, x, key);
    if s == [] || key(s[|s| - 1]) <= key(y) {
      assert (s + [y])[..|s|] == s;
    } else {
      var n := |s| - 1;
      var one, two := Insert(s[..n], x, key), Insert(s[..n], y, key);
      assert (one + [s[n]])[..|one|] == one && (two + [s[n]])[..|two|] == two;
      InsertsCommute(s[..n], x, y, key);
    }
  }

  function Without<T>(s: seq<T>, i: nat): seq<T>
    requires i < |s|
  {
    s[..i] + s[i + 1..]
  }

  lemma WithoutSnoc<T>(s: seq<T>, i: nat)
    requires i < |s| - 1
    ensures Without(s, i) == Without(s[..|s| - 1], i) + [s[|s| - 1]]
  {}

  /** An element whose key nothing after it has goes to its place in the rest. */
  lemma {:induction false} SortWithUnique<T>(s: seq<T>, i: nat, key: T -> int)
    requires i < |s| && forall j :: i < j < |s| ==> key(s[j]) != key(s[i])
    ensures Sort(s, key) == Insert(Sort(Without(s, i), key), s[i], key)
    decreases |s|
  {
    var n := |s| - 1;
    if i == n {
      assert Without(s, i) == s[..n];
    } else {
      SortWithUnique(s[..n], i, key);
      WithoutSnoc(s, i);
      var rest := Without(s[..n], i);
      SortSnoc(rest, s[n], Without(s, i), key);
      if key(s[i]) < key(s[n]) {
        InsertsCommute(Sort(rest, key), s[i], s[n], key);
      } else {
        InsertsCommute(Sort(rest, key), s[n], s[i], key);
      }
    }
  }

  lemma SortSnoc<T>(s: seq<T>, y: T, t: seq<T>, key: T -> int)
    requires t == s + [y]
    ensures Sort(t, key) == Insert(Sort(s, key), y, key)
  {
    assert t[..|s|] == s;
  }

  lemma SortMembers<T>(s: seq<T>, key: T -> int, y: T)
    ensures y in Sort(s, key) <==> y in s
  {
    SortSorts(s, key);
    assert y in multiset(Sort(s, key)) <==> y in Sort(s, key);
    assert y in multiset(s) <==> y in s;
  }

  lemma {:induction false} InsertSameKeys<T>(s: seq<T>, x: T, key: T -> int, other: T -> int)
    requires key(x) == other(x) && forall y :: y in s ==> key(y) == other(y)
    ensures Insert(s, x, key) == Insert(s, x, other)
  {
    if s != [] {
      assert forall y :: y in s[..|s| - 1] ==> y in s;
      InsertSameKeys(s[..|s| - 1], x, key, other);
    }
  }

  /** Two keys that agree on a list sort it alike. */
  lemma {:induction false} SortSameKeys<T>(s: seq<T>, key: T -> int, other: T -> int)
    requires forall y :: y in s ==> key(y) == other(y)
    ensures Sort(s, key) == Sort(s, other)
  {
    if s != [] {
      var n := |s| - 1;
      assert forall y :: y in s[..n] ==> y in s;
      SortSameKeys(s[..n], key, other);
      forall y | y in Sort(s[..n], key) ensures key(y) == other(y) {
        SortMembers(s[..n], key, y);
      }
      InsertSameKeys(Sort(s[..n], key), s[n], key, other);
    }
  }

  ghost predicate Distinct<T, U(!new)>(s: seq<T>, name: T -> U) {
    forall i, j :: 0 <= i < j < |s| ==> name(s[i]) != name(s[j])
  }

  lemma InsertKeepsDistinct<T, U(!new)>(s: seq<T>, x: T, key: T -> int, name: T -> U)
    requires Distinct(s, name) && forall y :: y in s ==> name(y) != name(x)
    ensures Distinct(Insert(s, x, key), name)
  {
    InsertPlaces(s, x, key);
    var p := Place(s, key, key(x));
    var t := s[..p] + [x] + s[p..];
    assert forall i :: 0 <= i < p ==> t[i] == s[i];
    assert forall i :: p < i < |t| ==> t[i] == s[i - 1];
  }

  /** Sorting keeps elements with distinct names distinct. */
  lemma {:induction false} SortKeepsDistinct<T, U(!new)>(s: seq<T>, key: T -> int, name: T -> U)
    requires Distinct(s, name)
    ensures Distinct(Sort(s, key), name)
  {
    if s != [] {
      var n := |s| - 1;
      SortKeepsDistinct(s[..n], key, name);
      forall y | y in Sort(s[..n], key) ensures name(y) != name(s[n]) {
        SortMembers(s[..n], key, y);
      }
      InsertKeepsDistinct(Sort(s[..n], key), s[n], key, name);
    }
  }
}
