/** Stable sorting by a key, as Python's list.sort does it. */
module Sorting {

  /** Insert behind everything whose key is not greater. */
  function Insert<T>(s: seq<T>, x: T, key: T -> real): seq<T> {
    if s == [] || key(s[|s| - 1]) <= key(x) then s + [x] else Insert(s[..|s| - 1], x, key) + [s[|s| - 1]]
  }

  function Sort<T>(s: seq<T>, key: T -> real): seq<T> {
    if s == [] then [] else Insert(Sort(s[..|s| - 1], key), s[|s| - 1], key)
  }

  ghost predicate Ordered<T>(s: seq<T>, key: T -> real) {
    forall i, j :: 0 <= i < j < |s| ==> key(s[i]) <= key(s[j])
  }

  lemma {:induction false} InsertPermutes<T>(s: seq<T>, x: T, key: T -> real)
    ensures multiset(Insert(s, x, key)) == multiset(s) + multiset{x}
  {
    if s != [] && key(s[|s| - 1]) > key(x) {
      var init, last := s[..|s| - 1], s[|s| - 1];
      InsertPermutes(init, x, key);
      assert s == init + [last];
    }
  }

  lemma OrderedAppend<T>(s: seq<T>, last: T, key: T -> real)
    requires Ordered(s, key) && forall i :: 0 <= i < |s| ==> key(s[i]) <= key(last)
    ensures Ordered(s + [last], key)
  {
  }

  lemma {:induction false} InsertOrdered<T>(s: seq<T>, x: T, key: T -> real)
    requires Ordered(s, key)
    ensures Ordered(Insert(s, x, key), key)
  {
    if s == [] || key(s[|s| - 1]) <= key(x) {
      OrderedAppend(s, x, key);
    } else {
      var init, last := s[..|s| - 1], s[|s| - 1];
      var r := Insert(init, x, key);
      InsertOrdered(init, x, key);
      InsertPermutes(init, x, key);
      forall i | 0 <= i < |r| ensures key(r[i]) <= key(last) {
        assert r[i] in multiset(r);
      }
      OrderedAppend(r, last, key);
    }
  }

  /** Sorting yields an ordered permutation. */
  lemma {:induction false} SortSorts<T>(s: seq<T>, key: T -> real)
    ensures Ordered(Sort(s, key), key) && multiset(Sort(s, key)) == multiset(s)
    ensures |Sort(s, key)| == |s|
  {
    if s != [] {
      var init := s[..|s| - 1];
      SortSorts(init, key);
      InsertOrdered(Sort(init, key), s[|s| - 1], key);
      InsertPermutes(Sort(init, key), s[|s| - 1], key);
      assert s == init + [s[|s| - 1]];
    }
    assert |multiset(Sort(s, key))| == |multiset(s)|;
  }

  /** The elements with one key, in order. */
  function WithKey<T>(s: seq<T>, key: T -> real, k: real): seq<T> {
    if s == [] then [] else WithKey(s[..|s| - 1], key, k) + if key(s[|s| - 1]) == k then [s[|s| - 1]] else []
  }

  lemma WithKeyAppend<T>(s: seq<T>, x: T, key: T -> real, k: real)
    ensures WithKey(s + [x], key, k) == WithKey(s, key, k) + if key(x) == k then [x] else []
  {
    assert (s + [x])[..|s|] == s;
  }

  lemma {:induction false} InsertStable<T>(s: seq<T>, x: T, key: T -> real, k: real)
    ensures WithKey(Insert(s, x, key), key, k) == WithKey(s, key, k) + if key(x) == k then [x] else []
  {
    if s == [] || key(s[|s| - 1]) <= key(x) {
      WithKeyAppend(s, x, key, k);
    } else {
      var init, last := s[..|s| - 1], s[|s| - 1];
      InsertStable(init, x, key, k);
      WithKeyAppend(Insert(init, x, key), last, key, k);
      assert key(last) != key(x);
    }
  }

  /** The sort is stable: elements with equal keys keep their input order. */
  lemma {:induction false} SortStable<T>(s: seq<T>, key: T -> real, k: real)
    ensures WithKey(Sort(s, key), key, k) == WithKey(s, key, k)
  {
    if s != [] {
      var init := s[..|s| - 1];
      SortStable(init, key, k);
      InsertStable(Sort(init, key), s[|s| - 1], key, k);
    }
  }

  /** Sorting in place, element by element. */
  method SortBy<T>(s: seq<T>, key: T -> real) returns (sorted: seq<T>)
    ensures sorted == Sort(s, key)
  {
    sorted := [];
    var i := 0;
    while i < |s|
      invariant i <= |s| && sorted == Sort(s[..i], key)
    {
      var j := i + 1;
      assert s[..j][..i] == s[..i];
      sorted := Insert(sorted, s[i], key);
      i := j;
    }
    assert s[..|s|] == s;
  }
}
