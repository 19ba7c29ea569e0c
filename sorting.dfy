/** `Array.prototype.sort` with a numeric comparator `(a, b) => key(a) - key(b)`:
    the result is ordered by the key and is a permutation of the input. This
    insertion sort keeps equal keys in input order, as the language requires
    of `sort` (`SortStable`). */
module Sorting {

  predicate SortedBy<T>(s: seq<T>, key: T -> int) {
    forall i, j :: 0 <= i < j < |s| ==> key(s[i]) <= key(s[j])
  }

  /** Inserts `x` after every element whose key is not greater than its own. */
  function Insert<T>(x: T, s: seq<T>, key: T -> int): (r: seq<T>)
    requires SortedBy(s, key)
    ensures SortedBy(r, key)
    ensures multiset(r) == multiset(s) + multiset{x}
    ensures |r| == |s| + 1
    ensures forall y :: y in r ==> y == x || y in s
    decreases |s|
  {
    if s == [] || key(s[|s| - 1]) <= key(x) then
      SortedAppend(s, x, key);
      s + [x]
    else
      var init := s[..|s| - 1];
      var last := s[|s| - 1];
      assert s == init + [last];
      var rest := Insert(x, init, key);
      SortedAppend(rest, last, key);
      rest + [last]
  }

  /** An element whose key is not below the last one's extends a sorted
      sequence. */
  lemma SortedAppend<T>(s: seq<T>, x: T, key: T -> int)
    requires SortedBy(s, key)
    requires s == [] || key(s[|s| - 1]) <= key(x)
    ensures SortedBy(s + [x], key)
  {
  }

  /** The input, ordered by key. */
  function SortBy<T>(s: seq<T>, key: T -> int): (r: seq<T>)
    ensures SortedBy(r, key)
    ensures multiset(r) == multiset(s)
    ensures |r| == |s|
    decreases |s|
  {
    if s == [] then []
    else
      assert s == s[..|s| - 1] + [s[|s| - 1]];
      Insert(s[|s| - 1], SortBy(s[..|s| - 1], key), key)
  }

  /** The elements of `s` whose key is `k`, in their order in `s`. */
  function WithKey<T>(s: seq<T>, key: T -> int, k: int): seq<T>
    decreases |s|
  {
    if s == [] then []
    else WithKey(s[..|s| - 1], key, k) + (if key(s[|s| - 1]) == k then [s[|s| - 1]] else [])
  }

  lemma WithKeyAppend<T>(s: seq<T>, x: T, key: T -> int, k: int)
    ensures WithKey(s + [x], key, k) == WithKey(s, key, k) + (if key(x) == k then [x] else [])
  {
    assert (s + [x])[..|s|] == s;
  }

  /** An element whose key is below the last one's goes before the last. */
  lemma InsertBeforeLast<T>(x: T, s: seq<T>, key: T -> int)
    requires SortedBy(s, key)
    requires s != [] && key(x) < key(s[|s| - 1])
    ensures SortedBy(s[..|s| - 1], key)
    ensures Insert(x, s, key) == Insert(x, s[..|s| - 1], key) + [s[|s| - 1]]
  {
  }

  /** Inserting `x` places it after every element with its key. */
  lemma {:induction false} InsertStable<T>(x: T, s: seq<T>, key: T -> int, k: int)
    requires SortedBy(s, key)
    ensures WithKey(Insert(x, s, key), key, k) == WithKey(s, key, k) + (if key(x) == k then [x] else [])
    decreases |s|
  {
    if s == [] || key(s[|s| - 1]) <= key(x) {
      WithKeyAppend(s, x, key, k);
    } else {
      var init := s[..|s| - 1];
      var last := s[|s| - 1];
      var X := if key(x) == k then [x] else [];
      var L := if key(last) == k then [last] else [];
      assert X == [] || L == [];
      calc {
        WithKey(Insert(x, s, key), key, k);
        { InsertBeforeLast(x, s, key); }
        WithKey(Insert(x, init, key) + [last], key, k);
        { WithKeyAppend(Insert(x, init, key), last, key, k); }
        WithKey(Insert(x, init, key), key, k) + L;
        { InsertStable(x, init, key, k); }
        WithKey(init, key, k) + X + L;
        WithKey(init, key, k) + L + X;
        { WithKeyAppend(init, last, key, k); assert s == init + [last]; }
        WithKey(s, key, k) + X;
      }
    }
  }

  /** Stability: for every key, the elements with that key keep their input
      order. */
  lemma {:induction false} SortStable<T>(s: seq<T>, key: T -> int, k: int)
    ensures WithKey(SortBy(s, key), key, k) == WithKey(s, key, k)
    decreases |s|
  {
    if s != [] {
      var init := s[..|s| - 1];
      var last := s[|s| - 1];
      assert s == init + [last];
      SortStable(init, key, k);
      InsertStable(last, SortBy(init, key), key, k);
      WithKeyAppend(init, last, key, k);
    }
  }
}
