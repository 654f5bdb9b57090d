/** The array sort of the source's standard library, by a number: ascending, and stable. */
module StableSort {

  ghost predicate Ascending<T(!new)>(s: seq<T>, key: T -> int) {
    forall i, j :: 0 <= i < j < |s| ==> key(s[i]) <= key(s[j])
  }

  /** `x` goes after everything that is not greater. */
  function Insert<T>(s: seq<T>, x: T, key: T -> int): (r: seq<T>)
    ensures |r| == |s| + 1
  {
    if s == [] || key(s[|s| - 1]) <= key(x) then s + [x]
    else Insert(s[..|s| - 1], x, key) + [s[|s| - 1]]
  }

  function Sort<T>(s: seq<T>, key: T -> int): (r: seq<T>)
    ensures |r| == |s|
  {
    if s == [] then [] else Insert(Sort(s[..|s| - 1], key), s[|s| - 1], key)
  }

  /** The elements with key `k`, in order. */
  function WithKey<T>(s: seq<T>, key: T -> int, k: int): seq<T> {
    if s == [] then []
    else WithKey(s[..|s| - 1], key, k) + if key(s[|s| - 1]) == k then [s[|s| - 1]] else []
  }

  lemma {:induction false} InsertMembers<T(!new)>(s: seq<T>, x: T, key: T -> int)
    ensures forall y :: y in Insert(s, x, key) ==> y in s || y == x
  {
    if s != [] && key(s[|s| - 1]) > key(x) { InsertMembers(s[..|s| - 1], x, key); }
  }

  lemma {:induction false} InsertAscends<T(!new)>(s: seq<T>, x: T, key: T -> int)
    requires Ascending(s, key)
    ensures Ascending(Insert(s, x, key), key)
  {
    if s != [] && key(s[|s| - 1]) > key(x) {
      var front := s[..|s| - 1];
      InsertAscends(front, x, key);
      InsertMembers(front, x, key);
      var r := Insert(front, x, key);
      forall i | 0 <= i < |r| ensures key(r[i]) <= key(s[|s| - 1]) { assert r[i] in r; }
    }
  }

  lemma {:induction false} InsertKeeps<T>(s: seq<T>, x: T, key: T -> int)
    ensures multiset(Insert(s, x, key)) == multiset(s) + multiset{x}
  {
    if s != [] && key(s[|s| - 1]) > key(x) {
      InsertKeeps(s[..|s| - 1], x, key);
      assert s == s[..|s| - 1] + [s[|s| - 1]];
    }
  }

  lemma WithKeySnoc<T>(s: seq<T>, x: T, key: T -> int, k: int)
    ensures WithKey(s + [x], key, k) == WithKey(s, key, k) + if key(x) == k then [x] else []
  {
    assert (s + [x])[..|s|] == s;
  }

  /** Equal keys stay in order: the new element comes after those that have its key. */
  lemma {:induction false} InsertIsStable<T>(s: seq<T>, x: T, key: T -> int, k: int)
    ensures WithKey(Insert(s, x, key), key, k) == WithKey(s, key, k) + if key(x) == k then [x] else []
  {
    hide WithKey;
    if s == [] || key(s[|s| - 1]) <= key(x) {
      WithKeySnoc(s, x, key, k);
    } else {
      var (front, last) := (s[..|s| - 1], s[|s| - 1]);
      InsertIsStable(front, x, key, k);
      WithKeySnoc(Insert(front, x, key), last, key, k);
      WithKeySnoc(front, last, key, k);
      assert s == front + [last];
    }
  }

  lemma NothingToSort<T(!new)>(key: T -> int)
    ensures Ascending([], key) && Sort([], key) == []
  {
  }

  /**
   * Sorting gives the same elements in ascending order, those with equal keys in the order they had.
   */
  lemma {:induction false} SortFacts<T(!new)>(s: seq<T>, key: T -> int)
    ensures Ascending(Sort(s, key), key)
    ensures multiset(Sort(s, key)) == multiset(s)
    ensures forall k :: WithKey(Sort(s, key), key, k) == WithKey(s, key, k)
  {
    hide Insert, Ascending, WithKey;
    if s != [] {
      var (front, last) := (s[..|s| - 1], s[|s| - 1]);
      SortFacts(front, key);
      InsertAscends(Sort(front, key), last, key);
      InsertKeeps(Sort(front, key), last, key);
      assert s == front + [last];
      forall k ensures WithKey(Sort(s, key), key, k) == WithKey(s, key, k) {
        InsertIsStable(Sort(front, key), last, key, k);
        WithKeySnoc(front, last, key, k);
      }
    } else {
      NothingToSort(key);
    }
  }
}
