/** A stable sort by an integer key, the behaviour of `Array.prototype.sort`
    on a copy with a comparator that returns `key(a) - key(b)` (ascending) or
    `key(b) - key(a)` (descending): elements whose keys compare equal keep
    their input order. */
module Ordering {

  /** `a` may stand before `b` in the sorted result. */
  predicate Precedes(a: int, b: int, descending: bool) {
    if descending then a >= b else a <= b
  }

  ghost predicate SortedBy<T>(s: seq<T>, key: T -> int, descending: bool) {
    forall i, j :: 0 <= i < j < |s| ==> Precedes(key(s[i]), key(s[j]), descending)
  }

  /** The elements of `s` whose key is `k`, in their order in `s`. */
  function WithKey<T>(s: seq<T>, key: T -> int, k: int): seq<T>
    decreases |s|
  {
    if s == [] then [] else (if key(s[0]) == k then [s[0]] else []) + WithKey(s[1..], key, k)
  }

  /** Places `x` before the first element it may precede. */
  function Insert<T>(x: T, s: seq<T>, key: T -> int, descending: bool): seq<T>
    decreases |s|
  {
    if s == [] || Precedes(key(x), key(s[0]), descending) then [x] + s
    else [s[0]] + Insert(x, s[1..], key, descending)
  }

  function StableSort<T>(s: seq<T>, key: T -> int, descending: bool): seq<T>
    decreases |s|
  {
    if s == [] then [] else Insert(s[0], StableSort(s[1..], key, descending), key, descending)
  }

  lemma {:induction false} InsertPermutes<T>(x: T, s: seq<T>, key: T -> int, descending: bool)
    ensures multiset(Insert(x, s, key, descending)) == multiset(s) + multiset{x}
    decreases |s|
  {
    if !(s == [] || Precedes(key(x), key(s[0]), descending)) {
      InsertPermutes(x, s[1..], key, descending);
      assert s == [s[0]] + s[1..];
    }
  }

  lemma {:induction false} InsertWithKey<T>(x: T, s: seq<T>, key: T -> int, descending: bool, k: int)
    requires SortedBy(s, key, descending)
    ensures WithKey(Insert(x, s, key, descending), key, k)
         == (if key(x) == k then [x] else []) + WithKey(s, key, k)
    decreases |s|
  {
    var r := Insert(x, s, key, descending);
    if s == [] || Precedes(key(x), key(s[0]), descending) {
      assert r[1..] == s;
    } else {
      var rest := Insert(x, s[1..], key, descending);
      SortedTail(s, key, descending);
      InsertWithKey(x, s[1..], key, descending, k);
      assert r == [s[0]] + rest && r[1..] == rest;
      assert key(x) != key(s[0]);
      var head := if key(s[0]) == k then [s[0]] else [];
      var mid := if key(x) == k then [x] else [];
      assert WithKey(r, key, k) == head + WithKey(rest, key, k);
      assert WithKey(s, key, k) == head + WithKey(s[1..], key, k);
      assert head == [] || mid == [];
      assert head + (mid + WithKey(s[1..], key, k)) == mid + (head + WithKey(s[1..], key, k));
    }
  }

  lemma SortedTail<T>(s: seq<T>, key: T -> int, descending: bool)
    requires s != [] && SortedBy(s, key, descending)
    ensures SortedBy(s[1..], key, descending)
  {
    forall i, j | 0 <= i < j < |s[1..]| ensures Precedes(key(s[1..][i]), key(s[1..][j]), descending) {
      assert s[1..][i] == s[i + 1] && s[1..][j] == s[j + 1];
    }
  }

  lemma {:induction false} InsertSorted<T>(x: T, s: seq<T>, key: T -> int, descending: bool)
    requires SortedBy(s, key, descending)
    ensures SortedBy(Insert(x, s, key, descending), key, descending)
    decreases |s|
  {
    var r := Insert(x, s, key, descending);
    if s == [] || Precedes(key(x), key(s[0]), descending) {
      forall i, j | 0 <= i < j < |r| ensures Precedes(key(r[i]), key(r[j]), descending) {
        assert r[j] == s[j - 1];
        if i > 0 {
          assert r[i] == s[i - 1];
        }
      }
    } else {
      var rest := Insert(x, s[1..], key, descending);
      SortedTail(s, key, descending);
      InsertSorted(x, s[1..], key, descending);
      HeadPrecedesInserted(x, s, key, descending);
      forall i, j | 0 <= i < j < |r| ensures Precedes(key(r[i]), key(r[j]), descending) {
        if i > 0 {
          assert r[i] == rest[i - 1] && r[j] == rest[j - 1];
        } else {
          assert r[j] == rest[j - 1];
        }
      }
    }
  }

  /** When `x` goes past the head of a sorted list, the head may precede
      every element of the rest with `x` inserted. */
  lemma HeadPrecedesInserted<T>(x: T, s: seq<T>, key: T -> int, descending: bool)
    requires SortedBy(s, key, descending)
    requires s != [] && !Precedes(key(x), key(s[0]), descending)
    ensures forall y :: y in Insert(x, s[1..], key, descending) ==> Precedes(key(s[0]), key(y), descending)
  {
    var rest := Insert(x, s[1..], key, descending);
    InsertPermutes(x, s[1..], key, descending);
    forall y | y in rest ensures Precedes(key(s[0]), key(y), descending) {
      assert y in multiset(rest);
      if y != x {
        assert y in multiset(s[1..]);
        var m :| 0 <= m < |s[1..]| && s[1..][m] == y;
        assert s[m + 1] == y;
      }
    }
  }

  /** The sort yields a permutation of its input, ordered by key, in which the
      elements of each key appear in their input order (stability). */
  lemma {:induction false} StableSortCorrect<T>(s: seq<T>, key: T -> int, descending: bool)
    ensures var r := StableSort(s, key, descending);
      && SortedBy(r, key, descending)
      && multiset(r) == multiset(s)
      && |r| == |s|
      && forall k :: WithKey(r, key, k) == WithKey(s, key, k)
    decreases |s|
  {
    var r := StableSort(s, key, descending);
    if s != [] {
      var rest := StableSort(s[1..], key, descending);
      StableSortCorrect(s[1..], key, descending);
      InsertSorted(s[0], rest, key, descending);
      InsertPermutes(s[0], rest, key, descending);
      assert s == [s[0]] + s[1..];
      forall k ensures WithKey(r, key, k) == WithKey(s, key, k) {
        InsertWithKey(s[0], rest, key, descending, k);
      }
    }
    assert |r| == |multiset(r)| == |multiset(s)| == |s|;
  }
}
