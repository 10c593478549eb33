/** `Array.prototype.sort` with a numeric comparator `(a, b) => key(a) - key(b)`:
    since ES2019 the sort is stable, so the result is the unique ordering that
    is sorted by key and keeps equal-key elements in their original order.
    A descending sort (`b.p - a.p`) is this sort on the negated key. */
module StableSort {

  ghost predicate SortedBy<T>(s: seq<T>, key: T -> real) {
    forall i, j :: 0 <= i < j < |s| ==> key(s[i]) <= key(s[j])
  }

  /** The elements of `s` whose key is `c`, in order. */
  function WithKey<T>(s: seq<T>, key: T -> real, c: real): seq<T> {
    if s == [] then []
    else (if key(s[0]) == c then [s[0]] else []) + WithKey(s[1..], key, c)
  }

  /** Insertion of `x` in front of every element whose key is not smaller. */
  function Insert<T>(x: T, s: seq<T>, key: T -> real): seq<T> {
    if s == [] || key(x) <= key(s[0]) then [x] + s
    else [s[0]] + Insert(x, s[1..], key)
  }

  function SortBy<T>(s: seq<T>, key: T -> real): seq<T> {
    if s == [] then [] else Insert(s[0], SortBy(s[1..], key), key)
  }

  lemma {:induction false} InsertPerm<T>(x: T, s: seq<T>, key: T -> real)
    ensures multiset(Insert(x, s, key)) == multiset(s) + multiset{x}
  {
    if s != [] && key(x) > key(s[0]) {
      InsertPerm(x, s[1..], key);
      assert s == [s[0]] + s[1..];
    }
  }

  /** Every key of `Insert(x, s, key)` is at least `c` when `x`'s and all of `s`'s are. */
  lemma {:induction false} InsertLowerBound<T>(x: T, s: seq<T>, key: T -> real, c: real)
    requires c <= key(x)
    requires forall i :: 0 <= i < |s| ==> c <= key(s[i])
    ensures forall i :: 0 <= i < |Insert(x, s, key)| ==> c <= key(Insert(x, s, key)[i])
  {
    if s != [] && key(x) > key(s[0]) {
      var t := s[1..];
      assert forall i :: 0 <= i < |t| ==> t[i] == s[i + 1];
      InsertLowerBound(x, t, key, c);
    }
  }

  lemma {:induction false} InsertSorted<T>(x: T, s: seq<T>, key: T -> real)
    requires SortedBy(s, key)
    ensures SortedBy(Insert(x, s, key), key)
  {
    if s != [] && key(x) > key(s[0]) {
      var t := s[1..];
      assert forall i :: 0 <= i < |t| ==> t[i] == s[i + 1];
      InsertSorted(x, t, key);
      InsertLowerBound(x, t, key, key(s[0]));
      var it := Insert(x, t, key);
      var r := [s[0]] + it;
      assert forall j :: 0 < j < |r| ==> r[j] == it[j - 1];
    }
  }

  lemma {:induction false} InsertWithKey<T>(x: T, s: seq<T>, key: T -> real, c: real)
    ensures WithKey(Insert(x, s, key), key, c) == (if key(x) == c then [x] else []) + WithKey(s, key, c)
  {
    if s == [] || key(x) <= key(s[0]) {
      var r := [x] + s;
      assert r[0] == x && r[1..] == s;
    } else {
      var t := s[1..];
      InsertWithKey(x, t, key, c);
      var it := Insert(x, t, key);
      var r := [s[0]] + it;
      assert r[0] == s[0] && r[1..] == it;
      if key(x) == c {
        assert key(s[0]) != c;
      }
    }
  }

  lemma {:induction false} SortBySorted<T>(s: seq<T>, key: T -> real)
    ensures SortedBy(SortBy(s, key), key)
  {
    if s != [] {
      SortBySorted(s[1..], key);
      InsertSorted(s[0], SortBy(s[1..], key), key);
    }
  }

  lemma {:induction false} SortByPerm<T>(s: seq<T>, key: T -> real)
    ensures multiset(SortBy(s, key)) == multiset(s)
  {
    if s != [] {
      SortByPerm(s[1..], key);
      InsertPerm(s[0], SortBy(s[1..], key), key);
      assert s == [s[0]] + s[1..];
    }
  }

  lemma {:induction false} SortByStable<T>(s: seq<T>, key: T -> real, c: real)
    ensures WithKey(SortBy(s, key), key, c) == WithKey(s, key, c)
  {
    if s != [] {
      SortByStable(s[1..], key, c);
      InsertWithKey(s[0], SortBy(s[1..], key), key, c);
    }
  }

  /** The stable sort is sorted by key, a permutation of its input, and keeps
      the relative order of every group of equal keys. */
  lemma SortByFacts<T>(s: seq<T>, key: T -> real)
    ensures SortedBy(SortBy(s, key), key)
    ensures multiset(SortBy(s, key)) == multiset(s)
    ensures |SortBy(s, key)| == |s|
    ensures forall c :: WithKey(SortBy(s, key), key, c) == WithKey(s, key, c)
  {
    SortBySorted(s, key);
    SortByPerm(s, key);
    assert |SortBy(s, key)| == |multiset(SortBy(s, key))|;
    forall c ensures WithKey(SortBy(s, key), key, c) == WithKey(s, key, c) {
      SortByStable(s, key, c);
    }
  }
}
