/** Python's stable sorted()/list.sort(key=...) and SQL's "filter, order by, limit" over
    in-memory sequences, with the facts about them that the traversal and the reconciliation
    of participant facts rely on. */
module Sorting {

  predicate SortedBy<T(!new)>(s: seq<T>, key: T -> int)
  {
    forall i, j :: 0 <= i < j < |s| ==> key(s[i]) <= key(s[j])
  }

  predicate StrictlySortedBy<T(!new)>(s: seq<T>, key: T -> int)
  {
    forall i, j :: 0 <= i < j < |s| ==> key(s[i]) < key(s[j])
  }

  /** No two positions of s hold the same key. */
  predicate DistinctKeys<T(!new)>(s: seq<T>, key: T -> int)
  {
    forall i, j :: 0 <= i < |s| && 0 <= j < |s| && i != j ==> key(s[i]) != key(s[j])
  }

  /** Puts x in front of the first element whose key is greater than x's, so after every
      element with an equal key. */
  function Insert<T(!new)>(x: T, s: seq<T>, key: T -> int): (r: seq<T>)
    ensures multiset(r) == multiset(s) + multiset{x}
    ensures |r| == |s| + 1
    ensures forall y :: y in r <==> y in s || y == x
  {
    if s == [] then [x]
    else if key(x) < key(s[0]) then [x] + s
    else
      assert s == [s[0]] + s[1..];
      [s[0]] + Insert(x, s[1..], key)
  }

  /** Inserting into a sorted sequence keeps it sorted. */
  lemma {:induction false} InsertSorted<T(!new)>(x: T, s: seq<T>, key: T -> int)
    requires SortedBy(s, key)
    ensures SortedBy(Insert(x, s, key), key)
  {
    if s != [] {
      var rest := s[1..];
      forall y | y in rest ensures key(s[0]) <= key(y) {
        var k :| 0 <= k < |rest| && rest[k] == y;
        assert s[k + 1] == y;
      }
      if key(x) >= key(s[0]) {
        InsertSorted(x, rest, key);
        var t := Insert(x, rest, key);
        assert forall y :: y in t ==> key(s[0]) <= key(y);
        assert Insert(x, s, key) == [s[0]] + t;
      }
    }
  }

  /** Stable insertion sort: the model of Python's sorted(s, key=key). */
  function SortBy<T(!new)>(s: seq<T>, key: T -> int): (r: seq<T>)
    ensures SortedBy(r, key)
    ensures multiset(r) == multiset(s)
    ensures |r| == |s|
    ensures forall y :: y in r <==> y in s
  {
    if s == [] then []
    else
      var p, x := s[..|s| - 1], s[|s| - 1];
      assert s == p + [x];
      assert multiset(s) == multiset(p) + multiset{x};
      assert forall y :: y in s <==> y in p || y == x;
      var q := SortBy(p, key);
      InsertSorted(x, q, key);
      Insert(x, q, key)
  }

  /** Position of the first, in the order of s, of the elements with the least key. */
  function FirstMinIndex<T(!new)>(s: seq<T>, key: T -> int): (i: nat)
    requires s != []
    ensures i < |s|
    ensures forall j :: 0 <= j < |s| ==> key(s[i]) <= key(s[j])
    ensures forall j :: 0 <= j < i ==> key(s[i]) < key(s[j])
  {
    if |s| == 1 then 0
    else
      var i := FirstMinIndex(s[..|s| - 1], key);
      if key(s[|s| - 1]) < key(s[i]) then |s| - 1 else i
  }

  /** The first least element is at most every element of s. */
  lemma FirstMinLeast<T(!new)>(s: seq<T>, key: T -> int, y: T)
    requires y in s
    ensures key(s[FirstMinIndex(s, key)]) <= key(y)
  {
    var j :| 0 <= j < |s| && s[j] == y;
  }

  /** Position of the last, in the order of s, of the elements with the greatest key. */
  function LastMaxIndex<T(!new)>(s: seq<T>, key: T -> int): (i: nat)
    requires s != []
    ensures i < |s|
    ensures forall j :: 0 <= j < |s| ==> key(s[j]) <= key(s[i])
    ensures forall j :: i < j < |s| ==> key(s[j]) < key(s[i])
  {
    if |s| == 1 then 0
    else
      var i := LastMaxIndex(s[..|s| - 1], key);
      if key(s[i]) <= key(s[|s| - 1]) then |s| - 1 else i
  }

  /** Stability at the front: the sorted sequence starts with the first least element. */
  lemma {:induction false} SortByFirst<T(!new)>(s: seq<T>, key: T -> int)
    requires s != []
    ensures SortBy(s, key)[0] == s[FirstMinIndex(s, key)]
  {
    var n := |s|;
    var p := s[..n - 1];
    if n > 1 {
      SortByFirst(p, key);
      var r' := SortBy(p, key);
      var i := FirstMinIndex(p, key);
      var x := s[n - 1];
      assert SortBy(s, key) == Insert(x, r', key);
      assert s[i] == p[i] && key(r'[0]) == key(s[i]);
      if key(x) < key(r'[0]) {
        assert Insert(x, r', key) == [x] + r';
        assert FirstMinIndex(s, key) == n - 1;
      } else {
        assert Insert(x, r', key) == [r'[0]] + Insert(x, r'[1..], key);
        assert FirstMinIndex(s, key) == i;
      }
    }
  }

  lemma {:induction false} InsertAtEnd<T(!new)>(x: T, s: seq<T>, key: T -> int)
    requires SortedBy(s, key)
    requires forall y :: y in s ==> key(y) <= key(x)
    ensures Insert(x, s, key) == s + [x]
  {
    if s != [] {
      var t := s[1..];
      assert s[0] in s;
      forall y | y in t ensures key(y) <= key(x) {
        var k :| 0 <= k < |t| && t[k] == y;
        assert s[k + 1] == y;
      }
      InsertAtEnd(x, t, key);
      assert Insert(x, s, key) == [s[0]] + Insert(x, t, key);
      assert s == [s[0]] + t;
    }
  }

  lemma {:induction false} InsertKeepsLast<T(!new)>(x: T, s: seq<T>, key: T -> int)
    requires SortedBy(s, key)
    requires s != [] && key(x) < key(s[|s| - 1])
    ensures Insert(x, s, key)[|s|] == s[|s| - 1]
  {
    if key(x) >= key(s[0]) {
      assert |s| > 1;
      InsertKeepsLast(x, s[1..], key);
    }
  }

  /** Stability at the back: the sorted sequence ends with the last greatest element. */
  lemma {:induction false} SortByLast<T(!new)>(s: seq<T>, key: T -> int)
    requires s != []
    ensures SortBy(s, key)[|s| - 1] == s[LastMaxIndex(s, key)]
  {
    var n := |s|;
    var p := s[..n - 1];
    if n > 1 {
      SortByLast(p, key);
      var r' := SortBy(p, key);
      var i := LastMaxIndex(p, key);
      var x := s[n - 1];
      assert s[i] == p[i];
      assert r'[n - 2] == p[i];
      assert SortBy(s, key) == Insert(x, r', key);
      if key(p[i]) <= key(x) {
        forall y | y in r' ensures key(y) <= key(x) {
          assert y in p;
          var j :| 0 <= j < |p| && p[j] == y;
          assert key(p[j]) <= key(p[i]);
        }
        InsertAtEnd(x, r', key);
        assert LastMaxIndex(s, key) == n - 1;
      } else {
        InsertKeepsLast(x, r', key);
        assert LastMaxIndex(s, key) == i;
      }
    }
  }

  /** SQL "limit n". */
  function Take<T(!new)>(s: seq<T>, n: nat): (r: seq<T>)
    ensures |r| == if |s| <= n then |s| else n
    ensures r == s[..|r|]
  {
    if |s| <= n then s else s[..n]
  }

  /** `page` holds the n candidates nearest by key, or all of them when there are fewer
      than n, in key order. */
  predicate TakesNearest<T(==, !new)>(page: seq<T>, cands: seq<T>, key: T -> int, n: nat)
  {
    && multiset(page) <= multiset(cands)
    && |page| == (if |cands| < n then |cands| else n)
    && (|cands| < n ==> multiset(page) == multiset(cands))
    && SortedBy(page, key)
    && (forall x, y :: x in page && y in cands && y !in page ==> key(x) <= key(y))
  }

  /** "order by key limit n" takes the n nearest candidates. */
  lemma TakeSortByNearest<T(!new)>(cands: seq<T>, key: T -> int, n: nat)
    ensures TakesNearest(Take(SortBy(cands, key), n), cands, key, n)
  {
    var s := SortBy(cands, key);
    var page := Take(s, n);
    assert s == page + s[|page|..];
    PrefixOfSorted(s, |page|, key);
    PrefixNearest(s, |page|, key);
  }

  lemma PrefixOfSorted<T(!new)>(s: seq<T>, m: nat, key: T -> int)
    requires SortedBy(s, key) && m <= |s|
    ensures SortedBy(s[..m], key)
  {
    forall i, j | 0 <= i < j < m ensures key(s[..m][i]) <= key(s[..m][j]) {
      assert s[..m][i] == s[i] && s[..m][j] == s[j];
    }
  }

  lemma PrefixNearest<T(!new)>(s: seq<T>, m: nat, key: T -> int)
    requires SortedBy(s, key) && m <= |s|
    ensures forall x, y :: x in s[..m] && y in s && y !in s[..m] ==> key(x) <= key(y)
  {
    forall x, y | x in s[..m] && y in s && y !in s[..m]
      ensures key(x) <= key(y)
    {
      var i :| 0 <= i < m && s[..m][i] == x;
      var j :| 0 <= j < |s| && s[j] == y;
      assert j >= m;
      assert s[i] == x;
    }
  }

  /** SQL "where": the elements of s that satisfy p, in the order of s. */
  function Filter<T(!new)>(s: seq<T>, p: T -> bool): (r: seq<T>)
    ensures forall y :: y in r <==> y in s && p(y)
    ensures multiset(r) <= multiset(s)
  {
    if s == [] then []
    else
      assert s == [s[0]] + s[1..];
      (if p(s[0]) then [s[0]] else []) + Filter(s[1..], p)
  }

  function MapSeq<A(!new), B(!new)>(s: seq<A>, f: A -> B): (r: seq<B>)
    ensures |r| == |s|
    ensures forall i :: 0 <= i < |s| ==> r[i] == f(s[i])
  {
    if s == [] then [] else [f(s[0])] + MapSeq(s[1..], f)
  }

  /** With distinct keys no element occurs twice. */
  lemma {:induction false} DistinctKeysMultiplicity<T(!new)>(s: seq<T>, key: T -> int, x: T)
    requires DistinctKeys(s, key)
    ensures multiset(s)[x] <= 1
  {
    if s != [] {
      var rest := s[1..];
      assert s == [s[0]] + rest;
      assert DistinctKeys(rest, key) by {
        forall i, j | 0 <= i < |rest| && 0 <= j < |rest| && i != j
          ensures key(rest[i]) != key(rest[j])
        {
          assert rest[i] == s[i + 1] && rest[j] == s[j + 1];
        }
      }
      DistinctKeysMultiplicity(rest, key, x);
      if x == s[0] {
        forall k | 0 <= k < |rest| ensures rest[k] != x {
          assert rest[k] == s[k + 1];
        }
      }
    }
  }

  /** Distinct keys carry over to every sub-multiset: a filtered, sorted or truncated
      selection of distinct-keyed items is distinct-keyed too. */
  lemma DistinctKeysSub<T(!new)>(a: seq<T>, p: seq<T>, key: T -> int)
    requires DistinctKeys(a, key)
    requires multiset(p) <= multiset(a)
    ensures DistinctKeys(p, key)
  {
    forall i, j | 0 <= i < |p| && 0 <= j < |p| && i != j
      ensures key(p[i]) != key(p[j])
    {
      assert p[i] in multiset(a) && p[j] in multiset(a);
      var ia :| 0 <= ia < |a| && a[ia] == p[i];
      var ja :| 0 <= ja < |a| && a[ja] == p[j];
      if p[i] == p[j] {
        var lo, hi := if i < j then i else j, if i < j then j else i;
        assert p == p[..hi] + p[hi..];
        assert p[lo] in p[..hi];
        assert p[hi] in p[hi..];
        assert multiset(p)[p[i]] == multiset(p[..hi])[p[i]] + multiset(p[hi..])[p[i]];
        DistinctKeysMultiplicity(a, key, p[i]);
        assert false;
      }
    }
  }

  lemma SortedDistinctIsStrict<T(!new)>(s: seq<T>, key: T -> int)
    requires SortedBy(s, key) && DistinctKeys(s, key)
    ensures StrictlySortedBy(s, key)
  {
  }

  /** Two strictly sorted sequences that hold the same elements are equal. */
  lemma {:induction false} StrictlySortedUnique<T(!new)>(a: seq<T>, b: seq<T>, key: T -> int)
    requires StrictlySortedBy(a, key) && StrictlySortedBy(b, key)
    requires forall x :: x in a <==> x in b
    ensures a == b
    decreases |a|
  {
    assert b != [] ==> b[0] in a;
    if a != [] {
      assert a[0] in b;
      assert b != [];
      assert b[0] in a;
      var m :| 0 <= m < |a| && a[m] == b[0];
      var k :| 0 <= k < |b| && b[k] == a[0];
      assert m == 0;
      forall x ensures x in a[1..] <==> x in b[1..] {
        if x in a[1..] {
          var i :| 0 <= i < |a[1..]| && a[1..][i] == x;
          assert key(a[0]) < key(a[i + 1]);
          assert x in b;
          assert x != b[0];
          var j :| 0 <= j < |b| && b[j] == x;
          assert j > 0;
          assert b[1..][j - 1] == x;
        }
        if x in b[1..] {
          var j :| 0 <= j < |b[1..]| && b[1..][j] == x;
          assert key(b[0]) < key(b[j + 1]);
          assert x in a;
          assert x != a[0];
          var i :| 0 <= i < |a| && a[i] == x;
          assert i > 0;
          assert a[1..][i - 1] == x;
        }
      }
      StrictlySortedUnique(a[1..], b[1..], key);
      assert a == [a[0]] + a[1..];
      assert b == [b[0]] + b[1..];
    }
  }

  lemma DistinctValues<T(!new)>(s: seq<T>, key: T -> int, x: T, y: T)
    requires DistinctKeys(s, key) && x in s && y in s && x != y
    ensures key(x) != key(y)
  {
    var i :| 0 <= i < |s| && s[i] == x;
    var j :| 0 <= j < |s| && s[j] == y;
  }

  /** With distinct keys, every candidate left out is strictly farther than every one taken. */
  lemma NearestStrict<T(!new)>(page: seq<T>, cands: seq<T>, key: T -> int, n: nat)
    requires TakesNearest(page, cands, key, n) && DistinctKeys(cands, key)
    ensures forall x, y :: x in page && y in cands && y !in page ==> key(x) < key(y)
  {
    forall x, y | x in page && y in cands && y !in page
      ensures key(x) < key(y)
    {
      assert x in multiset(cands);
      DistinctValues(cands, key, x, y);
    }
  }

  /** Sorting a selection out of a distinct-keyed collection gives a strictly sorted sequence. */
  lemma SortedSubIsStrict<T(!new)>(all: seq<T>, s: seq<T>, key: T -> int)
    requires DistinctKeys(all, key) && multiset(s) <= multiset(all)
    ensures StrictlySortedBy(SortBy(s, key), key)
  {
    DistinctKeysSub(all, SortBy(s, key), key);
  }

  lemma ConcatStrict<T(!new)>(a: seq<T>, b: seq<T>, key: T -> int)
    requires StrictlySortedBy(a, key) && StrictlySortedBy(b, key)
    requires forall x, y :: x in a && y in b ==> key(x) < key(y)
    ensures StrictlySortedBy(a + b, key)
  {
    forall i, j | 0 <= i < j < |a + b| ensures key((a + b)[i]) < key((a + b)[j]) {
      if j >= |a| && i < |a| {
        assert (a + b)[i] == a[i] && (a + b)[j] == b[j - |a|];
      }
    }
  }
}
