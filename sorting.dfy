/** An insertion sort on sequences by a real-valued key: the model of
    Array.prototype.sort with a numeric comparator and of one of the orders
    SQL's ORDER BY on a numeric expression may give. */
module Sorting {

  predicate SortedBy<T>(s: seq<T>, key: T -> real) {
    forall i, j :: 0 <= i < j < |s| ==> key(s[i]) <= key(s[j])
  }

  /** Inserts `x` in front of the first element whose key is not smaller. */
  function Insert<T>(x: T, s: seq<T>, key: T -> real): (r: seq<T>)
    ensures multiset(r) == multiset(s) + multiset{x}
    ensures |r| == |s| + 1
    ensures r[0] == x || (s != [] && r[0] == s[0])
  {
    if s == [] || key(x) <= key(s[0]) then [x] + s
    else
      assert s == [s[0]] + s[1..];
      [s[0]] + Insert(x, s[1..], key)
  }

  /** Inserting into a sorted sequence keeps it sorted. */
  lemma {:induction false} InsertSorted<T>(x: T, s: seq<T>, key: T -> real)
    requires SortedBy(s, key)
    ensures SortedBy(Insert(x, s, key), key)
  {
    if s != [] && key(s[0]) < key(x) {
      InsertSorted(x, s[1..], key);
      var rest := Insert(x, s[1..], key);
      assert key(s[0]) <= key(rest[0]);
      assert forall i :: 0 < i < |rest| + 1 ==> Insert(x, s, key)[i] == rest[i - 1];
    }
  }

  /** The elements of `s` in ascending key order. */
  function SortBy<T>(s: seq<T>, key: T -> real): (r: seq<T>)
    ensures SortedBy(r, key)
    ensures multiset(r) == multiset(s)
    ensures |r| == |s|
  {
    if s == [] then []
    else
      var rest := SortBy(s[1..], key);
      InsertSorted(s[0], rest, key);
      assert s == [s[0]] + s[1..];
      assert multiset(s) == multiset(s[1..]) + multiset{s[0]};
      Insert(s[0], rest, key)
  }

  /** Elements are kept: membership is the same before and after sorting. */
  lemma SortByMembers<T>(s: seq<T>, key: T -> real, x: T)
    ensures x in SortBy(s, key) <==> x in s
  {
    var r := SortBy(s, key);
    assert x in r <==> x in multiset(r);
    assert x in s <==> x in multiset(s);
  }

  /** Taking a prefix of a sorted sequence: every element left out has a key at
      least as large as every element kept. */
  lemma {:induction false} SortedPrefixNearest<T>(s: seq<T>, key: T -> real, n: nat, x: T)
    requires SortedBy(s, key)
    requires n <= |s|
    requires x in s && x !in s[..n]
    ensures forall i :: 0 <= i < n ==> key(s[i]) <= key(x)
  {
    var j :| 0 <= j < |s| && s[j] == x;
    assert j >= n;
  }

  /** A sorted sequence is its own sort. */
  lemma {:induction false} SortBySorted<T>(s: seq<T>, key: T -> real)
    requires SortedBy(s, key)
    ensures SortBy(s, key) == s
  {
    if s != [] {
      SortBySorted(s[1..], key);
      assert s == [s[0]] + s[1..];
      assert s[1..] == [] || key(s[0]) <= key(s[1..][0]);
    }
  }

  ghost predicate Distinct<T>(s: seq<T>) {
    forall i, j :: 0 <= i < j < |s| ==> s[i] != s[j]
  }

  /** In a sequence without repeats every value occurs at most once. */
  lemma {:induction false} DistinctCount<T>(s: seq<T>, x: T)
    requires Distinct(s)
    ensures multiset(s)[x] <= 1
  {
    if s != [] {
      var p := s[..|s| - 1];
      assert s == p + [s[|s| - 1]];
      DistinctCount(p, x);
      if x == s[|s| - 1] {
        assert x !in p;
      }
    }
  }

  /** A value at two positions occurs at least twice. */
  lemma DuplicateCount<T>(s: seq<T>, i: nat, j: nat)
    requires i < j < |s|
    ensures s[i] == s[j] ==> multiset(s)[s[i]] >= 2
  {
    assert s == s[..j] + [s[j]] + s[j + 1..];
    assert s[..j][i] == s[i];
    assert s[i] in multiset(s[..j]);
  }

  /** A permutation of a sequence without repeats has none either. */
  lemma PermutationDistinct<T>(s: seq<T>, r: seq<T>)
    requires Distinct(s) && multiset(r) == multiset(s)
    ensures Distinct(r)
  {
    forall i, j | 0 <= i < j < |r|
      ensures r[i] != r[j]
    {
      DuplicateCount(r, i, j);
      DistinctCount(s, r[i]);
    }
  }

  /** Each element of a sequence has a position in any permutation of it. */
  lemma InPermutation<T>(s: seq<T>, r: seq<T>, a: nat)
    requires a < |s| && multiset(r) == multiset(s)
    ensures exists b :: 0 <= b < |r| && r[b] == s[a]
  {
    assert s[a] in multiset(r);
  }
}
