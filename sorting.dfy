/**
 * Python's sorted() on lists of integers, as an insertion sort, and the
 * fact that makes `sorted(a) == sorted(b)` a multiset comparison.
 */
module IntSort {

  predicate Sorted(s: seq<int>) {
    forall i, j :: 0 <= i < j < |s| ==> s[i] <= s[j]
  }

  function Insert(x: int, s: seq<int>): (r: seq<int>)
    requires Sorted(s)
    ensures Sorted(r)
    ensures multiset(r) == multiset(s) + multiset{x}
    ensures |r| == |s| + 1
    ensures r[0] == x || (s != [] && r[0] == s[0])
  {
    if s == [] then [x]
    else if x <= s[0] then
      ConsSorted(x, s);
      [x] + s
    else
      assert s == [s[0]] + s[1..];
      var t := Insert(x, s[1..]);
      ConsSorted(s[0], t);
      [s[0]] + t
  }

  /** A head no larger than the first element of a sorted tail keeps it sorted. */
  lemma ConsSorted(h: int, t: seq<int>)
    requires Sorted(t) && (t == [] || h <= t[0])
    ensures Sorted([h] + t)
  {
    var r := [h] + t;
    forall i, j | 0 <= i < j < |r| ensures r[i] <= r[j] {
      if i == 0 {
        assert r[j] == t[j - 1] && t[0] <= t[j - 1];
      } else {
        assert r[i] == t[i - 1] && r[j] == t[j - 1];
      }
    }
  }

  /** sorted(s): ascending, a permutation of s. */
  function Sort(s: seq<int>): (r: seq<int>)
    ensures Sorted(r)
    ensures multiset(r) == multiset(s)
    ensures |r| == |s|
  {
    if s == [] then []
    else
      assert s == [s[0]] + s[1..];
      Insert(s[0], Sort(s[1..]))
  }

  /** The head of a sorted sequence is its least element. */
  lemma HeadIsLeast(a: seq<int>, x: int)
    requires Sorted(a) && x in multiset(a)
    ensures a[0] <= x
  {
    assert x in a;
    var i :| 0 <= i < |a| && a[i] == x;
  }

  /** A sorted sequence is determined by its multiset of elements. */
  lemma {:induction false} SortedUnique(a: seq<int>, b: seq<int>)
    requires Sorted(a) && Sorted(b) && multiset(a) == multiset(b)
    ensures a == b
    decreases |a|
  {
    assert |b| == |a| by { assert |multiset(a)| == |multiset(b)|; }
    if a != [] {
      assert a[0] in a && b[0] in b;
      HeadIsLeast(a, b[0]);
      HeadIsLeast(b, a[0]);
      var x := a[0];
      assert b[0] == x;
      TailMultiset(a);
      TailMultiset(b);
      SortedTail(a);
      SortedTail(b);
      SortedUnique(a[1..], b[1..]);
      assert a == [x] + a[1..];
      assert b == [x] + b[1..];
    }
  }

  lemma SortedTail(a: seq<int>)
    requires a != [] && Sorted(a)
    ensures Sorted(a[1..])
  {
  }

  lemma TailMultiset(a: seq<int>)
    requires a != []
    ensures multiset(a[1..]) == multiset(a) - multiset{a[0]}
  {
    assert a == [a[0]] + a[1..];
  }

  lemma SortEqualIff(a: seq<int>, b: seq<int>)
    ensures Sort(a) == Sort(b) <==> multiset(a) == multiset(b)
  {
    if multiset(a) == multiset(b) {
      SortedUnique(Sort(a), Sort(b));
    }
  }

  predicate Distinct(s: seq<int>) {
    forall i, j :: 0 <= i < j < |s| ==> s[i] != s[j]
  }

  predicate StrictlySorted(s: seq<int>) {
    forall i, j :: 0 <= i < j < |s| ==> s[i] < s[j]
  }

  lemma {:induction false} DistinctOccursOnce(s: seq<int>, x: int)
    requires Distinct(s)
    ensures multiset(s)[x] <= 1
    decreases |s|
  {
    if s != [] {
      assert s == [s[0]] + s[1..];
      assert Distinct(s[1..]) by {
        forall i, j | 0 <= i < j < |s[1..]| ensures s[1..][i] != s[1..][j] {
          assert s[1..][i] == s[i + 1] && s[1..][j] == s[j + 1];
        }
      }
      DistinctOccursOnce(s[1..], x);
      if s[0] == x {
        assert x !in s[1..] by {
          forall k | 0 <= k < |s[1..]| ensures s[1..][k] != x {
            assert s[1..][k] == s[k + 1];
          }
        }
      }
    }
  }

  lemma RepeatOccursTwice(r: seq<int>, i: nat, j: nat)
    requires i < j < |r| && r[i] == r[j]
    ensures multiset(r)[r[i]] >= 2
  {
    assert r == r[..i] + [r[i]] + r[i + 1..j] + [r[j]] + r[j + 1..];
  }

  /** Sorting a list without repetitions gives a strictly increasing list. */
  lemma SortDistinct(s: seq<int>)
    requires Distinct(s)
    ensures StrictlySorted(Sort(s))
  {
    var r := Sort(s);
    forall i, j | 0 <= i < j < |r| ensures r[i] < r[j] {
      if r[i] == r[j] {
        RepeatOccursTwice(r, i, j);
        DistinctOccursOnce(s, r[i]);
        assert false;
      }
    }
  }

  /** Two strictly increasing sequences with the same elements are equal. */
  lemma {:induction false} StrictlySortedSameElements(a: seq<int>, b: seq<int>)
    requires StrictlySorted(a) && StrictlySorted(b)
    requires forall x :: x in a <==> x in b
    ensures a == b
    decreases |a|
  {
    assert a != [] ==> a[0] in a;
    assert b != [] ==> b[0] in b;
    if a != [] && b != [] {
      assert a[0] == b[0];
      assert forall x :: x in a[1..] <==> x in a && x != a[0];
      assert forall x :: x in b[1..] <==> x in b && x != b[0];
      StrictlySortedSameElements(a[1..], b[1..]);
      assert a == [a[0]] + a[1..] && b == [b[0]] + b[1..];
    }
  }

  // ---------------------------------------------------------------------
  // Stable descending order: sorted(range(n), key=sc, reverse=True)
  // ---------------------------------------------------------------------

  /** Index i comes before j: a larger key, or an equal key and an earlier position. */
  predicate Precedes(sc: seq<int>, i: nat, j: nat)
    requires i < |sc| && j < |sc|
  {
    sc[i] > sc[j] || (sc[i] == sc[j] && i < j)
  }

  predicate InRange(sc: seq<int>, order: seq<nat>) {
    forall k :: 0 <= k < |order| ==> order[k] < |sc|
  }

  predicate Ordered(sc: seq<int>, order: seq<nat>)
    requires InRange(sc, order)
  {
    forall a, b :: 0 <= a < b < |order| ==> Precedes(sc, order[a], order[b])
  }

  /** Insert index k, larger than every index already placed, after the entries that precede it. */
  function InsertIndex(sc: seq<int>, k: nat, order: seq<nat>): (r: seq<nat>)
    requires k < |sc| && InRange(sc, order) && Ordered(sc, order)
    requires forall x: nat :: x in order ==> x < k
    ensures |r| == |order| + 1
    ensures forall x: nat :: x in r <==> x in order || x == k
    ensures InRange(sc, r) && Ordered(sc, r)
    decreases |order|
  {
    if order == [] then [k]
    else if sc[order[0]] < sc[k] then
      [k] + order
    else
      assert order[0] in order;
      assert Precedes(sc, order[0], k);
      assert forall x: nat :: x in order[1..] ==> x in order;
      var rest := InsertIndex(sc, k, order[1..]);
      assert forall x: nat :: x in rest ==> Precedes(sc, order[0], x) by {
        forall x | x in rest ensures Precedes(sc, order[0], x) {
          if x != k {
            var b :| 0 <= b < |order[1..]| && order[1..][b] == x;
            assert order[b + 1] == x;
          }
        }
      }
      [order[0]] + rest
  }

  /** The stable order of the first n indices: sorted(..., reverse=True) on the scores. */
  function StableOrder(sc: seq<int>, n: nat): (r: seq<nat>)
    requires n <= |sc|
    ensures |r| == n
    ensures forall x: nat :: x in r <==> x < n
    ensures InRange(sc, r) && Ordered(sc, r)
  {
    if n == 0 then [] else InsertIndex(sc, n - 1, StableOrder(sc, n - 1))
  }

}
