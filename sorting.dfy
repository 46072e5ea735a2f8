/**
 * Python's list.sort(key=..., reverse=...) as insertion sort under a total
 * preorder: the result is ordered and is a permutation of the input.
 * Elements that compare equal keep their relative order (insertion goes after
 * every element that is not strictly greater), as Python's stable sort does.
 */
module Sorting {

  /** le is total and transitive. */
  ghost predicate TotalPreorder<T(!new)>(le: (T, T) -> bool) {
    && (forall a, b :: le(a, b) || le(b, a))
    && (forall a, b, c :: le(a, b) && le(b, c) ==> le(a, c))
  }

  ghost predicate SortedBy<T>(s: seq<T>, le: (T, T) -> bool) {
    forall i, j :: 0 <= i < j < |s| ==> le(s[i], s[j])
  }

  /** Inserts x after the longest prefix of s whose elements are not strictly after x. */
  function Insert<T(==,!new)>(x: T, s: seq<T>, le: (T, T) -> bool): (r: seq<T>)
    ensures multiset(r) == multiset(s) + multiset{x}
    ensures |r| == |s| + 1
  {
    if s == [] then [x]
    else if !le(s[0], x) then [x] + s
    else
      var t := Insert(x, s[1..], le);
      assert s == [s[0]] + s[1..];
      [s[0]] + t
  }

  lemma {:induction false} InsertSorted<T(!new)>(x: T, s: seq<T>, le: (T, T) -> bool)
    requires TotalPreorder(le)
    requires SortedBy(s, le)
    ensures SortedBy(Insert(x, s, le), le)
  {
    if s == [] {
    } else if !le(s[0], x) {
      assert le(x, s[0]);
      var r := [x] + s;
      forall i, j | 0 <= i < j < |r| ensures le(r[i], r[j]) {
        if i == 0 {
          assert r[j] == s[j - 1];
          if j > 1 {
            assert le(s[0], s[j - 1]);
          }
        } else {
          assert r[i] == s[i - 1] && r[j] == s[j - 1];
        }
      }
    } else {
      var t := Insert(x, s[1..], le);
      InsertSorted(x, s[1..], le);
      var r := [s[0]] + t;
      forall i, j | 0 <= i < j < |r| ensures le(r[i], r[j]) {
        if i == 0 {
          assert r[j] in multiset(t);
          if r[j] != x {
            assert r[j] in multiset(s[1..]);
            var k :| 0 <= k < |s[1..]| && s[1..][k] == r[j];
            assert le(s[0], s[k + 1]);
          }
        } else {
          assert r[i] == t[i - 1] && r[j] == t[j - 1];
        }
      }
    }
  }

  /** Every element of the input has a position in the sorted output. */
  lemma SortKeepsElement<T(!new)>(s: seq<T>, le: (T, T) -> bool, j: nat)
    requires j < |s|
    ensures exists k :: 0 <= k < |Sort(s, le)| && Sort(s, le)[k] == s[j]
  {
    var r := Sort(s, le);
    assert s[j] in multiset(r);
    var k :| 0 <= k < |r| && r[k] == s[j];
  }

  /** list.sort: stable insertion sort of s under le. */
  function Sort<T(==,!new)>(s: seq<T>, le: (T, T) -> bool): (r: seq<T>)
    ensures multiset(r) == multiset(s)
    ensures |r| == |s|
  {
    if s == [] then []
    else
      assert s == s[..|s| - 1] + [s[|s| - 1]];
      Insert(s[|s| - 1], Sort(s[..|s| - 1], le), le)
  }

  lemma {:induction false} SortSorted<T(!new)>(s: seq<T>, le: (T, T) -> bool)
    requires TotalPreorder(le)
    ensures SortedBy(Sort(s, le), le)
  {
    if s != [] {
      SortSorted(s[..|s| - 1], le);
      InsertSorted(s[|s| - 1], Sort(s[..|s| - 1], le), le);
    }
  }

  /** Under an antisymmetric order, two sorted arrangements of the same elements are the same sequence. */
  lemma {:induction false} SortedUnique<T(!new)>(x: seq<T>, y: seq<T>, le: (T, T) -> bool)
    requires forall a, b :: le(a, b) && le(b, a) ==> a == b
    requires SortedBy(x, le) && SortedBy(y, le)
    requires multiset(x) == multiset(y)
    ensures x == y
    decreases |x|
  {
    if x != [] {
      assert |y| == |x| by { assert |multiset(y)| == |multiset(x)|; }
      SortedHeadsAgree(x, y, le);
      TailsSameElements(x, y);
      assert SortedBy(x[1..], le) && SortedBy(y[1..], le);
      SortedUnique(x[1..], y[1..], le);
      assert x == [x[0]] + x[1..] && y == [y[0]] + y[1..];
    }
  }

  /** Two arrangements of the same elements with the same first element have the same rest. */
  lemma TailsSameElements<T>(x: seq<T>, y: seq<T>)
    requires multiset(x) == multiset(y) && x != [] && y != [] && x[0] == y[0]
    ensures multiset(x[1..]) == multiset(y[1..])
  {
    assert x == [x[0]] + x[1..] && y == [y[0]] + y[1..];
    assert multiset(x[1..]) == multiset(x) - multiset{x[0]};
    assert multiset(y[1..]) == multiset(y) - multiset{y[0]};
  }

  /** The first elements of two sorted arrangements of the same non-empty multiset agree. */
  lemma SortedHeadsAgree<T(!new)>(x: seq<T>, y: seq<T>, le: (T, T) -> bool)
    requires forall a, b :: le(a, b) && le(b, a) ==> a == b
    requires SortedBy(x, le) && SortedBy(y, le)
    requires multiset(x) == multiset(y) && x != [] && y != []
    ensures x[0] == y[0]
  {
    assert x[0] in multiset(y) && y[0] in multiset(x);
    var i :| 0 <= i < |y| && y[i] == x[0];
    var j :| 0 <= j < |x| && x[j] == y[0];
    if i > 0 && j > 0 {
      assert le(y[0], y[i]) && le(x[0], x[j]);
    }
  }
}
