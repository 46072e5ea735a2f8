/**
 * Generic facts about sequences shared by the prefix-recursive definitions
 * of the model. Stating "some element ..." through these predicates keeps
 * the element function abstract while a proof walks the sequence.
 */
module SeqFacts {
  /** Some element of xs satisfies p. */
  predicate SomeSatisfies<T>(xs: seq<T>, p: T -> bool) {
    exists i :: 0 <= i < |xs| && p(xs[i])
  }

  /** An element satisfying p is either among the first elements or the last one. */
  lemma SomeSatisfiesSplit<T>(xs: seq<T>, p: T -> bool)
    requires xs != []
    ensures SomeSatisfies(xs, p) <==> SomeSatisfies(xs[..|xs| - 1], p) || p(xs[|xs| - 1])
  {
    var init := xs[..|xs| - 1];
    if SomeSatisfies(xs, p) {
      var i :| 0 <= i < |xs| && p(xs[i]);
      if i < |init| {
        assert init[i] == xs[i];
      }
    }
    if SomeSatisfies(init, p) {
      var i :| 0 <= i < |init| && p(init[i]);
      assert xs[i] == init[i];
    }
  }

  /** Some element of xs is mapped to y by f. */
  predicate SomeMapsTo<T, U(==)>(xs: seq<T>, f: T -> U, y: U) {
    exists i :: 0 <= i < |xs| && f(xs[i]) == y
  }

  /** An element mapped to y is either among the first elements or the last one. */
  lemma SomeMapsToSplit<T, U>(xs: seq<T>, f: T -> U, y: U)
    requires xs != []
    ensures SomeMapsTo(xs, f, y) <==> SomeMapsTo(xs[..|xs| - 1], f, y) || f(xs[|xs| - 1]) == y
  {
    var init := xs[..|xs| - 1];
    if SomeMapsTo(xs, f, y) {
      var i :| 0 <= i < |xs| && f(xs[i]) == y;
      if i < |init| {
        assert init[i] == xs[i];
      }
    }
    if SomeMapsTo(init, f, y) {
      var i :| 0 <= i < |init| && f(init[i]) == y;
      assert xs[i] == init[i];
    }
  }

  /** The images under f of the elements satisfying p, in order (a filter followed by a map). */
  function FilterMap<T, U>(xs: seq<T>, p: T -> bool, f: T -> U): seq<U>
    decreases |xs|
  {
    if xs == [] then []
    else
      var last := xs[|xs| - 1];
      FilterMap(xs[..|xs| - 1], p, f) + (if p(last) then [f(last)] else [])
  }

  /**
   * The k-th element of FilterMap comes from the idx[k]-th element of xs,
   * which satisfies p; idx increases, and every element satisfying p is
   * among them.
   */
  lemma {:induction false} FilterMapIndices<T, U>(xs: seq<T>, p: T -> bool, f: T -> U) returns (idx: seq<nat>)
    ensures |idx| == |FilterMap(xs, p, f)|
    ensures forall k :: 0 <= k < |idx| ==>
      idx[k] < |xs| && p(xs[idx[k]]) && FilterMap(xs, p, f)[k] == f(xs[idx[k]])
    ensures forall k, k' :: 0 <= k < k' < |idx| ==> idx[k] < idx[k']
    ensures forall j :: 0 <= j < |xs| && p(xs[j]) ==> j in idx
    decreases |xs|
  {
    if xs == [] {
      idx := [];
    } else {
      var n := |xs| - 1;
      var init := xs[..n];
      var before := FilterMapIndices(init, p, f);
      var prev := FilterMap(init, p, f);
      var r := FilterMap(xs, p, f);
      assert r == prev + (if p(xs[n]) then [f(xs[n])] else []);
      idx := if p(xs[n]) then before + [n] else before;
      forall k | 0 <= k < |idx| ensures idx[k] < |xs| && p(xs[idx[k]]) && r[k] == f(xs[idx[k]]) {
        if k < |before| {
          assert idx[k] == before[k] && r[k] == prev[k] && xs[before[k]] == init[before[k]];
        }
      }
      forall k, k' | 0 <= k < k' < |idx| ensures idx[k] < idx[k'] {
        assert idx[k] == before[k] && before[k] < n;
        if k' < |before| {
          assert idx[k'] == before[k'];
        }
      }
      forall j | 0 <= j < n && p(xs[j]) ensures j in idx {
        assert p(init[j]);
        var k :| 0 <= k < |before| && before[k] == j;
        assert idx[k] == j;
      }
      if p(xs[n]) {
        assert idx[|before|] == n;
      }
    }
  }

  /** Appending to a log that already ends with some entries extends those entries. */
  lemma AppendAfterConcat<T>(before: seq<T>, done: seq<T>, x: T)
    ensures (before + done) + [x] == before + (done + [x])
  {
  }

  /** A log extended by no entries is unchanged. */
  lemma NothingAppended<T>(log: seq<T>)
    ensures log + [] == log
  {
  }
}
