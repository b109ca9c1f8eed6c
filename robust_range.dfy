/**
 * Sorting of a scalar field, as std::sort is used by the colour coding:
 * only its result matters, an ascending permutation of the input.
 */
module Sorting {

  predicate Sorted(s: seq<real>)
  {
    forall i, j :: 0 <= i < j < |s| ==> s[i] <= s[j]
  }

  /** A value below every element of a sorted sequence can be put in front of it. */
  lemma SortedCons(a: real, t: seq<real>)
    requires Sorted(t)
    requires forall p :: 0 <= p < |t| ==> a <= t[p]
    ensures Sorted([a] + t)
  {
    var r := [a] + t;
    forall i, j | 0 <= i < j < |r|
      ensures r[i] <= r[j]
    {
      assert r[j] == t[j - 1];
      if i > 0 {
        assert r[i] == t[i - 1];
      }
    }
  }

  /** A common lower bound of x and of the elements of s bounds every rearrangement of them. */
  lemma LowerBound(b: real, x: real, s: seq<real>, r: seq<real>)
    requires multiset(r) == multiset(s) + multiset{x}
    requires b <= x && forall q :: 0 <= q < |s| ==> b <= s[q]
    ensures forall p :: 0 <= p < |r| ==> b <= r[p]
  {
    forall p | 0 <= p < |r|
      ensures b <= r[p]
    {
      assert r[p] in multiset(r);
      if r[p] != x {
        assert r[p] in multiset(s);
        var q :| 0 <= q < |s| && s[q] == r[p];
      }
    }
  }

  /** Inserts x into a sorted sequence, before the first element not below it. */
  function Insert(x: real, s: seq<real>): (r: seq<real>)
    requires Sorted(s)
    ensures Sorted(r)
    ensures multiset(r) == multiset(s) + multiset{x}
  {
    if s == [] || x <= s[0] then
      SortedCons(x, s);
      [x] + s
    else
      var rest := Insert(x, s[1..]);
      assert s == [s[0]] + s[1..];
      LowerBound(s[0], x, s[1..], rest);
      SortedCons(s[0], rest);
      [s[0]] + rest
  }

  /** Insertion sort: an ascending rearrangement of s. */
  function Sort(s: seq<real>): (r: seq<real>)
    ensures Sorted(r)
    ensures multiset(r) == multiset(s)
    ensures |r| == |s|
  {
    if s == [] then []
    else
      assert s == [s[0]] + s[1..];
      Insert(s[0], Sort(s[1..]))
  }
}

/**
 * The robust range of color_coding: the sorted field is clipped at an
 * index i = (size - 1) / 20 from below and at size - 2 - i from above.
 */
module PercentileClip {
  import opened Sorting

  /**
   * The two indices of the clipped range, in the source's unsigned 32-bit
   * arithmetic.  Both are inside the field exactly when it has at least
   * two values: below that, size - 1 wraps around.
   */
  function UnsignedClipIndices(size: nat): (r: (nat, nat))
    requires size < 0x1_0000_0000
    ensures r.0 < size && r.1 < size <==> size >= 2
    ensures size >= 2 ==> r.0 == (size - 1) / 20 && r.1 == size - 2 - r.0
    ensures size < 2 ==> r.1 >= size
    ensures r.0 < 0x1_0000_0000 && r.1 < 0x1_0000_0000
  {
    var n := (size - 1) % 0x1_0000_0000;
    var i := n / 20;
    assert size >= 2 ==> n == size - 1 && 2 * i <= n - 1;
    (i, (n - 1 - i) % 0x1_0000_0000)
  }

  /** The lower clip index. */
  function LowIndex(size: nat): (i: nat)
    requires size >= 2
    ensures i <= size - 2 - i
  {
    (size - 1) / 20
  }

  /**
   * The range [min, max] color_coding maps onto the colour ramp:
   * values[i] and values[n - 1 - i] of the sorted field, n = size - 1.
   */
  function RobustRange(values: seq<real>): (r: (real, real))
    requires |values| >= 2
    ensures r.0 <= r.1
    ensures r.0 in multiset(values) && r.1 in multiset(values)
  {
    var sorted := Sort(values);
    var n := |values| - 1;
    var i := LowIndex(|values|);
    assert sorted[i] in multiset(sorted) && sorted[n - 1 - i] in multiset(sorted);
    (sorted[i], sorted[n - 1 - i])
  }

  /** x is strictly larger than every other value of the field. */
  predicate UniqueMax(values: seq<real>, k: nat)
  {
    k < |values| && forall j :: 0 <= j < |values| && j != k ==> values[j] < values[k]
  }

  /** x is strictly smaller than every other value of the field. */
  predicate UniqueMin(values: seq<real>, k: nat)
  {
    k < |values| && forall j :: 0 <= j < |values| && j != k ==> values[k] < values[j]
  }

  /** A value occurring once in s occurs once in every rearrangement of s. */
  lemma SingleOccurrence(values: seq<real>, k: nat)
    requires k < |values|
    requires forall j :: 0 <= j < |values| && j != k ==> values[j] != values[k]
    ensures multiset(values)[values[k]] == 1
  {
    var x := values[k];
    assert values == values[..k] + [x] + values[k + 1..];
    assert x !in values[..k];
    assert x !in values[k + 1..];
    assert multiset(values[..k])[x] == 0;
    assert multiset(values[k + 1..])[x] == 0;
  }

  /** Two positions of a sequence holding x give x a multiplicity of at least two. */
  lemma TwoOccurrences(t: seq<real>, p: nat, q: nat)
    requires p < q < |t| && t[p] == t[q]
    ensures multiset(t)[t[p]] >= 2
  {
    var x := t[p];
    assert t == t[..p] + [x] + t[p + 1..q] + [x] + t[q + 1..];
  }

  /** Every value of a rearrangement is one of the original values. */
  lemma FromOriginal(values: seq<real>, t: seq<real>, p: nat) returns (j: nat)
    requires multiset(t) == multiset(values) && p < |t|
    ensures j < |values| && values[j] == t[p]
  {
    assert t[p] in multiset(values);
    j :| 0 <= j < |values| && values[j] == t[p];
  }

  /**
   * The clipped maximum always discards the largest value: a value
   * larger than all others is never inside the robust range.
   */
  lemma UniqueMaxExcluded(values: seq<real>, k: nat)
    requires |values| >= 2 && UniqueMax(values, k)
    ensures RobustRange(values).1 < values[k]
  {
    var t := Sort(values);
    var n := |values|;
    var x := values[k];
    var j := FromOriginal(values, t, n - 2);
    var j' := FromOriginal(values, t, n - 1);
    if t[n - 2] >= x {
      assert j == k;
      assert t[n - 1] >= t[n - 2];
      assert j' == k;
      TwoOccurrences(t, n - 2, n - 1);
      SingleOccurrence(values, k);
      assert false;
    }
    assert t[n - 2 - LowIndex(n)] <= t[n - 2];
  }

  /**
   * With at least 21 values the lower clip index is positive, so a value
   * smaller than all others is excluded from the range too.
   */
  lemma UniqueMinExcluded(values: seq<real>, k: nat)
    requires |values| >= 21 && UniqueMin(values, k)
    ensures values[k] < RobustRange(values).0
  {
    var t := Sort(values);
    var n := |values|;
    var x := values[k];
    var j := FromOriginal(values, t, 1);
    var j' := FromOriginal(values, t, 0);
    if t[1] <= x {
      assert j == k;
      assert t[0] <= t[1];
      assert j' == k;
      TwoOccurrences(t, 0, 1);
      SingleOccurrence(values, k);
      assert false;
    }
    assert LowIndex(n) >= 1;
    assert t[1] <= t[LowIndex(n)];
  }

  /** With fewer than 21 values nothing is clipped from below: min is the smallest value. */
  lemma SmallFieldKeepsMinimum(values: seq<real>)
    requires 2 <= |values| < 21
    ensures forall j :: 0 <= j < |values| ==> RobustRange(values).0 <= values[j]
  {
    var t := Sort(values);
    forall j | 0 <= j < |values|
      ensures t[0] <= values[j]
    {
      assert values[j] in multiset(t);
      var p :| 0 <= p < |t| && t[p] == values[j];
    }
  }
}
