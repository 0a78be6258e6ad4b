/** Sums of marble counts, used to state that no marble is ever created or lost. */
module Sums {

  /** The sum of a sequence, peeled from the back so that a running total
      grows by one element per step. */
  function SumOf(s: seq<int>): int
  {
    if s == [] then 0 else SumOf(s[..|s| - 1]) + s[|s| - 1]
  }

  /** Extending a slice by one element adds that element. */
  lemma SumOfSliceExtend(s: seq<int>, lo: nat, hi: nat)
    requires lo <= hi < |s|
    ensures SumOf(s[lo..hi + 1]) == SumOf(s[lo..hi]) + s[hi]
  {
    assert s[lo..hi + 1][..hi - lo] == s[lo..hi];
  }

  /** Replacing one element changes the sum by the difference. */
  lemma {:induction false} SumOfUpdate(s: seq<int>, i: int, v: int)
    requires 0 <= i < |s|
    ensures SumOf(s[i := v]) == SumOf(s) - s[i] + v
  {
    var n := |s|;
    if i == n - 1 {
      assert s[i := v][..n - 1] == s[..n - 1];
    } else {
      assert s[i := v][..n - 1] == s[..n - 1][i := v];
      SumOfUpdate(s[..n - 1], i, v);
    }
  }

  /** The sum of a concatenation is the sum of the parts. */
  lemma {:induction false} SumOfConcat(s: seq<int>, t: seq<int>)
    ensures SumOf(s + t) == SumOf(s) + SumOf(t)
  {
    if t == [] {
      assert s + t == s;
    } else {
      var n := |t|;
      assert (s + t)[..|s + t| - 1] == s + t[..n - 1];
      SumOfConcat(s, t[..n - 1]);
    }
  }

  /** A sequence of non-negative counts has a non-negative sum. */
  lemma {:induction false} SumOfNonNegative(s: seq<int>)
    requires forall i :: 0 <= i < |s| ==> s[i] >= 0
    ensures SumOf(s) >= 0
  {
    if s != [] {
      SumOfNonNegative(s[..|s| - 1]);
    }
  }

  /** A sequence of zeros sums to zero. */
  lemma {:induction false} SumOfZeros(s: seq<int>)
    requires forall i :: 0 <= i < |s| ==> s[i] == 0
    ensures SumOf(s) == 0
  {
    if s != [] {
      SumOfZeros(s[..|s| - 1]);
    }
  }

  /** A sequence holding `c` everywhere sums to `c` times its length. */
  lemma {:induction false} SumOfConstant(s: seq<int>, c: int)
    requires forall i :: 0 <= i < |s| ==> s[i] == c
    ensures SumOf(s) == c * |s|
  {
    if s != [] {
      SumOfConstant(s[..|s| - 1], c);
    }
  }
}
