/** Arithmetic over exact reals standing in for the source's floating-point values. */
module Reals {

  function Sum(s: seq<real>): real
    decreases |s|
  {
    if s == [] then 0.0 else s[0] + Sum(s[1..])
  }

  /** Every element strictly above `lo` puts the sum strictly above `|s| * lo`;
      every element at most `hi` keeps it at most `|s| * hi`. */
  lemma {:induction false} SumBounds(s: seq<real>, lo: real, hi: real)
    requires forall i :: 0 <= i < |s| ==> lo < s[i] <= hi
    ensures |s| > 0 ==> Sum(s) > |s| as real * lo
    ensures Sum(s) <= |s| as real * hi
    decreases |s|
  {
    if s != [] {
      SumBounds(s[1..], lo, hi);
    }
  }

  /** `np.mean(s)` of a non-empty list. */
  function Mean(s: seq<real>): real
    requires |s| > 0
  {
    Sum(s) / |s| as real
  }

  /** The mean of values in `(lo, hi]` lies in `(lo, hi]`. */
  lemma MeanBounds(s: seq<real>, lo: real, hi: real)
    requires |s| > 0
    requires forall i :: 0 <= i < |s| ==> lo < s[i] <= hi
    ensures lo < Mean(s) <= hi
  {
    SumBounds(s, lo, hi);
    var n := |s| as real;
    DivBounds(Sum(s), n, lo, hi);
  }

  lemma DivBounds(a: real, n: real, lo: real, hi: real)
    requires n > 0.0
    requires n * lo < a <= n * hi
    ensures lo < a / n <= hi
  {
    assert a / n * n == a;
  }

  /** `np.min(s)` of a non-empty list. */
  function Min(s: seq<real>): (m: real)
    requires |s| > 0
    ensures m in s
    ensures forall i :: 0 <= i < |s| ==> m <= s[i]
    decreases |s|
  {
    if |s| == 1 then s[0]
    else
      var rest := Min(s[1..]);
      if s[0] <= rest then s[0] else rest
  }

  /** `np.max(s)` of a non-empty list. */
  function Max(s: seq<real>): (m: real)
    requires |s| > 0
    ensures m in s
    ensures forall i :: 0 <= i < |s| ==> s[i] <= m
    decreases |s|
  {
    if |s| == 1 then s[0]
    else
      var rest := Max(s[1..]);
      if s[0] >= rest then s[0] else rest
  }

  /** Python's `int(x)` on a float: truncation toward zero (not Dafny's floor). */
  function Trunc(x: real): (r: int)
    ensures x >= 0.0 ==> r as real <= x < r as real + 1.0
    ensures x < 0.0 ==> r as real - 1.0 < x <= r as real
  {
    if x >= 0.0 then x.Floor else -((-x).Floor)
  }

  /** Truncation leaves whole numbers alone. */
  lemma TruncOfInt(n: int)
    ensures Trunc(n as real) == n
  {
  }
}
