/** The numpy reductions the heart-rate analyzer relies on, written over `real`:
    sum, mean, population variance (numpy's default, ddof = 0), an ascending sort
    and the median (mean of the two middle values for an even count). */
module Stats {

  /** Python's max and min of two numbers. */
  function Max(a: real, b: real): real { if a >= b then a else b }
  function Min(a: real, b: real): real { if a <= b then a else b }

  /** Clamping to [0, 1], as np.clip(x, 0, 1) and Mathf.Clamp01 do. */
  function Clamp01(x: real): (r: real)
    ensures 0.0 <= r <= 1.0
    ensures 0.0 <= x <= 1.0 ==> r == x
  {
    Min(1.0, Max(0.0, x))
  }

  function Sum(xs: seq<real>): real
  {
    if xs == [] then 0.0 else Sum(xs[..|xs| - 1]) + xs[|xs| - 1]
  }

  function Mean(xs: seq<real>): real
    requires |xs| > 0
  {
    Sum(xs) / |xs| as real
  }

  function SquaredDeviations(xs: seq<real>, m: real): (r: seq<real>)
    ensures |r| == |xs|
    ensures forall i :: 0 <= i < |xs| ==> r[i] == (xs[i] - m) * (xs[i] - m)
  {
    seq(|xs|, i requires 0 <= i < |xs| => (xs[i] - m) * (xs[i] - m))
  }

  /** np.var: the mean squared deviation from the mean. */
  function Variance(xs: seq<real>): real
    requires |xs| > 0
  {
    Sum(SquaredDeviations(xs, Mean(xs))) / |xs| as real
  }

  predicate AllEqual(xs: seq<real>, c: real)
  {
    forall i :: 0 <= i < |xs| ==> xs[i] == c
  }

  predicate Within(xs: seq<real>, lo: real, hi: real)
  {
    forall i :: 0 <= i < |xs| ==> lo <= xs[i] <= hi
  }

  lemma {:induction false} SumOfConstant(xs: seq<real>, c: real)
    requires AllEqual(xs, c)
    ensures Sum(xs) == |xs| as real * c
  {
    if xs != [] {
      SumOfConstant(xs[..|xs| - 1], c);
    }
  }

  lemma {:induction false} SumNonNegative(xs: seq<real>)
    requires forall i :: 0 <= i < |xs| ==> xs[i] >= 0.0
    ensures Sum(xs) >= 0.0
  {
    if xs != [] {
      SumNonNegative(xs[..|xs| - 1]);
    }
  }

  /** The sum of a concatenation is the sum of the parts. */
  lemma {:induction false} SumAppend(xs: seq<real>, ys: seq<real>)
    ensures Sum(xs + ys) == Sum(xs) + Sum(ys)
  {
    if ys != [] {
      assert (xs + ys)[..|xs + ys| - 1] == xs + ys[..|ys| - 1];
      SumAppend(xs, ys[..|ys| - 1]);
    } else {
      assert xs + ys == xs;
    }
  }

  lemma VarianceNonNegative(xs: seq<real>)
    requires |xs| > 0
    ensures Variance(xs) >= 0.0
  {
    var d := SquaredDeviations(xs, Mean(xs));
    forall i | 0 <= i < |d| ensures d[i] >= 0.0 {
      var e := xs[i] - Mean(xs);
      assert d[i] == e * e;
    }
    SumNonNegative(d);
  }

  /** A constant sequence has that constant as its mean and no spread. */
  lemma ConstantHasZeroVariance(xs: seq<real>, c: real)
    requires |xs| > 0 && AllEqual(xs, c)
    ensures Mean(xs) == c
    ensures Variance(xs) == 0.0
  {
    SumOfConstant(xs, c);
    var n := |xs| as real;
    assert Sum(xs) / n == c;
    SumOfConstant(SquaredDeviations(xs, c), 0.0);
  }

  predicate SortedReals(s: seq<real>)
  {
    forall i, j :: 0 <= i < j < |s| ==> s[i] <= s[j]
  }

  function InsertSorted(x: real, s: seq<real>): (r: seq<real>)
    requires SortedReals(s)
    ensures |r| == |s| + 1
    ensures SortedReals(r)
    ensures multiset(r) == multiset(s) + multiset{x}
    ensures r[0] == x || (s != [] && r[0] == s[0])
  {
    if s == [] || x <= s[0] then
      [x] + s
    else
      var rest := InsertSorted(x, s[1..]);
      InsertAfterHead(x, s, rest);
      [s[0]] + rest
  }

  /** Putting the head back in front of `x` inserted into the tail. */
  lemma InsertAfterHead(x: real, s: seq<real>, rest: seq<real>)
    requires SortedReals(s) && s != [] && s[0] < x
    requires |rest| == |s| && SortedReals(rest)
    requires multiset(rest) == multiset(s[1..]) + multiset{x}
    requires rest[0] == x || (|s| > 1 && rest[0] == s[1])
    ensures |[s[0]] + rest| == |s| + 1
    ensures SortedReals([s[0]] + rest)
    ensures multiset([s[0]] + rest) == multiset(s) + multiset{x}
  {
    assert s == [s[0]] + s[1..];
  }

  /** The ascending order numpy's median works on. */
  function Sort(xs: seq<real>): (r: seq<real>)
    ensures |r| == |xs|
    ensures SortedReals(r)
    ensures multiset(r) == multiset(xs)
  {
    if xs == [] then
      []
    else
      assert xs == [xs[0]] + xs[1..];
      InsertSorted(xs[0], Sort(xs[1..]))
  }

  /** np.median. */
  function Median(xs: seq<real>): real
    requires |xs| > 0
  {
    var s := Sort(xs);
    var n := |s|;
    if n % 2 == 1 then s[n / 2] else (s[n / 2 - 1] + s[n / 2]) / 2.0
  }

  /** The median lies between two of the values it is taken over. */
  lemma MedianBetweenValues(xs: seq<real>)
    requires |xs| > 0
    ensures exists i, j :: 0 <= i < |xs| && 0 <= j < |xs| && xs[i] <= Median(xs) <= xs[j]
  {
    var s := Sort(xs);
    var n := |s|;
    var lo, hi := if n % 2 == 1 then n / 2 else n / 2 - 1, n / 2;
    assert s[lo] <= Median(xs) <= s[hi];
    var i := SortedValueOccurs(xs, lo);
    var j := SortedValueOccurs(xs, hi);
  }

  /** Every entry of the sorted values is one of the values. */
  lemma SortedValueOccurs(xs: seq<real>, k: nat) returns (i: nat)
    requires k < |xs|
    ensures i < |xs| && xs[i] == Sort(xs)[k]
  {
    var s := Sort(xs);
    assert s[k] in multiset(s);
    i :| 0 <= i < |xs| && xs[i] == s[k];
  }

  /** Every bound on the values is a bound on their median. */
  lemma MedianWithin(xs: seq<real>, lo: real, hi: real)
    requires |xs| > 0 && Within(xs, lo, hi)
    ensures lo <= Median(xs) <= hi
  {
    MedianBetweenValues(xs);
  }

  lemma MedianAtMost(xs: seq<real>, hi: real)
    requires |xs| > 0 && forall i :: 0 <= i < |xs| ==> xs[i] <= hi
    ensures Median(xs) <= hi
  {
    MedianBetweenValues(xs);
  }

  lemma MedianAtLeast(xs: seq<real>, lo: real)
    requires |xs| > 0 && forall i :: 0 <= i < |xs| ==> lo <= xs[i]
    ensures lo <= Median(xs)
  {
    MedianBetweenValues(xs);
  }

  lemma MedianAbove(xs: seq<real>, lo: real)
    requires |xs| > 0 && forall i :: 0 <= i < |xs| ==> lo < xs[i]
    ensures lo < Median(xs)
  {
    MedianBetweenValues(xs);
  }

  lemma MedianOfConstant(xs: seq<real>, c: real)
    requires |xs| > 0 && AllEqual(xs, c)
    ensures Median(xs) == c
  {
    MedianWithin(xs, c, c);
  }
}
