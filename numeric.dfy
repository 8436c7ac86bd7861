/**
 * Python's `sum`, `max` and `min` over lists of numbers, what an average lies
 * between, and the sample standard deviation `_std` that both preprocessors
 * define.
 */
module Numeric {

  /** `sum(xs)`. */
  function Sum(xs: seq<real>): real
  {
    if xs == [] then 0.0 else Sum(xs[..|xs| - 1]) + xs[|xs| - 1]
  }

  /** `max(xs)`. */
  function Max(xs: seq<real>): (m: real)
    requires xs != []
    ensures m in xs
    ensures forall i :: 0 <= i < |xs| ==> xs[i] <= m
  {
    if |xs| == 1 then xs[0]
    else
      var m := Max(xs[..|xs| - 1]);
      assert forall i :: 0 <= i < |xs| - 1 ==> xs[i] == xs[..|xs| - 1][i];
      if xs[|xs| - 1] > m then xs[|xs| - 1] else m
  }

  /** `min(xs)`. */
  function Min(xs: seq<real>): (m: real)
    requires xs != []
    ensures m in xs
    ensures forall i :: 0 <= i < |xs| ==> m <= xs[i]
  {
    if |xs| == 1 then xs[0]
    else
      var m := Min(xs[..|xs| - 1]);
      assert forall i :: 0 <= i < |xs| - 1 ==> xs[i] == xs[..|xs| - 1][i];
      if xs[|xs| - 1] < m then xs[|xs| - 1] else m
  }

  /** A sum of values all between `lo` and `hi` lies between `|xs| * lo` and `|xs| * hi`. */
  lemma {:induction false} SumBounds(xs: seq<real>, lo: real, hi: real)
    requires forall i :: 0 <= i < |xs| ==> lo <= xs[i] <= hi
    ensures |xs| as real * lo <= Sum(xs) <= |xs| as real * hi
  {
    if xs != [] {
      var init := xs[..|xs| - 1];
      assert forall i :: 0 <= i < |init| ==> init[i] == xs[i];
      SumBounds(init, lo, hi);
      var n := |init| as real;
      assert |xs| as real * lo == n * lo + lo;
      assert |xs| as real * hi == n * hi + hi;
    }
  }

  /** Dividing both sides of `n * a <= s` by a positive `n`. */
  lemma DivideBounds(a: real, s: real, b: real, n: real)
    requires n > 0.0 && n * a <= s <= n * b
    ensures a <= s / n <= b
  {
    var q := s / n;
    assert s == n * q;
    assert n * a <= n * q;
    assert n * (q - a) >= 0.0;
    assert n * (b - q) >= 0.0;
  }

  /** The mean of a non-empty list lies between any bounds of its values. */
  lemma MeanBetween(xs: seq<real>, lo: real, hi: real)
    requires xs != [] && forall i :: 0 <= i < |xs| ==> lo <= xs[i] <= hi
    ensures lo <= Sum(xs) / |xs| as real <= hi
  {
    SumBounds(xs, lo, hi);
    DivideBounds(lo, Sum(xs), hi, |xs| as real);
  }

  /** The squared deviations of `xs` from `mean`, in order. */
  function Squares(xs: seq<real>, mean: real): (r: seq<real>)
    ensures |r| == |xs|
  {
    if xs == [] then [] else Squares(xs[..|xs| - 1], mean) + [(xs[|xs| - 1] - mean) * (xs[|xs| - 1] - mean)]
  }

  /** The sum of squared deviations is never negative. */
  lemma {:induction false} SquaresNonNegative(xs: seq<real>, mean: real)
    ensures Sum(Squares(xs, mean)) >= 0.0
  {
    if xs != [] {
      var r := Squares(xs, mean);
      var d := xs[|xs| - 1] - mean;
      SquaresNonNegative(xs[..|xs| - 1], mean);
      assert r[..|r| - 1] == Squares(xs[..|xs| - 1], mean);
      assert r[|r| - 1] == d * d;
    }
  }

  /** `_std`: the sample standard deviation, and 0 for fewer than two values. */
  function Std(xs: seq<real>, sqrt: real -> real): (s: real)
    ensures |xs| < 2 ==> s == 0.0
  {
    if |xs| < 2 then 0.0
    else
      var mean := Sum(xs) / |xs| as real;
      sqrt(Sum(Squares(xs, mean)) / (|xs| - 1) as real)
  }

  /**
   * For two or more values `_std` takes the square root of a variance that is
   * never negative, so `math.sqrt` cannot raise there.
   */
  lemma VarianceNonNegative(xs: seq<real>)
    requires |xs| >= 2
    ensures Sum(Squares(xs, Sum(xs) / |xs| as real)) / (|xs| - 1) as real >= 0.0
  {
    SquaresNonNegative(xs, Sum(xs) / |xs| as real);
  }
}
