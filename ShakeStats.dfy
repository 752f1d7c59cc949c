/** `getStandardDeviation` of script.js (lines 14-20) and scripts.js
    (lines 52-58): the population mean and variance of the magnitude buffer,
    and the square root of the variance. Values are exact reals. */
module ShakeStats {
  import opened Motion

  /** `array.reduce((a, b) => a + b)`: left-to-right sum. */
  function Sum(a: seq<real>): real
  {
    if |a| == 0 then 0.0 else Sum(a[..|a| - 1]) + a[|a| - 1]
  }

  function Mean(a: seq<real>): real
  {
    if |a| == 0 then 0.0 else Sum(a) / (|a| as real)
  }

  /** The sum of `Math.pow(x - m, 2)` over the elements. */
  function SumSquaredDeviations(a: seq<real>, m: real): real
  {
    if |a| == 0 then 0.0
    else SumSquaredDeviations(a[..|a| - 1], m) + (a[|a| - 1] - m) * (a[|a| - 1] - m)
  }

  /** Population variance: squared deviations from the mean, divided by n;
      0 for the empty array, which the source returns early for. */
  function Variance(a: seq<real>): (v: real)
    ensures v >= 0.0
  {
    if |a| == 0 then 0.0
    else
      SumSquaredDeviationsNonNegative(a, Mean(a));
      SumSquaredDeviations(a, Mean(a)) / (|a| as real)
  }

  /** `getStandardDeviation(array)` with `Math.sqrt` passed in as `sqrt`. */
  function StandardDeviation(a: seq<real>, sqrt: real -> real): (r: real)
    ensures |a| == 0 ==> r == 0.0
    ensures IsSquareRoot(sqrt) ==> r >= 0.0 && r * r == Variance(a)
  {
    if |a| == 0 then 0.0 else sqrt(Variance(a))
  }

  /** Every element plus `c`. */
  function Shift(a: seq<real>, c: real): (r: seq<real>)
    ensures |r| == |a|
    ensures forall i :: 0 <= i < |a| ==> r[i] == a[i] + c
  {
    seq(|a|, i requires 0 <= i < |a| => a[i] + c)
  }

  /** `n` copies of `x`. */
  function Repeat(x: real, n: nat): (r: seq<real>)
    ensures |r| == n
    ensures forall i :: 0 <= i < n ==> r[i] == x
  {
    seq(n, i => x)
  }

  lemma {:induction false} SumSquaredDeviationsNonNegative(a: seq<real>, m: real)
    ensures SumSquaredDeviations(a, m) >= 0.0
    decreases |a|
  {
    if |a| > 0 {
      SumSquaredDeviationsNonNegative(a[..|a| - 1], m);
      SquareNonNegative(a[|a| - 1] - m);
    }
  }

  /** Sums split over concatenation. */
  lemma {:induction false} SumAppend(a: seq<real>, b: seq<real>)
    ensures Sum(a + b) == Sum(a) + Sum(b)
    decreases |b|
  {
    if |b| > 0 {
      assert (a + b)[..|a + b| - 1] == a + b[..|b| - 1];
      SumAppend(a, b[..|b| - 1]);
    } else {
      assert a + b == a;
    }
  }

  /** So do sums of squared deviations. */
  lemma {:induction false} SumSquaredDeviationsAppend(a: seq<real>, b: seq<real>, m: real)
    ensures SumSquaredDeviations(a + b, m) == SumSquaredDeviations(a, m) + SumSquaredDeviations(b, m)
    decreases |b|
  {
    if |b| > 0 {
      assert (a + b)[..|a + b| - 1] == a + b[..|b| - 1];
      SumSquaredDeviationsAppend(a, b[..|b| - 1], m);
    } else {
      assert a + b == a;
    }
  }

  /** Adding `c` to every element adds `n * c` to the sum. */
  lemma {:induction false} SumShift(a: seq<real>, c: real)
    ensures Sum(Shift(a, c)) == Sum(a) + (|a| as real) * c
    decreases |a|
  {
    if |a| > 0 {
      var n := |a|;
      assert Shift(a, c)[..n - 1] == Shift(a[..n - 1], c);
      SumShift(a[..n - 1], c);
    }
  }

  /** Deviations measured from a mean shifted by the same constant are
      unchanged. */
  lemma {:induction false} SumSquaredDeviationsShift(a: seq<real>, m: real, c: real)
    ensures SumSquaredDeviations(Shift(a, c), m + c) == SumSquaredDeviations(a, m)
    decreases |a|
  {
    if |a| > 0 {
      var n := |a|;
      assert Shift(a, c)[..n - 1] == Shift(a[..n - 1], c);
      assert Shift(a, c)[n - 1] - (m + c) == a[n - 1] - m;
      SumSquaredDeviationsShift(a[..n - 1], m, c);
    }
  }

  lemma MeanShift(a: seq<real>, c: real)
    requires |a| > 0
    ensures Mean(Shift(a, c)) == Mean(a) + c
  {
    SumShift(a, c);
    var n := |a| as real;
    assert (Sum(a) + n * c) / n == Sum(a) / n + c;
  }

  /** Adding the same constant to every element leaves the variance, and so
      the standard deviation, unchanged. */
  lemma VarianceShiftInvariant(a: seq<real>, c: real, sqrt: real -> real)
    ensures Variance(Shift(a, c)) == Variance(a)
    ensures StandardDeviation(Shift(a, c), sqrt) == StandardDeviation(a, sqrt)
  {
    if |a| > 0 {
      MeanShift(a, c);
      SumSquaredDeviationsShift(a, Mean(a), c);
    }
  }

  /** A constant array sums to n times its value. */
  lemma {:induction false} SumConstant(a: seq<real>, x: real)
    requires forall i :: 0 <= i < |a| ==> a[i] == x
    ensures Sum(a) == (|a| as real) * x
    decreases |a|
  {
    if |a| > 0 {
      SumConstant(a[..|a| - 1], x);
    }
  }

  /** A constant array has no deviation from its own value. */
  lemma {:induction false} SumSquaredDeviationsConstant(a: seq<real>, x: real, m: real)
    requires forall i :: 0 <= i < |a| ==> a[i] == x
    ensures SumSquaredDeviations(a, m) == (|a| as real) * ((x - m) * (x - m))
    decreases |a|
  {
    if |a| > 0 {
      SumSquaredDeviationsConstant(a[..|a| - 1], x, m);
    }
  }

  /** A constant array, in particular a single sample, has variance and
      standard deviation 0. */
  lemma ConstantHasNoSpread(a: seq<real>, sqrt: real -> real)
    requires forall i, j :: 0 <= i < |a| && 0 <= j < |a| ==> a[i] == a[j]
    requires IsSquareRoot(sqrt)
    ensures Variance(a) == 0.0
    ensures StandardDeviation(a, sqrt) == 0.0
  {
    if |a| > 0 {
      var x := a[0];
      SumConstant(a, x);
      var n := |a| as real;
      assert Mean(a) == n * x / n == x;
      SumSquaredDeviationsConstant(a, x, x);
      assert (x - x) * (x - x) == 0.0;
      assert Variance(a) == 0.0;
      SquareRootOfZero(sqrt);
    }
  }

  /** Ten samples of 9.8 and ten of 10.2: mean 10, variance 0.04, standard
      deviation 0.2. */
  lemma TwoLevelBuffer(sqrt: real -> real)
    requires IsSquareRoot(sqrt)
    ensures var a := Repeat(9.8, 10) + Repeat(10.2, 10);
      && Mean(a) == 10.0
      && Variance(a) == 0.04
      && StandardDeviation(a, sqrt) == 0.2
  {
    var lo, hi := Repeat(9.8, 10), Repeat(10.2, 10);
    var a := lo + hi;
    SumAppend(lo, hi);
    SumConstant(lo, 9.8);
    SumConstant(hi, 10.2);
    assert Mean(a) == 10.0;
    SumSquaredDeviationsAppend(lo, hi, 10.0);
    SumSquaredDeviationsConstant(lo, 9.8, 10.0);
    SumSquaredDeviationsConstant(hi, 10.2, 10.0);
    assert Variance(a) == 0.04;
    var s := StandardDeviation(a, sqrt);
    assert s >= 0.0 && s * s == 0.04;
    if s > 0.2 {
      SquareAboveSquare(s, 0.2);
    } else if s < 0.2 {
      SquareAboveSquare(0.2, s);
    }
  }
}
