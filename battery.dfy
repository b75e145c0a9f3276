/** Battery levels: the running minimum and maximum kept while reading, and
    the end-of-activity estimate, which drops readings more than two
    standard deviations from the mean and extends a least-squares line
    through the rest one reading past the last. Levels are percentages;
    the statistics are exact reals standing for Python floats. */
module Battery {
  import opened Util

  // ---------------------------------------------------------------------
  // Running minimum and maximum

  /** One step of `LogBatteryLevel` on the minimum; 0 stands for "no
      reading yet". The minimum is a real because the end-of-activity
      estimate later overwrites it with a fractional value. */
  function LowAfter(low: real, level: int): real
  {
    var l := if low == 0.0 then level as real else low;
    if l > level as real then level as real else l
  }

  /** One step of `LogBatteryLevel` on the maximum; 0 stands for "no
      reading yet". */
  function HighAfter(high: int, level: int): int
  {
    var h := if high == 0 then level else high;
    if h < level then level else h
  }

  /** The minimum after logging `levels` from the initial 0. */
  function Low(levels: seq<int>): real
  {
    if levels == [] then 0.0 else LowAfter(Low(levels[..|levels| - 1]), levels[|levels| - 1])
  }

  /** The maximum after logging `levels` from the initial 0. */
  function High(levels: seq<int>): int
  {
    if levels == [] then 0 else HighAfter(High(levels[..|levels| - 1]), levels[|levels| - 1])
  }

  /** With positive readings the two running values are the smallest and
      the largest reading. */
  lemma LowHighAreExtremes(levels: seq<int>)
    requires forall i :: 0 <= i < |levels| ==> levels[i] > 0
    ensures levels != [] ==> (exists i :: 0 <= i < |levels| && Low(levels) == levels[i] as real) && High(levels) in levels
    ensures forall i :: 0 <= i < |levels| ==> Low(levels) <= levels[i] as real && levels[i] <= High(levels)
  {
    LowIsSmallest(levels);
    HighIsLargest(levels);
  }

  lemma {:induction false} LowIsSmallest(levels: seq<int>)
    requires forall i :: 0 <= i < |levels| ==> levels[i] > 0
    ensures levels != [] ==> exists i :: 0 <= i < |levels| && Low(levels) == levels[i] as real
    ensures forall i :: 0 <= i < |levels| ==> Low(levels) <= levels[i] as real
  {
    if levels != [] {
      var n := |levels| - 1;
      var prefix := levels[..n];
      assert forall i :: 0 <= i < n ==> prefix[i] == levels[i];
      LowIsSmallest(prefix);
      assert Low(levels) == LowAfter(Low(prefix), levels[n]);
      if Low(levels) != levels[n] as real {
        var j :| 0 <= j < n && Low(prefix) == prefix[j] as real;
        assert Low(levels) == levels[j] as real;
      }
    }
  }

  lemma {:induction false} HighIsLargest(levels: seq<int>)
    requires forall i :: 0 <= i < |levels| ==> levels[i] > 0
    ensures levels != [] ==> High(levels) in levels
    ensures forall i :: 0 <= i < |levels| ==> levels[i] <= High(levels)
  {
    if levels != [] {
      var n := |levels| - 1;
      var prefix := levels[..n];
      assert forall i :: 0 <= i < n ==> prefix[i] == levels[i];
      HighIsLargest(prefix);
      assert levels == prefix + [levels[n]];
    }
  }

  // ---------------------------------------------------------------------
  // Outliers

  function Sum(xs: seq<int>): int
  {
    if xs == [] then 0 else Sum(xs[..|xs| - 1]) + xs[|xs| - 1]
  }

  /** `sum(levels) / len(levels)`. */
  function Mean(xs: seq<int>): real
    requires xs != []
  {
    Sum(xs) as real / |xs| as real
  }

  /** Sum of the squared distances from `m`. */
  function SquaredDeviations(xs: seq<int>, m: real): (r: real)
    ensures r >= 0.0
  {
    if xs == [] then 0.0
    else
      var d := xs[|xs| - 1] as real - m;
      SquaredDeviations(xs[..|xs| - 1], m) + d * d
  }

  /** The population variance. */
  function Variance(xs: seq<int>): (v: real)
    requires xs != []
    ensures v >= 0.0
  {
    SquaredDeviations(xs, Mean(xs)) / |xs| as real
  }

  /** `abs(x - mean) <= 2 * std_dev`, with both sides squared (both are
      non-negative, so the comparison is the same). */
  predicate Typical(x: int, m: real, v: real)
  {
    (x as real - m) * (x as real - m) <= 4.0 * v
  }

  /** The readings of `xs` that are typical, in their order. */
  function KeepTypical(xs: seq<int>, m: real, v: real): (r: seq<int>)
    ensures |r| <= |xs|
    ensures forall i :: 0 <= i < |r| ==> r[i] in xs && Typical(r[i], m, v)
    ensures forall i :: 0 <= i < |xs| && Typical(xs[i], m, v) ==> xs[i] in r
  {
    if xs == [] then []
    else
      var n := |xs| - 1;
      var rest := KeepTypical(xs[..n], m, v);
      assert forall i :: 0 <= i < n ==> xs[..n][i] == xs[i];
      if Typical(xs[n], m, v) then rest + [xs[n]] else rest
  }

  /** The readings within two standard deviations of the mean. */
  function WithoutOutliers(xs: seq<int>): (r: seq<int>)
    requires xs != []
    ensures r != []
    ensures forall i :: 0 <= i < |r| ==> r[i] in xs
  {
    SomeReadingIsTypical(xs);
    KeepTypical(xs, Mean(xs), Variance(xs))
  }

  /** Not every reading can lie more than two standard deviations from the
      mean, so the filter never empties the list (and the trend's mean is
      defined). */
  lemma SomeReadingIsTypical(xs: seq<int>)
    requires xs != []
    ensures exists i :: 0 <= i < |xs| && Typical(xs[i], Mean(xs), Variance(xs))
  {
    var m := Mean(xs);
    VarianceTimesCount(SquaredDeviations(xs, m), |xs|, Variance(xs));
    SomeTypical(xs, m, Variance(xs));
  }

  /** When `v` is the mean squared deviation from `m`, some reading lies
      within `2 sqrt(v)` of `m`. */
  lemma SomeTypical(xs: seq<int>, m: real, v: real)
    requires xs != [] && v >= 0.0
    requires 4.0 * v * |xs| as real == 4.0 * SquaredDeviations(xs, m)
    ensures exists i :: 0 <= i < |xs| && Typical(xs[i], m, v)
  {
    if forall i :: 0 <= i < |xs| ==> !Typical(xs[i], m, v) {
      AtypicalReadingsSpread(xs, m, v);
      assert false;
    }
  }

  lemma VarianceTimesCount(sd: real, n: nat, v: real)
    requires n > 0 && v == sd / n as real
    ensures 4.0 * v * n as real == 4.0 * sd
  {
  }

  /** When every reading is atypical each one adds more than `4 v` to the
      squared deviations. */
  lemma {:induction false} AtypicalReadingsSpread(xs: seq<int>, m: real, v: real)
    requires v >= 0.0
    requires forall i :: 0 <= i < |xs| ==> !Typical(xs[i], m, v)
    ensures SquaredDeviations(xs, m) >= 4.0 * v * |xs| as real
    ensures xs != [] ==> SquaredDeviations(xs, m) > 4.0 * v * |xs| as real
  {
    if xs != [] {
      var n := |xs| - 1;
      assert forall i :: 0 <= i < n ==> xs[..n][i] == xs[i];
      AtypicalReadingsSpread(xs[..n], m, v);
      assert 4.0 * v * n as real + 4.0 * v == 4.0 * v * |xs| as real;
    }
  }

  // ---------------------------------------------------------------------
  // Linear trend

  /** The x value of the reading at `idx`: `first + idx`. */
  function X(first: int, idx: int): real
  {
    (first + idx) as real
  }

  /** `sumXDif` after the first `n` readings. */
  function SumXDif(n: nat, first: int, avgX: real): real
  {
    if n == 0 then 0.0 else SumXDif(n - 1, first, avgX) + (X(first, n - 1) - avgX)
  }

  /** `sumYDif` after the readings `ys`. */
  function SumYDif(ys: seq<int>, avgY: real): real
  {
    if ys == [] then 0.0 else SumYDif(ys[..|ys| - 1], avgY) + (ys[|ys| - 1] as real - avgY)
  }

  /** `sumXdifYdif` after the readings `ys`. */
  function SumXYDif(ys: seq<int>, first: int, avgX: real, avgY: real): real
  {
    if ys == [] then 0.0
    else
      var n := |ys| - 1;
      SumXYDif(ys[..n], first, avgX, avgY) + (X(first, n) - avgX) * (ys[n] as real - avgY)
  }

  /** `sumXdifXdif` after the first `n` readings. */
  function SumXXDif(n: nat, first: int, avgX: real): (r: real)
    ensures r >= 0.0
  {
    if n == 0 then 0.0 else SumXXDif(n - 1, first, avgX) + (X(first, n - 1) - avgX) * (X(first, n - 1) - avgX)
  }

  /** `(len(levels) + 1) / 2`: the mean of 1, 2, ..., n. */
  function AvgX(n: nat): real
  {
    (n + 1) as real / 2.0
  }

  /** The value of the least-squares line through the readings, the `i`-th
      placed at x = `first + i`, at x = n + 1; `None` when the x values do
      not spread (the estimate is then left alone). */
  function TrendEstimate(ys: seq<int>, first: int): Option<real>
    requires ys != []
  {
    var avgX := AvgX(|ys|);
    var avgY := Mean(ys);
    Extrapolate(|ys|, avgX, avgY, SumXYDif(ys, first, avgX, avgY), SumXXDif(|ys|, first, avgX))
  }

  /** The closing step of the trend: slope `a = sxy / sxx` and intercept
      `b = avgY - a avgX` give the line's value at x = n + 1. */
  function Extrapolate(n: nat, avgX: real, avgY: real, sxy: real, sxx: real): Option<real>
  {
    if sxx == 0.0 then None
    else
      var a := sxy / sxx;
      var b := avgY - a * avgX;
      Some((n + 1) as real * a + b)
  }

  /** The trend of the source: the `i`-th reading at x = `i`. */
  function TrendAsWritten(ys: seq<int>): Option<real>
    requires ys != []
  {
    TrendEstimate(ys, 0)
  }

  /** The trend with the readings at x = 1, 2, ..., n, the values whose
      mean `avgX` is. */
  function Trend(ys: seq<int>): Option<real>
    requires ys != []
  {
    TrendEstimate(ys, 1)
  }

  /** As written the x deviations do not sum to zero: they sum to `-n`,
      because the x values are 0, ..., n - 1 and `avgX` is the mean of
      1, ..., n. With the x values 1, ..., n they cancel. */
  lemma AsWrittenDeviationsDoNotCancel(n: nat)
    ensures SumXDif(n, 0, AvgX(n)) == -(n as real)
    ensures SumXDif(n, 1, AvgX(n)) == 0.0
  {
    SumXDifClosed(n, 0, AvgX(n));
    SumXDifClosed(n, 1, AvgX(n));
    var r := n as real;
    assert 2.0 * r * AvgX(n) == r * r + r;
  }

  /** Twice the sum of the x deviations, in closed form. */
  lemma {:induction false} SumXDifClosed(n: nat, first: int, avgX: real)
    ensures 2.0 * SumXDif(n, first, avgX)
      == 2.0 * n as real * first as real + n as real * n as real - n as real - 2.0 * n as real * avgX
  {
    if n > 0 {
      SumXDifClosed(n - 1, first, avgX);
      var r := n as real;
      var f := first as real;
      assert (r - 1.0) * (r - 1.0) == r * r - 2.0 * r + 1.0;
      assert 2.0 * (r - 1.0) * f + 2.0 * f == 2.0 * r * f;
      assert 2.0 * (r - 1.0) * avgX + 2.0 * avgX == 2.0 * r * avgX;
    }
  }

  /** The battery readings 80, 79, 78, 77, 76 fall by one per reading; the
      trend as written puts the next reading at 76, the corrected trend at
      75. */
  lemma TrendExample()
    ensures TrendAsWritten([80, 79, 78, 77, 76]) == Some(76.0)
    ensures Trend([80, 79, 78, 77, 76]) == Some(75.0)
  {
    var ys := [80, 79, 78, 77, 76];
    assert ys[..1] == [80] && ys[..2][..1] == ys[..1] && ys[..3][..2] == ys[..2];
    assert ys[..4][..3] == ys[..3] && ys[..5][..4] == ys[..4] && ys[..5] == ys;
    assert Sum(ys[..1]) == 80 && Sum(ys[..2]) == 159 && Sum(ys[..3]) == 237;
    assert Sum(ys[..4]) == 314 && Sum(ys) == 390;
    assert Mean(ys) == 78.0;
    assert SumXXDif(5, 0, 3.0) == 15.0;
    assert SumXXDif(5, 1, 3.0) == 10.0;
    assert SumXYDif(ys[..1], 0, 3.0, 78.0) == -6.0;
    assert SumXYDif(ys[..2], 0, 3.0, 78.0) == -8.0;
    assert SumXYDif(ys[..3], 0, 3.0, 78.0) == -8.0;
    assert SumXYDif(ys[..4], 0, 3.0, 78.0) == -8.0;
    assert SumXYDif(ys, 0, 3.0, 78.0) == -10.0;
    assert SumXYDif(ys[..1], 1, 3.0, 78.0) == -4.0;
    assert SumXYDif(ys[..2], 1, 3.0, 78.0) == -5.0;
    assert SumXYDif(ys[..3], 1, 3.0, 78.0) == -5.0;
    assert SumXYDif(ys[..4], 1, 3.0, 78.0) == -6.0;
    assert SumXYDif(ys, 1, 3.0, 78.0) == -10.0;
  }

  /** The trend loop of `PostLoad`, as written: the reading at `idx` is
      placed at x = `idx`. */
  method FitTrend(levels: seq<int>) returns (estimate: Option<real>)
    requires levels != []
    ensures estimate == TrendAsWritten(levels)
  {
    var n := |levels|;
    var avgX := AvgX(n);
    var avgY := Mean(levels);
    var sumXDif, sumYDif, sumXdifYdif, sumXdifXdif := 0.0, 0.0, 0.0, 0.0;
    for idx := 0 to n
      invariant sumXDif == SumXDif(idx, 0, avgX)
      invariant sumYDif == SumYDif(levels[..idx], avgY)
      invariant sumXdifYdif == SumXYDif(levels[..idx], 0, avgX, avgY)
      invariant sumXdifXdif == SumXXDif(idx, 0, avgX)
    {
      TrendSumsStep(levels, idx, 0, avgX, avgY);
      var x := X(0, idx);
      var lvl := levels[idx] as real;
      sumXDif := sumXDif + (x - avgX);
      sumYDif := sumYDif + (lvl - avgY);
      sumXdifYdif := sumXdifYdif + (x - avgX) * (lvl - avgY);
      sumXdifXdif := sumXdifXdif + (x - avgX) * (x - avgX);
    }
    assert levels[..n] == levels;
    estimate := Extrapolate(n, avgX, avgY, sumXdifYdif, sumXdifXdif);
  }

  /** As written the first x value, 0, lies below the mean x (n + 1) / 2,
      so the spread is positive from one reading on: the guard
      `sumXdifXdif != 0` always holds. */
  lemma AsWrittenSpreadIsPositive(n: nat)
    requires n >= 1
    ensures SumXXDif(n, 0, AvgX(n)) > 0.0
  {
    SpreadAtLeastFirst(n, 0, AvgX(n));
    var d := X(0, 0) - AvgX(n);
    assert d <= -1.0;
    assert d * d >= 1.0;
  }

  /** The trend as written is defined for every non-empty list of
      readings. */
  lemma AsWrittenTrendIsDefined(ys: seq<int>)
    requires ys != []
    ensures TrendAsWritten(ys).Some?
  {
    AsWrittenSpreadIsPositive(|ys|);
  }

  /** Readings that never change are extrapolated to that same reading by
      the trend as written. */
  lemma AsWrittenTrendOfConstant(ys: seq<int>, v: int)
    requires ys != [] && forall i :: 0 <= i < |ys| ==> ys[i] == v
    ensures TrendAsWritten(ys) == Some(v as real)
  {
    var n := |ys|;
    ConstantSum(ys, v);
    assert Mean(ys) == v as real;
    assert Proportional(ys, 0, AvgX(n), v as real, 0.0);
    CovarianceOfLine(ys, 0, AvgX(n), v as real, 0.0);
    AsWrittenSpreadIsPositive(n);
    ExtrapolateValue(n, AvgX(n), v as real, SumXYDif(ys, 0, AvgX(n), v as real), SumXXDif(n, 0, AvgX(n)));
  }

  lemma {:induction false} ConstantSum(ys: seq<int>, v: int)
    requires forall i :: 0 <= i < |ys| ==> ys[i] == v
    ensures Sum(ys) == |ys| * v
  {
    if ys != [] {
      var m := |ys| - 1;
      assert forall i :: 0 <= i < m ==> ys[..m][i] == ys[i];
      ConstantSum(ys[..m], v);
    }
  }

  /** The sums over the readings up to `i` extend those up to `i - 1` by
      the terms of reading `i`. */
  lemma TrendSumsStep(ys: seq<int>, i: nat, first: int, avgX: real, avgY: real)
    requires i < |ys|
    ensures SumYDif(ys[..i + 1], avgY) == SumYDif(ys[..i], avgY) + (ys[i] as real - avgY)
    ensures SumXYDif(ys[..i + 1], first, avgX, avgY)
      == SumXYDif(ys[..i], first, avgX, avgY) + (X(first, i) - avgX) * (ys[i] as real - avgY)
  {
    assert ys[..i + 1][..i] == ys[..i];
  }

  // ---------------------------------------------------------------------
  // The corrected trend on readings that fall on a line

  /** The readings lie on the line `c + s x` at x = 1, 2, ..., n. */
  predicate OnLine(ys: seq<int>, c: int, s: int)
  {
    forall k :: 0 <= k < |ys| ==> ys[k] == c + s * (k + 1)
  }

  /** When the readings fall on a line, the corrected trend returns that
      line's next value: the fit recovers the slope and the intercept. */
  lemma LinearTrendIsExact(ys: seq<int>, c: int, s: int)
    requires |ys| >= 2 && OnLine(ys, c, s)
    ensures Trend(ys) == Some(Line(c as real, s as real, (|ys| + 1) as real))
  {
    assert CovarianceOnLine(ys, s as real) by {
      LinearDeviations(ys, c, s);
      CovarianceOfLine(ys, 1, AvgX(|ys|), Mean(ys), s as real);
      ScaledIsLine(SumXYDif(ys, 1, AvgX(|ys|), Mean(ys)), s as real, SumXXDif(|ys|, 1, AvgX(|ys|)));
    }
    LinearMean(ys, c, s);
    TrendOfFit(ys, c as real, s as real);
  }

  /** The value of the line `c + s x` at `x`. */
  function Line(c: real, s: real, x: real): real
  {
    c + s * x
  }

  lemma ScaledIsLine(a: real, s: real, b: real)
    requires a == s * b
    ensures a == Line(0.0, s, b)
  {
  }

  /** The covariance is `s` times the spread of the x values. */
  predicate CovarianceOnLine(ys: seq<int>, s: real)
    requires ys != []
  {
    SumXYDif(ys, 1, AvgX(|ys|), Mean(ys)) == Line(0.0, s, SumXXDif(|ys|, 1, AvgX(|ys|)))
  }

  /** The trend is exact as soon as the mean reading and the covariance
      agree with a line `c + s x`. */
  lemma TrendOfFit(ys: seq<int>, c: real, s: real)
    requires |ys| >= 2 && Mean(ys) == Line(c, s, AvgX(|ys|)) && CovarianceOnLine(ys, s)
    ensures Trend(ys) == Some(Line(c, s, (|ys| + 1) as real))
  {
    SpreadIsPositive(|ys|, AvgX(|ys|));
    ExtrapolateExact(|ys|, AvgX(|ys|), Mean(ys),
      SumXYDif(ys, 1, AvgX(|ys|), Mean(ys)), SumXXDif(|ys|, 1, AvgX(|ys|)), c, s);
  }

  lemma LineDeviation(y: int, c: int, s: int, k: nat, avgX: real, m: real)
    requires y == c + s * (k + 1) && m == c as real + s as real * avgX
    ensures y as real - m == s as real * (X(1, k) - avgX)
  {
    var x := (k + 1) as real;
    assert y as real == c as real + s as real * x;
    assert s as real * x - s as real * avgX == s as real * (x - avgX);
  }

  /** On a line every y deviation is the slope times the x deviation. */
  lemma LinearDeviations(ys: seq<int>, c: int, s: int)
    requires ys != [] && OnLine(ys, c, s)
    ensures Proportional(ys, 1, AvgX(|ys|), Mean(ys), s as real)
  {
    LinearMean(ys, c, s);
    var m := Mean(ys);
    forall k | 0 <= k < |ys|
      ensures ys[k] as real - m == s as real * (X(1, k) - AvgX(|ys|))
    {
      LineDeviation(ys[k], c, s, k, AvgX(|ys|), m);
    }
  }

  /** The mean of the readings on a line is the line's value at the mean
      x. */
  lemma LinearMean(ys: seq<int>, c: int, s: int)
    requires ys != [] && OnLine(ys, c, s)
    ensures Mean(ys) == Line(c as real, s as real, AvgX(|ys|))
  {
    LinearSum(ys, c, s);
    var r := |ys| as real;
    var sum := Sum(ys) as real;
    assert 2.0 * sum == 2.0 * r * c as real + s as real * r * (r + 1.0);
    assert sum == r * (c as real + s as real * AvgX(|ys|));
  }

  lemma {:induction false} LinearSum(ys: seq<int>, c: int, s: int)
    requires OnLine(ys, c, s)
    ensures 2 * Sum(ys) == 2 * |ys| * c + s * |ys| * (|ys| + 1)
  {
    if ys != [] {
      var n, m := |ys|, |ys| - 1;
      var prefix := ys[..m];
      assert forall k :: 0 <= k < m ==> prefix[k] == ys[k];
      LinearSum(prefix, c, s);
      assert Sum(ys) == Sum(prefix) + ys[m];
      LinearSumStep(Sum(prefix), m, c, s);
    }
  }

  lemma LinearSumStep(sum: int, m: nat, c: int, s: int)
    requires 2 * sum == 2 * m * c + s * m * (m + 1)
    ensures 2 * (sum + (c + s * (m + 1))) == 2 * (m + 1) * c + s * (m + 1) * (m + 1 + 1)
  {
    var sn := s * (m + 1);
    assert s * m * (m + 1) == sn * m;
    assert s * (m + 1) * (m + 2) == sn * m + 2 * sn;
  }

  /** Every y deviation is `s` times the x deviation. */
  predicate Proportional(ys: seq<int>, first: int, avgX: real, avgY: real, s: real)
  {
    forall k :: 0 <= k < |ys| ==> ys[k] as real - avgY == s * (X(first, k) - avgX)
  }

  /** When every y deviation is `s` times the x deviation, the sum of the
      products is `s` times the sum of the squared x deviations. */
  lemma {:induction false} CovarianceOfLine(ys: seq<int>, first: int, avgX: real, avgY: real, s: real)
    requires Proportional(ys, first, avgX, avgY, s)
    ensures SumXYDif(ys, first, avgX, avgY) == s * SumXXDif(|ys|, first, avgX)
  {
    if ys != [] {
      var n := |ys| - 1;
      var prefix := ys[..n];
      ProportionalSplit(ys, first, avgX, avgY, s);
      CovarianceOfLine(prefix, first, avgX, avgY, s);
      var d, e := X(first, n) - avgX, ys[n] as real - avgY;
      SumXYDifStep(ys, first, avgX, avgY);
      SumXXDifStep(n, first, avgX);
      CovarianceStep(SumXYDif(prefix, first, avgX, avgY), SumXXDif(n, first, avgX), d, e, s);
    }
  }

  lemma ProportionalSplit(ys: seq<int>, first: int, avgX: real, avgY: real, s: real)
    requires ys != [] && Proportional(ys, first, avgX, avgY, s)
    ensures var n := |ys| - 1;
      Proportional(ys[..n], first, avgX, avgY, s) && ys[n] as real - avgY == s * (X(first, n) - avgX)
  {
    var n := |ys| - 1;
    assert forall k :: 0 <= k < n ==> ys[..n][k] == ys[k];
  }

  lemma SumXYDifStep(ys: seq<int>, first: int, avgX: real, avgY: real)
    requires ys != []
    ensures var n := |ys| - 1;
      SumXYDif(ys, first, avgX, avgY)
      == SumXYDif(ys[..n], first, avgX, avgY) + (X(first, n) - avgX) * (ys[n] as real - avgY)
  {
  }

  lemma SumXXDifStep(n: nat, first: int, avgX: real)
    ensures SumXXDif(n + 1, first, avgX) == SumXXDif(n, first, avgX) + (X(first, n) - avgX) * (X(first, n) - avgX)
  {
  }

  lemma CovarianceStep(sxy: real, sxx: real, d: real, e: real, s: real)
    requires sxy == s * sxx && e == s * d
    ensures sxy + d * e == s * (sxx + d * d)
  {
  }

  /** With at least two readings the x values spread. */
  lemma SpreadIsPositive(n: nat, avgX: real)
    requires n >= 2 && avgX == AvgX(n)
    ensures SumXXDif(n, 1, avgX) > 0.0
  {
    SpreadAtLeastFirst(n, 1, avgX);
    var d := X(1, 0) - avgX;
    assert d <= -0.5;
    assert d * d >= 0.25;
  }

  lemma {:induction false} SpreadAtLeastFirst(n: nat, first: int, avgX: real)
    requires n >= 1
    ensures SumXXDif(n, first, avgX) >= (X(first, 0) - avgX) * (X(first, 0) - avgX)
  {
    var d := X(first, n - 1) - avgX;
    assert d * d >= 0.0;
    if n > 1 {
      SpreadAtLeastFirst(n - 1, first, avgX);
    }
  }

  /** When the covariance is `s` times the spread and the mean of the
      readings lies on the line `c + s x` at the mean x, the extrapolation
      is that line's value at x = n + 1. */
  lemma ExtrapolateExact(n: nat, avgX: real, avgY: real, sxy: real, sxx: real, c: real, s: real)
    requires sxx != 0.0 && sxy == Line(0.0, s, sxx) && avgY == Line(c, s, avgX)
    ensures Extrapolate(n, avgX, avgY, sxy, sxx) == Some(Line(c, s, (n + 1) as real))
  {
    ExtrapolateValue(n, avgX, avgY, sxy, sxx);
    QuotientOfMultiple(sxy, sxx, s);
    var e := Extrapolate(n, avgX, avgY, sxy, sxx);
    LineThroughMean((n + 1) as real, sxy / sxx, s, avgX, c, avgY, e.value);
    SomeOfValue(e, Line(c, s, (n + 1) as real));
  }

  lemma ExtrapolateValue(n: nat, avgX: real, avgY: real, sxy: real, sxx: real)
    requires sxx != 0.0
    ensures Extrapolate(n, avgX, avgY, sxy, sxx) == Some((n + 1) as real * (sxy / sxx) + (avgY - (sxy / sxx) * avgX))
  {
  }

  lemma QuotientOfMultiple(sxy: real, sxx: real, s: real)
    requires sxx != 0.0 && sxy == Line(0.0, s, sxx)
    ensures sxy / sxx == s
  {
  }

  lemma LineThroughMean(x: real, a: real, s: real, avgX: real, c: real, y: real, e: real)
    requires a == s && y == Line(c, s, avgX) && e == x * a + (y - a * avgX)
    ensures e == Line(c, s, x)
  {
  }

  lemma SomeOfValue(e: Option<real>, v: real)
    requires e.Some? && e.value == v
    ensures e == Some(v)
  {
  }
}
