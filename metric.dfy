/** Performance statistics over a finished series of per-period returns
    (and, for the information ratio, a benchmark series of the same
    length). Every statistic is a pure function of its inputs, except the
    two drawdown scans, which are loops as in the source. */
module Metric {
  import opened Wrappers

  /** The ValueErrors the statistics raise, one constructor per message. */
  datatype MetricError =
    | EmptyReturns                              // "Annual returns should not be None or empty"
    | InvalidInput                              // "Invalid Input"
    | NotEqualLength(periodCount: nat, benchmarkCount: nat)
    | InvalidLength

  /** A ratio as numpy evaluates it. `Quotient(n, v)` stands for n / sqrt(v);
      when v is 0 numpy yields an infinity or NaN instead of raising.
      `NotANumber` is the value of a standard deviation over no degrees of
      freedom. Square roots themselves are not part of this model. */
  datatype Ratio = Exactly(value: real) | Quotient(numerator: real, variance: real) | NotANumber

  // ---------------------------------------------------------------------
  // Sums and means

  function Sum(s: seq<real>): real {
    if |s| == 0 then 0.0 else Sum(s[..|s| - 1]) + s[|s| - 1]
  }

  function Mean(s: seq<real>): real
    requires |s| > 0
  {
    Sum(s) / |s| as real
  }

  /** Each value minus a constant: excess returns over a hurdle, or
      deviations from a mean. */
  function Shifted(s: seq<real>, c: real): (r: seq<real>)
    ensures |r| == |s| && forall i :: 0 <= i < |s| ==> r[i] == s[i] - c
  {
    seq(|s|, i requires 0 <= i < |s| => s[i] - c)
  }

  function Squares(s: seq<real>): (r: seq<real>)
    ensures |r| == |s| && forall i :: 0 <= i < |s| ==> r[i] == s[i] * s[i]
  {
    seq(|s|, i requires 0 <= i < |s| => s[i] * s[i])
  }

  /** Elementwise difference of two equally long series. */
  function Difference(s: seq<real>, t: seq<real>): (r: seq<real>)
    requires |s| == |t|
    ensures |r| == |s| && forall i :: 0 <= i < |s| ==> r[i] == s[i] - t[i]
  {
    seq(|s|, i requires 0 <= i < |s| => s[i] - t[i])
  }

  lemma {:induction false} SumShifted(s: seq<real>, c: real)
    ensures Sum(Shifted(s, c)) == Sum(s) - |s| as real * c
  {
    if |s| > 0 {
      var n := |s|;
      assert Shifted(s, c)[..n - 1] == Shifted(s[..n - 1], c);
      SumShifted(s[..n - 1], c);
    }
  }

  /** The mean of the excess returns is the mean return minus the hurdle. */
  lemma MeanShifted(s: seq<real>, c: real)
    requires |s| > 0
    ensures Mean(Shifted(s, c)) == Mean(s) - c
  {
    SumShifted(s, c);
    var n := |s| as real;
    assert (Sum(s) - n * c) / n == Sum(s) / n - c;
  }

  lemma {:induction false} SumDifference(s: seq<real>, t: seq<real>)
    requires |s| == |t|
    ensures Sum(Difference(s, t)) == Sum(s) - Sum(t)
  {
    if |s| > 0 {
      var n := |s|;
      assert Difference(s, t)[..n - 1] == Difference(s[..n - 1], t[..n - 1]);
      SumDifference(s[..n - 1], t[..n - 1]);
    }
  }

  /** The mean of the active returns is the difference of the means. */
  lemma MeanDifference(s: seq<real>, t: seq<real>)
    requires |s| == |t| > 0
    ensures Mean(Difference(s, t)) == Mean(s) - Mean(t)
  {
    SumDifference(s, t);
    DivideDifference(Sum(s), Sum(t), |s| as real);
  }

  lemma DivideDifference(x: real, y: real, n: real)
    requires n > 0.0
    ensures (x - y) / n == x / n - y / n
  {
    assert (x / n) * n == x && (y / n) * n == y;
    assert (x / n - y / n) * n == x - y;
  }

  lemma DivideSelf(x: real)
    requires x != 0.0
    ensures x / x == 1.0
  {
  }

  lemma RatioBounds(a: real, b: real)
    requires 0.0 < a <= b
    ensures 0.0 < a / b <= 1.0
  {
    assert (a / b) * b == a;
  }

  lemma MultiplyPositive(a: real, b: real)
    requires a > 0.0 && b > 0.0
    ensures a * b > 0.0
  {
  }

  lemma ProductPositive(a: real, b: real, c: real)
    requires a > 0.0 && b > 0.0 && c == a * b
    ensures c > 0.0
  {
  }

  lemma SquarePositive(x: real, y: real)
    requires x != 0.0 && y == x * x
    ensures y > 0.0
  {
    if x > 0.0 {
      ProductPositive(x, x, y);
    } else {
      assert y == (-x) * (-x);
      ProductPositive(-x, -x, y);
    }
  }

  /** A sum of squares is never negative, and it is zero exactly when every
      squared value is zero. */
  lemma {:induction false} SumSquaresZero(s: seq<real>)
    ensures Sum(Squares(s)) >= 0.0
    ensures Sum(Squares(s)) == 0.0 <==> forall i :: 0 <= i < |s| ==> s[i] == 0.0
  {
    if |s| > 0 {
      var n := |s|;
      var p, x := s[..n - 1], s[n - 1];
      assert Squares(s)[..n - 1] == Squares(p) by {
        forall i | 0 <= i < n - 1 ensures Squares(s)[i] == Squares(p)[i] {
          assert p[i] == s[i];
        }
      }
      SumSquaresZero(p);
      var y := Squares(s)[n - 1];
      assert Sum(Squares(s)) == Sum(Squares(p)) + y;
      if x != 0.0 {
        SquarePositive(x, y);
        assert !(forall i :: 0 <= i < |s| ==> s[i] == 0.0) by {
          assert s[n - 1] != 0.0;
        }
      } else {
        assert (forall i :: 0 <= i < n ==> s[i] == 0.0) <==> (forall i :: 0 <= i < n - 1 ==> p[i] == 0.0) by {
          forall i | 0 <= i < n - 1 ensures p[i] == s[i] { }
        }
      }
    }
  }

  /** Sum of squared deviations from `m`. */
  function SquaredDeviation(s: seq<real>, m: real): real {
    Sum(Squares(Shifted(s, m)))
  }

  /** numpy's variance with `ddof` degrees of freedom removed. */
  function Variance(s: seq<real>, ddof: nat): (v: real)
    requires |s| > ddof
    ensures v >= 0.0
  {
    SumSquaresZero(Shifted(s, Mean(s)));
    SquaredDeviation(s, Mean(s)) / (|s| - ddof) as real
  }

  /** The variance is zero exactly when the series is constant. */
  lemma VarianceZero(s: seq<real>, ddof: nat)
    requires |s| > ddof
    ensures Variance(s, ddof) == 0.0 <==> forall i :: 0 <= i < |s| ==> s[i] == s[0]
  {
    var m := Mean(s);
    SumSquaresZero(Shifted(s, m));
    if forall i :: 0 <= i < |s| ==> s[i] == s[0] {
      ConstantMean(s);
      assert forall i :: 0 <= i < |s| ==> Shifted(s, m)[i] == 0.0;
    } else {
      var i :| 0 <= i < |s| && s[i] != s[0];
      assert s[i] - m != 0.0 || s[0] - m != 0.0;
    }
  }

  lemma {:induction false} ConstantSum(s: seq<real>)
    requires |s| > 0 && forall i :: 0 <= i < |s| ==> s[i] == s[0]
    ensures Sum(s) == |s| as real * s[0]
  {
    if |s| > 1 {
      ConstantSum(s[..|s| - 1]);
    }
  }

  lemma ConstantMean(s: seq<real>)
    requires |s| > 0 && forall i :: 0 <= i < |s| ==> s[i] == s[0]
    ensures Mean(s) == s[0]
  {
    ConstantSum(s);
  }

  predicate NoWipeout(s: seq<real>) {
    forall i | 0 <= i < |s| :: s[i] > -1.0
  }

  // ---------------------------------------------------------------------
  // Sharpe and Sortino ratios

  /** Mean excess return over the sample standard deviation (divisor n-1). */
  function SharpeRatio(periodReturns: seq<real>, riskFree: real): (r: Result<Ratio, MetricError>)
    ensures r.Err? <==> |periodReturns| == 0
    ensures r.Err? ==> r.error == EmptyReturns
    ensures |periodReturns| == 1 ==> r == Ok(NotANumber)
    ensures |periodReturns| >= 2 ==>
              (r.Ok? && r.value.Quotient?
               && r.value.numerator == Mean(periodReturns) - riskFree
               && r.value.variance >= 0.0)
  {
    if |periodReturns| == 0 then Err(EmptyReturns)
    else if |periodReturns| == 1 then Ok(NotANumber)
    else
      MeanShifted(periodReturns, riskFree);
      Ok(Quotient(Mean(Shifted(periodReturns, riskFree)), Variance(periodReturns, 1)))
  }

  /** The Sharpe denominator vanishes exactly on a constant series, such as
      [0, 0, 0, 0]. */
  lemma SharpeZeroVariance(periodReturns: seq<real>, riskFree: real)
    requires |periodReturns| >= 2
    ensures SharpeRatio(periodReturns, riskFree).value.variance == 0.0 <==>
              forall i :: 0 <= i < |periodReturns| ==> periodReturns[i] == periodReturns[0]
  {
    VarianceZero(periodReturns, 1);
  }

  /** A downside term: the shortfall below the hurdle, or zero. */
  function Downside(ret: real, riskFree: real): (d: real)
    ensures d <= 0.0
    ensures d == ret - riskFree || d == 0.0
    ensures d != 0.0 <==> ret < riskFree
  {
    if ret - riskFree < 0.0 then ret - riskFree else 0.0
  }

  function DownsideReturns(periodReturns: seq<real>, riskFree: real): (r: seq<real>)
    ensures |r| == |periodReturns|
    ensures forall i :: 0 <= i < |r| ==> r[i] == Downside(periodReturns[i], riskFree)
  {
    seq(|periodReturns|, i requires 0 <= i < |periodReturns| => Downside(periodReturns[i], riskFree))
  }

  /** Mean return minus the hurdle, over the root mean squared shortfall. */
  function SortinoRatio(periodReturns: seq<real>, riskFree: real): (r: Result<Ratio, MetricError>)
    ensures r.Err? <==> |periodReturns| == 0
    ensures r.Err? ==> r.error == EmptyReturns
    ensures r.Ok? ==> r.value.Quotient?
                      && r.value.numerator == Mean(periodReturns) - riskFree
                      && r.value.variance >= 0.0
  {
    if |periodReturns| == 0 then Err(EmptyReturns)
    else
      SumSquaresZero(DownsideReturns(periodReturns, riskFree));
      Ok(Quotient(Mean(periodReturns) - riskFree, Mean(Squares(DownsideReturns(periodReturns, riskFree)))))
  }

  /** The downside risk is zero exactly when no return falls short of the
      hurdle. */
  lemma SortinoZeroDownside(periodReturns: seq<real>, riskFree: real)
    requires |periodReturns| > 0
    ensures SortinoRatio(periodReturns, riskFree).value.variance == 0.0 <==>
              forall i :: 0 <= i < |periodReturns| ==> periodReturns[i] >= riskFree
  {
    var d := DownsideReturns(periodReturns, riskFree);
    SumSquaresZero(d);
    assert Mean(Squares(d)) == Sum(Squares(d)) / |periodReturns| as real;
  }

  // ---------------------------------------------------------------------
  // Drawdowns

  /** The performance index after one more period with return `ret`. */
  function Compound(perf: real, ret: real): real {
    perf * (1.0 + ret)
  }

  /** The drawdown of index `perf` below the running peak `peak`. */
  function DrawdownFrom(perf: real, peak: real): real
    requires peak > 0.0
  {
    perf / peak - 1.0
  }

  /** Cumulative performance index after the given returns, starting at 1. */
  function Perf(s: seq<real>): real {
    if |s| == 0 then 1.0 else Compound(Perf(s[..|s| - 1]), s[|s| - 1])
  }

  /** The running peak of the performance index, starting at 1. */
  function Peak(s: seq<real>): (p: real)
    ensures p >= 1.0 && p >= Perf(s)
  {
    if |s| == 0 then 1.0
    else if Perf(s) > Peak(s[..|s| - 1]) then Perf(s)
    else Peak(s[..|s| - 1])
  }

  /** One drawdown per period: the index over its running peak, minus 1. */
  function Drawdowns(s: seq<real>): (dds: seq<real>)
    ensures |dds| == |s|
  {
    if |s| == 0 then [] else Drawdowns(s[..|s| - 1]) + [DrawdownFrom(Perf(s), Peak(s))]
  }

  /** The smallest of 0 and the given values. */
  function Lowest(s: seq<real>): (m: real)
    ensures m <= 0.0
    ensures forall i :: 0 <= i < |s| ==> m <= s[i]
    ensures m == 0.0 || exists i :: 0 <= i < |s| && s[i] == m
  {
    if |s| == 0 then 0.0
    else if s[|s| - 1] < Lowest(s[..|s| - 1]) then s[|s| - 1]
    else Lowest(s[..|s| - 1])
  }

  datatype Drawdown = Drawdown(mdd: real, dds: seq<real>)

  /** The drawdown loop: keeps the performance index, its peak, the
      drawdown series and the deepest drawdown while reading each period. */
  method DrawdownScan(periodReturns: seq<real>) returns (mdd: real, dds: seq<real>)
    ensures dds == Drawdowns(periodReturns) && mdd == Lowest(dds)
  {
    var peak, curPerf := 1.0, 1.0;
    mdd, dds := 0.0, [];
    for i := 0 to |periodReturns|
      invariant curPerf == Perf(periodReturns[..i]) && peak == Peak(periodReturns[..i])
      invariant dds == Drawdowns(periodReturns[..i]) && mdd == Lowest(dds)
    {
      ScanStep(periodReturns, i);
      curPerf := Compound(curPerf, periodReturns[i]);
      if curPerf > peak {
        peak := curPerf;
      }
      var dd := DrawdownFrom(curPerf, peak);
      dds := dds + [dd];
      assert dds[..i] == Drawdowns(periodReturns[..i]);
      if dd < mdd {
        mdd := dd;
      }
    }
    assert periodReturns[..|periodReturns|] == periodReturns;
  }

  /** maximum_drawdown: the input guards, then the scan. */
  method MaximumDrawdown(periodReturns: seq<real>) returns (r: Result<Drawdown, MetricError>)
    ensures r.Err? <==> |periodReturns| == 0 || !NoWipeout(periodReturns)
    ensures r.Err? ==> r.error == InvalidInput
    ensures r.Ok? ==> r.value.dds == Drawdowns(periodReturns) && r.value.mdd == Lowest(r.value.dds)
  {
    if |periodReturns| == 0 || !NoWipeout(periodReturns) {
      return Err(InvalidInput);
    }
    var mdd, dds := DrawdownScan(periodReturns);
    r := Ok(Drawdown(mdd, dds));
  }

  /** How each quantity of the scan moves when one more period is read. */
  lemma ScanStep(s: seq<real>, i: nat)
    requires i < |s|
    ensures Perf(s[..i + 1]) == Compound(Perf(s[..i]), s[i])
    ensures Peak(s[..i + 1]) == if Perf(s[..i + 1]) > Peak(s[..i]) then Perf(s[..i + 1]) else Peak(s[..i])
    ensures Drawdowns(s[..i + 1]) == Drawdowns(s[..i]) + [DrawdownFrom(Perf(s[..i + 1]), Peak(s[..i + 1]))]
    ensures Underwater(s[..i + 1]) == if Perf(s[..i + 1]) > Peak(s[..i]) then 0 else Underwater(s[..i]) + 1
    ensures Longest(s[..i + 1]) ==
              if Underwater(s[..i + 1]) > Longest(s[..i]) then Underwater(s[..i + 1]) else Longest(s[..i])
  {
    var t := s[..i + 1];
    assert t[..i] == s[..i] && t[i] == s[i];
  }

  lemma {:induction false} PerfPositive(s: seq<real>)
    requires NoWipeout(s)
    ensures Perf(s) > 0.0
  {
    if |s| > 0 {
      var p := s[..|s| - 1];
      assert NoWipeout(p) by {
        forall i | 0 <= i < |p| ensures p[i] > -1.0 {
          assert p[i] == s[i];
        }
      }
      PerfPositive(p);
      assert Perf(s) == Perf(p) * (1.0 + s[|s| - 1]);
      assert 1.0 + s[|s| - 1] > 0.0;
      MultiplyPositive(Perf(p), 1.0 + s[|s| - 1]);
    }
  }

  lemma {:induction false} DrawdownAt(s: seq<real>, i: nat)
    requires i < |s|
    ensures Drawdowns(s)[i] == Perf(s[..i + 1]) / Peak(s[..i + 1]) - 1.0
  {
    if i < |s| - 1 {
      assert s[..|s| - 1][..i + 1] == s[..i + 1];
      DrawdownAt(s[..|s| - 1], i);
    } else {
      assert s[..i + 1] == s;
    }
  }

  /** Without a wipeout every drawdown lies in (-1, 0]. */
  lemma DrawdownsBounded(s: seq<real>)
    requires NoWipeout(s)
    ensures forall i :: 0 <= i < |s| ==> -1.0 < Drawdowns(s)[i] <= 0.0
  {
    forall i | 0 <= i < |s| ensures -1.0 < Drawdowns(s)[i] <= 0.0 {
      DrawdownAt(s, i);
      var t := s[..i + 1];
      PerfPositive(t);
      RatioBounds(Perf(t), Peak(t));
    }
  }

  /** With no losing period the index never leaves its peak. */
  lemma {:induction false} NoLossAtPeak(s: seq<real>)
    requires forall i :: 0 <= i < |s| ==> s[i] >= 0.0
    ensures Perf(s) >= 1.0 && Peak(s) == Perf(s)
  {
    if |s| > 0 {
      var p := s[..|s| - 1];
      NoLossAtPeak(p);
      assert Perf(s) == Perf(p) * (1.0 + s[|s| - 1]) >= Perf(p);
    }
  }

  /** With no losing period every drawdown and the maximum drawdown are 0. */
  lemma NoLossNoDrawdown(s: seq<real>)
    requires forall i :: 0 <= i < |s| ==> s[i] >= 0.0
    ensures forall i :: 0 <= i < |s| ==> Drawdowns(s)[i] == 0.0
    ensures Lowest(Drawdowns(s)) == 0.0
  {
    forall i | 0 <= i < |s| ensures Drawdowns(s)[i] == 0.0 {
      DrawdownAt(s, i);
      var t := s[..i + 1];
      assert forall j :: 0 <= j < |t| ==> t[j] >= 0.0 by {
        forall j | 0 <= j < |t| ensures t[j] >= 0.0 {
          assert t[j] == s[j];
        }
      }
      NoLossAtPeak(t);
      DivideSelf(Peak(t));
    }
  }

  // ---------------------------------------------------------------------
  // Longest drawdown

  /** Period i (0-based) sets a new peak: the index after it strictly
      exceeds the peak before it. */
  predicate NewPeak(s: seq<real>, i: nat)
    requires i < |s|
  {
    Perf(s[..i + 1]) > Peak(s[..i])
  }

  /** The length of the drawdown run in progress after the given returns. */
  function Underwater(s: seq<real>): (n: nat)
    ensures n <= |s|
  {
    if |s| == 0 then 0
    else if Perf(s) > Peak(s[..|s| - 1]) then 0
    else Underwater(s[..|s| - 1]) + 1
  }

  /** The longest drawdown run seen so far. */
  function Longest(s: seq<real>): (n: nat)
    ensures n <= |s|
  {
    if |s| == 0 then 0
    else if Underwater(s) > Longest(s[..|s| - 1]) then Underwater(s)
    else Longest(s[..|s| - 1])
  }

  /** The longest-drawdown loop: counts the periods since the last new
      peak and keeps the longest such count. */
  method LongestRunScan(periodReturns: seq<real>) returns (maxPeriod: nat)
    ensures maxPeriod == Longest(periodReturns)
  {
    var curPeriod := 0;
    maxPeriod := 0;
    var peak, curPerf := 1.0, 1.0;
    for i := 0 to |periodReturns|
      invariant curPerf == Perf(periodReturns[..i]) && peak == Peak(periodReturns[..i])
      invariant curPeriod == Underwater(periodReturns[..i]) && maxPeriod == Longest(periodReturns[..i])
    {
      ScanStep(periodReturns, i);
      curPerf := Compound(curPerf, periodReturns[i]);
      if curPerf > peak {
        curPeriod := 0;
        peak := curPerf;
        continue;
      }
      curPeriod := curPeriod + 1;
      if curPeriod > maxPeriod {
        maxPeriod := curPeriod;
      }
    }
    assert periodReturns[..|periodReturns|] == periodReturns;
  }

  /** longest_drawdown: the input guards, then the scan. */
  method LongestDrawdown(periodReturns: seq<real>) returns (r: Result<nat, MetricError>)
    ensures r.Err? <==> |periodReturns| == 0 || !NoWipeout(periodReturns)
    ensures r.Err? ==> r.error == InvalidInput
    ensures r.Ok? ==> r.value == Longest(periodReturns)
  {
    if |periodReturns| == 0 || !NoWipeout(periodReturns) {
      return Err(InvalidInput);
    }
    var maxPeriod := LongestRunScan(periodReturns);
    r := Ok(maxPeriod);
  }

  /** A period with a return of exactly 0 extends the run in progress. */
  lemma FlatPeriodExtendsRun(s: seq<real>)
    requires |s| > 0 && s[|s| - 1] == 0.0
    ensures Underwater(s) == Underwater(s[..|s| - 1]) + 1
  {
    assert Perf(s) == Perf(s[..|s| - 1]);
  }

  /** When every return is positive, every period sets a new peak and there
      is no drawdown run at all. */
  lemma {:induction false} AllGainsNoRun(s: seq<real>)
    requires forall i :: 0 <= i < |s| ==> s[i] > 0.0
    ensures Longest(s) == 0
  {
    if |s| > 0 {
      var p := s[..|s| - 1];
      AllGainsNoRun(p);
      NoLossAtPeak(p);
      assert Perf(s) == Perf(p) * (1.0 + s[|s| - 1]) > Perf(p);
    }
  }

  predicate UnderwaterWindow(s: seq<real>, a: nat, b: nat)
    requires a <= b <= |s|
  {
    forall i :: a <= i < b ==> !NewPeak(s, i)
  }

  lemma NewPeakOfPrefix(s: seq<real>, k: nat, i: nat)
    requires i < k <= |s|
    ensures NewPeak(s[..k], i) == NewPeak(s, i)
  {
    assert s[..k][..i + 1] == s[..i + 1];
    assert s[..k][..i] == s[..i];
  }

  /** The run in progress covers exactly the trailing periods that set no
      new peak. */
  lemma {:induction false} UnderwaterIsTrailingRun(s: seq<real>)
    ensures UnderwaterWindow(s, |s| - Underwater(s), |s|)
    ensures Underwater(s) < |s| ==> NewPeak(s, |s| - Underwater(s) - 1)
  {
    if |s| > 0 {
      var n := |s|;
      var p := s[..n - 1];
      assert p[..n - 1] == p;
      assert s[..n] == s;
      if Perf(s) <= Peak(p) {
        UnderwaterIsTrailingRun(p);
        forall i | n - Underwater(s) <= i < n ensures !NewPeak(s, i) {
          if i < n - 1 {
            NewPeakOfPrefix(s, n - 1, i);
          }
        }
        if Underwater(s) < n {
          NewPeakOfPrefix(s, n - 1, n - Underwater(s) - 1);
        }
      }
    }
  }

  lemma {:induction false} WindowBelowRun(s: seq<real>, a: nat, b: nat)
    requires a <= b <= |s| && UnderwaterWindow(s, a, b)
    ensures Underwater(s[..b]) >= b - a
  {
    if a < b {
      WindowBelowRun(s, a, b - 1);
      assert s[..b][..b - 1] == s[..b - 1];
      NewPeakOfPrefix(s, b, b - 1);
      assert s[..b][..b] == s[..b];
    }
  }

  lemma {:induction false} LongestOfPrefix(s: seq<real>, k: nat)
    requires k <= |s|
    ensures Longest(s) >= Longest(s[..k]) >= Underwater(s[..k])
  {
    if k < |s| {
      LongestOfPrefix(s[..|s| - 1], k);
      assert s[..|s| - 1][..k] == s[..k];
    } else {
      assert s[..k] == s;
    }
  }

  lemma {:induction false} LongestAttained(s: seq<real>) returns (k: nat)
    ensures k <= |s| && Longest(s) == Underwater(s[..k])
  {
    if |s| == 0 {
      k := 0;
    } else if Underwater(s) > Longest(s[..|s| - 1]) {
      k := |s|;
      assert s[..k] == s;
    } else {
      k := LongestAttained(s[..|s| - 1]);
      assert s[..|s| - 1][..k] == s[..k];
    }
  }

  /** The longest drawdown is the length of the longest run of consecutive
      periods none of which sets a new peak. */
  lemma LongestIsLongestWindow(s: seq<real>) returns (start: nat)
    ensures start + Longest(s) <= |s| && UnderwaterWindow(s, start, start + Longest(s))
    ensures forall a: nat, b: nat :: a <= b <= |s| && UnderwaterWindow(s, a, b) ==> b - a <= Longest(s)
  {
    var k := LongestAttained(s);
    var t := s[..k];
    UnderwaterIsTrailingRun(t);
    start := k - Longest(s);
    forall i | start <= i < k ensures !NewPeak(s, i) {
      NewPeakOfPrefix(s, k, i);
    }
    forall a: nat, b: nat | a <= b <= |s| && UnderwaterWindow(s, a, b) ensures b - a <= Longest(s) {
      WindowBelowRun(s, a, b);
      LongestOfPrefix(s, b);
    }
  }

  // ---------------------------------------------------------------------
  // Information ratio

  /** Mean active return over the (population) standard deviation of the
      active returns; exactly 0 when the two means coincide. */
  function InformationRatio(periodReturns: seq<real>, benchmarkReturns: seq<real>): (r: Result<Ratio, MetricError>)
    ensures (|periodReturns| == 0 || |benchmarkReturns| == 0) ==> r == Err(InvalidInput)
    ensures |periodReturns| > 0 && |benchmarkReturns| > 0 && |periodReturns| != |benchmarkReturns| ==>
              r == Err(NotEqualLength(|periodReturns|, |benchmarkReturns|))
    ensures |periodReturns| == |benchmarkReturns| > 0 && !(NoWipeout(periodReturns) && NoWipeout(benchmarkReturns)) ==>
              r == Err(InvalidInput)
    ensures |periodReturns| == |benchmarkReturns| == 1 && NoWipeout(periodReturns) && NoWipeout(benchmarkReturns) ==>
              r == Err(InvalidLength)
    ensures r.Ok? <==> |periodReturns| == |benchmarkReturns| >= 2 && NoWipeout(periodReturns) && NoWipeout(benchmarkReturns)
    ensures r.Ok? ==> (r.value == Exactly(0.0) <==> Mean(periodReturns) == Mean(benchmarkReturns))
    ensures r.Ok? && r.value.Quotient? ==>
              r.value.numerator == Mean(Difference(periodReturns, benchmarkReturns)) != 0.0 && r.value.variance >= 0.0
  {
    if |periodReturns| == 0 || |benchmarkReturns| == 0 then Err(InvalidInput)
    else if |periodReturns| != |benchmarkReturns| then Err(NotEqualLength(|periodReturns|, |benchmarkReturns|))
    else if !NoWipeout(periodReturns) || !NoWipeout(benchmarkReturns) then Err(InvalidInput)
    else if |periodReturns| == 1 || |benchmarkReturns| == 1 then Err(InvalidLength)
    else if Mean(periodReturns) == Mean(benchmarkReturns) then Ok(Exactly(0.0))
    else
      MeanDifference(periodReturns, benchmarkReturns);
      Ok(Quotient(Mean(periodReturns) - Mean(benchmarkReturns), Variance(Difference(periodReturns, benchmarkReturns), 0)))
  }

  /** A series measured against itself has an information ratio of exactly 0. */
  lemma InformationRatioSelf(periodReturns: seq<real>)
    requires |periodReturns| >= 2 && NoWipeout(periodReturns)
    ensures InformationRatio(periodReturns, periodReturns) == Ok(Exactly(0.0))
  {
  }
}
