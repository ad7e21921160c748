/**
 * Cooling-curve analysis of a Jominy end-quench record: cleaning of the raw
 * (time, temperature) columns, the Savitzky-Golay window adjustment, cooling rates
 * with division-by-zero turned into NaN, the t8/5 time and its rate statistics,
 * the first near-zero cooling rate, and the summary of one curve.
 */
module Jominy {
  import opened Numbers

  /** A double as the analysis sees it: a finite value, NaN, or an infinity. */
  datatype Num = Fin(v: real) | NaN | Inf(positive: bool)

  // ---------------------------------------------------------------- sequences of reals

  function Sum(xs: seq<real>): real
  {
    if xs == [] then 0.0 else xs[0] + Sum(xs[1..])
  }

  /** Arithmetic mean (np.mean); it lies between the smallest and the largest element. */
  function Mean(xs: seq<real>): (m: real)
    requires xs != []
    ensures SeqMin(xs) <= m <= SeqMax(xs)
  {
    SumAtLeast(xs, SeqMin(xs));
    SumAtMost(xs, SeqMax(xs));
    QuotientBounds(Sum(xs), |xs| as real, SeqMin(xs), SeqMax(xs));
    Sum(xs) / |xs| as real
  }

  /** Largest element (np.max). */
  function SeqMax(xs: seq<real>): (m: real)
    requires xs != []
    ensures m in xs
    ensures forall x | x in xs :: x <= m
  {
    if |xs| == 1 then xs[0]
    else
      assert xs == [xs[0]] + xs[1..];
      Max(xs[0], SeqMax(xs[1..]))
  }

  /** Smallest element (np.min). */
  function SeqMin(xs: seq<real>): (m: real)
    requires xs != []
    ensures m in xs
    ensures forall x | x in xs :: m <= x
  {
    if |xs| == 1 then xs[0]
    else
      assert xs == [xs[0]] + xs[1..];
      Min(xs[0], SeqMin(xs[1..]))
  }

  /** Sum of squared deviations from c. */
  function SquaredDeviation(xs: seq<real>, c: real): (s: real)
    ensures s >= 0.0
  {
    if xs == [] then 0.0
    else
      var d := xs[0] - c;
      assert d * d >= 0.0 by {
        if d < 0.0 { assert d * d == (-d) * (-d); }
      }
      d * d + SquaredDeviation(xs[1..], c)
  }

  /** Population variance (np.std with ddof = 0, squared). */
  function Variance(xs: seq<real>): (v: real)
    requires xs != []
    ensures v >= 0.0
  {
    SquaredDeviation(xs, Mean(xs)) / |xs| as real
  }

  /** A lower bound of every element bounds the sum by n times itself. */
  lemma {:induction false} SumAtLeast(xs: seq<real>, m: real)
    requires forall x | x in xs :: m <= x
    ensures Sum(xs) >= |xs| as real * m
  {
    if xs != [] {
      assert xs[0] in xs;
      assert forall x | x in xs[1..] :: x in xs;
      SumAtLeast(xs[1..], m);
      assert |xs| as real * m == m + (|xs| - 1) as real * m;
    }
  }

  /** An upper bound of every element bounds the sum by n times itself. */
  lemma {:induction false} SumAtMost(xs: seq<real>, m: real)
    requires forall x | x in xs :: x <= m
    ensures Sum(xs) <= |xs| as real * m
  {
    if xs != [] {
      assert xs[0] in xs;
      assert forall x | x in xs[1..] :: x in xs;
      SumAtMost(xs[1..], m);
      assert |xs| as real * m == m + (|xs| - 1) as real * m;
    }
  }

  /** n lo <= a <= n hi with n > 0 gives lo <= a / n <= hi. */
  lemma QuotientBounds(a: real, n: real, lo: real, hi: real)
    requires n > 0.0 && n * lo <= a <= n * hi
    ensures lo <= a / n <= hi
  {
    assert (a / n) * n == a;
  }

  // ---------------------------------------------------------------- clean_data

  /** The masked pair of columns: positions where both time and temperature are finite, in order. */
  function CleanData(time: seq<Num>, temp: seq<Num>): (r: (seq<real>, seq<real>))
    requires |time| == |temp|
    ensures |r.0| == |r.1| <= |time|
  {
    if time == [] then ([], [])
    else
      var rest := CleanData(time[1..], temp[1..]);
      if time[0].Fin? && temp[0].Fin? then ([time[0].v] + rest.0, [temp[0].v] + rest.1) else rest
  }

  /** Every cleaned row comes from an input row whose time and temperature are both finite. */
  lemma {:induction false} CleanRowOrigin(time: seq<Num>, temp: seq<Num>, k: nat) returns (i: nat)
    requires |time| == |temp| && k < |CleanData(time, temp).0|
    ensures i < |time| && time[i] == Fin(CleanData(time, temp).0[k]) && temp[i] == Fin(CleanData(time, temp).1[k])
  {
    var rest := CleanData(time[1..], temp[1..]);
    if time[0].Fin? && temp[0].Fin? {
      if k == 0 {
        i := 0;
      } else {
        var i' := CleanRowOrigin(time[1..], temp[1..], k - 1);
        i := i' + 1;
      }
    } else {
      var i' := CleanRowOrigin(time[1..], temp[1..], k);
      i := i' + 1;
    }
  }

  /** Cleaning a concatenation cleans the parts and concatenates: the order of kept rows is preserved. */
  lemma {:induction false} CleanDataAppend(time1: seq<Num>, temp1: seq<Num>, time2: seq<Num>, temp2: seq<Num>)
    requires |time1| == |temp1| && |time2| == |temp2|
    ensures CleanData(time1 + time2, temp1 + temp2).0 == CleanData(time1, temp1).0 + CleanData(time2, temp2).0
    ensures CleanData(time1 + time2, temp1 + temp2).1 == CleanData(time1, temp1).1 + CleanData(time2, temp2).1
  {
    if time1 != [] {
      assert (time1 + time2)[1..] == time1[1..] + time2;
      assert (temp1 + temp2)[1..] == temp1[1..] + temp2;
      CleanDataAppend(time1[1..], temp1[1..], time2, temp2);
    } else {
      assert time1 + time2 == time2 && temp1 + temp2 == temp2;
    }
  }

  /** A single row is kept exactly when both of its values are finite. */
  lemma CleanDataRow(time: Num, temp: Num)
    ensures CleanData([time], [temp]) == if time.Fin? && temp.Fin? then ([time.v], [temp.v]) else ([], [])
  {
    assert [time][1..] == [] && [temp][1..] == [];
    var rest := CleanData([], []);
    assert rest == ([], []);
    if time.Fin? && temp.Fin? {
      assert [time.v] + rest.0 == [time.v] && [temp.v] + rest.1 == [temp.v];
    }
    assert CleanData([time], [temp]) == if time.Fin? && temp.Fin? then ([time.v] + rest.0, [temp.v] + rest.1) else rest;
  }

  // ---------------------------------------------------------------- smooth_curves

  /**
   * The Savitzky-Golay window used for n points: a window longer than the series
   * becomes n - 1 (n even) or n (n odd), raised to polyorder + 2 when that falls
   * below polyorder; the window is then made odd.
   */
  function AdjustedWindow(n: nat, window: int, polyorder: int): (w: int)
    ensures w % 2 == 1
    ensures window <= n ==> w == window || w == window + 1
    ensures window > n ==> w >= polyorder
    ensures window > n && polyorder < n ==> n - 1 <= w <= n
    ensures window > n && polyorder <= (if n % 2 == 0 then n - 1 else n) ==> w == (if n % 2 == 0 then n - 1 else n)
    ensures window > n && (if n % 2 == 0 then n - 1 else n) < polyorder ==> polyorder + 2 <= w <= polyorder + 3
  {
    var w1 := if window > n then
                var w0 := if n % 2 == 0 then n - 1 else n;
                if w0 < polyorder then polyorder + 2 else w0
              else window;
    if w1 % 2 == 0 then w1 + 1 else w1
  }

  // ---------------------------------------------------------------- calculate_cooling_rate

  /** np.gradient with unit spacing: one-sided at the ends, central inside. */
  function Gradient(f: seq<real>): (g: seq<real>)
    requires |f| >= 2
    ensures |g| == |f|
    ensures g[0] == f[1] - f[0] && g[|f| - 1] == f[|f| - 1] - f[|f| - 2]
    ensures forall i | 0 < i < |f| - 1 :: g[i] == (f[i + 1] - f[i - 1]) / 2.0
  {
    seq(|f|, i requires 0 <= i < |f| =>
      if i == 0 then f[1] - f[0]
      else if i == |f| - 1 then f[i] - f[i - 1]
      else (f[i + 1] - f[i - 1]) / 2.0)
  }

  /** On samples of a straight line a + b i the gradient is the slope b everywhere, ends included. */
  lemma GradientOfLine(f: seq<real>, a: real, b: real)
    requires |f| >= 2
    requires forall i | 0 <= i < |f| :: f[i] == a + b * i as real
    ensures forall i | 0 <= i < |f| :: Gradient(f)[i] == b
  {
    var g := Gradient(f);
    forall i | 0 <= i < |f|
      ensures g[i] == b
    {
      if i == 0 {
        RiseOverOneStep(a, b, 0.0, f[0], f[1]);
      } else if i == |f| - 1 {
        RiseOverOneStep(a, b, (i - 1) as real, f[i - 1], f[i]);
      } else {
        RiseOverOneStep(a, b, (i - 1) as real, f[i - 1], f[i]);
        RiseOverOneStep(a, b, i as real, f[i], f[i + 1]);
      }
    }
  }

  /** Two samples of the line a + b x one unit apart differ by the slope b. */
  lemma RiseOverOneStep(a: real, b: real, x: real, y0: real, y1: real)
    requires y0 == a + b * x && y1 == a + b * (x + 1.0)
    ensures y1 - y0 == b
  {
    assert b * (x + 1.0) == b * x + b;
  }

  /** IEEE division: x / 0 is a signed infinity, 0 / 0 is NaN. */
  function Divide(a: real, b: real): (r: Num)
    ensures r.Fin? <==> b != 0.0
    ensures r.Fin? ==> r.v * b == a
    ensures r.NaN? <==> b == 0.0 && a == 0.0
  {
    if b != 0.0 then Fin(a / b) else if a == 0.0 then NaN else Inf(a > 0.0)
  }

  /** np.where(np.isinf(x), np.nan, x). */
  function InfToNaN(x: Num): (r: Num)
    ensures !r.Inf?
    ensures x.Inf? ==> r.NaN?
    ensures !x.Inf? ==> r == x
  {
    if x.Inf? then NaN else x
  }

  /**
   * Cooling rate dT/dt from the gradients of the two series, infinities replaced
   * by NaN; fewer than two points make np.gradient fail and every rate NaN.
   */
  function CoolingRate(time: seq<real>, temp: seq<real>): (r: seq<Num>)
    requires |time| == |temp|
    ensures |r| == |time|
    ensures forall i | 0 <= i < |r| :: !r[i].Inf?
    ensures |time| < 2 ==> forall i | 0 <= i < |r| :: r[i].NaN?
    ensures |time| >= 2 ==> forall i | 0 <= i < |r| ::
      (r[i].NaN? <==> Gradient(time)[i] == 0.0) && (r[i].Fin? ==> r[i].v * Gradient(time)[i] == Gradient(temp)[i])
  {
    if |time| < 2 then seq(|time|, i => NaN)
    else
      var dt, dT := Gradient(time), Gradient(temp);
      seq(|time|, i requires 0 <= i < |time| => InfToNaN(Divide(dT[i], dt[i])))
  }

  /**
   * A curve sampled at equal time steps h whose temperature changes by s per sample
   * has the cooling rate s / h at every point.
   */
  lemma ConstantRateIsReported(time: seq<real>, temp: seq<real>, t0: real, h: real, T0: real, s: real)
    requires |time| == |temp| >= 2 && h != 0.0
    requires forall i | 0 <= i < |time| :: time[i] == t0 + h * i as real
    requires forall i | 0 <= i < |temp| :: temp[i] == T0 + s * i as real
    ensures forall i | 0 <= i < |time| :: CoolingRate(time, temp)[i] == Fin(s / h)
  {
    GradientOfLine(time, t0, h);
    GradientOfLine(temp, T0, s);
  }

  /** Number of infinite entries (np.sum(np.isinf(x))): zero exactly when no entry is infinite. */
  function InfCount(xs: seq<Num>): (n: nat)
    ensures n <= |xs|
    ensures n == 0 <==> forall i | 0 <= i < |xs| :: !xs[i].Inf?
  {
    if xs == [] then 0
    else
      assert forall i | 1 <= i < |xs| :: xs[i] == xs[1..][i - 1];
      (if xs[0].Inf? then 1 else 0) + InfCount(xs[1..])
  }

  /** Number of NaN entries (np.sum(np.isnan(x))): zero exactly when no entry is NaN. */
  function NaNCount(xs: seq<Num>): (n: nat)
    ensures n <= |xs|
    ensures n == 0 <==> forall i | 0 <= i < |xs| :: !xs[i].NaN?
  {
    if xs == [] then 0
    else
      assert forall i | 1 <= i < |xs| :: xs[i] == xs[1..][i - 1];
      (if xs[0].NaN? then 1 else 0) + NaNCount(xs[1..])
  }

  /** The finite entries, in order (x[~isnan(x) & ~isinf(x)]). */
  function FiniteValues(xs: seq<Num>): (r: seq<real>)
    ensures |r| <= |xs|
    ensures forall x | x in r :: Fin(x) in xs
  {
    if xs == [] then [] else (if xs[0].Fin? then [xs[0].v] else []) + FiniteValues(xs[1..])
  }

  /** FiniteValues is empty exactly when no entry is finite. */
  lemma {:induction false} FiniteValuesEmpty(xs: seq<Num>)
    ensures FiniteValues(xs) == [] <==> forall i | 0 <= i < |xs| :: !xs[i].Fin?
  {
    if xs != [] {
      FiniteValuesEmpty(xs[1..]);
      assert forall i | 1 <= i < |xs| :: xs[i] == xs[1..][i - 1];
    }
  }

  // ---------------------------------------------------------------- find_t85

  /**
   * The curve reaches both 800 and 500 degrees: its maximum is at least 800 and its
   * minimum at most 500. An empty curve does not count: its NaN maximum and minimum
   * pass the range test, but the two-point check right after it gives NaN all the same.
   */
  predicate SpansT85(temps: seq<real>)
  {
    temps != [] && SeqMax(temps) >= 800.0 && SeqMin(temps) <= 500.0
  }

  /** A curve that spans 800 to 500 has at least two points, so the interpolation check passes. */
  lemma SpanningCurveHasTwoPoints(temps: seq<real>)
    requires SpansT85(temps)
    ensures |temps| >= 2
  {
  }

  /**
   * t8/5 = |t(500) - t(800)|, where t800 and t500 are the interpolated times (NaN
   * outside the data). NaN when the curve does not span 800 to 500 or either
   * interpolated time is NaN.
   */
  function FindT85(temps: seq<real>, t800: Num, t500: Num): (r: Num)
    requires !t800.Inf? && !t500.Inf?
    ensures r.Fin? || r.NaN?
    ensures r.Fin? <==> SpansT85(temps) && t800.Fin? && t500.Fin?
    ensures r.Fin? ==> r.v >= 0.0 && (r.v == t500.v - t800.v || r.v == t800.v - t500.v)
  {
    if !SpansT85(temps) || |temps| < 2 then NaN
    else if t800.NaN? || t500.NaN? then NaN
    else Fin(Abs(t500.v - t800.v))
  }

  // ---------------------------------------------------------------- calculate_cooling_stats_t85

  /** Average rate, lowest rate and the time of the first lowest rate inside the t8/5 window. */
  datatype T85Stats = T85Stats(avgRate: Num, minRate: Num, timeAtMin: Num)

  const NoStats := T85Stats(NaN, NaN, NaN)

  /** Position i lies in [lo, hi] and has a valid (non-NaN) rate. */
  predicate InWindow(times: seq<real>, rates: seq<Num>, lo: real, hi: real, i: int)
    requires |times| == |rates|
  {
    0 <= i < |times| && lo <= times[i] <= hi && rates[i].Fin?
  }

  /** (time, rate) of the valid rates inside [lo, hi], in data order. */
  function WindowSamples(times: seq<real>, rates: seq<Num>, lo: real, hi: real): (s: seq<(real, real)>)
    requires |times| == |rates|
    ensures |s| <= |times|
  {
    if times == [] then []
    else
      var rest := WindowSamples(times[1..], rates[1..], lo, hi);
      if InWindow(times, rates, lo, hi, 0) then [(times[0], rates[0].v)] + rest else rest
  }

  /** Every window sample is the time and rate of an in-window position. */
  lemma {:induction false} SampleOrigin(times: seq<real>, rates: seq<Num>, lo: real, hi: real, k: nat) returns (i: nat)
    requires |times| == |rates| && k < |WindowSamples(times, rates, lo, hi)|
    ensures InWindow(times, rates, lo, hi, i) && WindowSamples(times, rates, lo, hi)[k] == (times[i], rates[i].v)
  {
    if InWindow(times, rates, lo, hi, 0) && k == 0 {
      i := 0;
    } else {
      var i' := SampleOrigin(times[1..], rates[1..], lo, hi, if InWindow(times, rates, lo, hi, 0) then k - 1 else k);
      i := i' + 1;
    }
  }

  /** Every in-window position contributes its time and rate to the window samples. */
  lemma {:induction false} SampleComplete(times: seq<real>, rates: seq<Num>, lo: real, hi: real, i: nat)
    requires |times| == |rates| && InWindow(times, rates, lo, hi, i)
    ensures (times[i], rates[i].v) in WindowSamples(times, rates, lo, hi)
  {
    if i > 0 {
      assert InWindow(times[1..], rates[1..], lo, hi, i - 1);
      SampleComplete(times[1..], rates[1..], lo, hi, i - 1);
    }
  }

  function Rates(s: seq<(real, real)>): (r: seq<real>)
    ensures |r| == |s| && forall k | 0 <= k < |s| :: r[k] == s[k].1
  {
    seq(|s|, k requires 0 <= k < |s| => s[k].1)
  }

  /** Position of the first smallest rate (np.argmin). */
  function FirstArgMin(s: seq<(real, real)>): (k: nat)
    requires s != []
    ensures k < |s|
    ensures forall j | 0 <= j < |s| :: s[k].1 <= s[j].1
    ensures forall j | 0 <= j < k :: s[k].1 < s[j].1
  {
    if |s| == 1 then 0
    else
      var k := FirstArgMin(s[1..]);
      if s[0].1 <= s[k + 1].1 then 0 else k + 1
  }

  /**
   * Rate statistics inside the t8/5 window [min(t800, t500), max(t800, t500)]:
   * all NaN unless the curve spans 800 to 500, both interpolated times exist and
   * the window holds a valid rate.
   */
  function CoolingStatsT85(times: seq<real>, temps: seq<real>, rates: seq<Num>, t800: Num, t500: Num): (r: T85Stats)
    requires |times| == |rates| && forall i | 0 <= i < |rates| :: !rates[i].Inf?
    requires !t800.Inf? && !t500.Inf?
    ensures r == NoStats || (r.avgRate.Fin? && r.minRate.Fin? && r.timeAtMin.Fin?)
    ensures r != NoStats ==> SpansT85(temps) && t800.Fin? && t500.Fin?
    ensures r != NoStats ==>
      var lo, hi := Min(t800.v, t500.v), Max(t800.v, t500.v);
      && (forall i | InWindow(times, rates, lo, hi, i) :: r.minRate.v <= rates[i].v)
      && (exists i :: InWindow(times, rates, lo, hi, i) && rates[i].v == r.minRate.v && times[i] == r.timeAtMin.v)
      && r.minRate.v <= r.avgRate.v
    ensures r != NoStats ==>
      var xs := Rates(WindowSamples(times, rates, Min(t800.v, t500.v), Max(t800.v, t500.v)));
      xs != [] && r.avgRate.v == Mean(xs) && r.minRate.v == SeqMin(xs)
    ensures (SpansT85(temps) && t800.Fin? && t500.Fin? &&
             exists i :: InWindow(times, rates, Min(t800.v, t500.v), Max(t800.v, t500.v), i)) ==> r != NoStats
  {
    if !SpansT85(temps) || |temps| < 2 || t800.NaN? || t500.NaN? then NoStats
    else
      var lo, hi := Min(t800.v, t500.v), Max(t800.v, t500.v);
      var s := WindowSamples(times, rates, lo, hi);
      assert forall i | InWindow(times, rates, lo, hi, i) :: s != [] by {
        forall i | InWindow(times, rates, lo, hi, i) ensures s != [] {
          SampleComplete(times, rates, lo, hi, i);
        }
      }
      if s == [] then NoStats
      else
        var k := FirstArgMin(s);
        var xs := Rates(s);
        assert SeqMin(xs) == s[k].1 by {
          assert s[k].1 in xs;
          assert forall x | x in xs :: s[k].1 <= x;
        }
        assert forall i | InWindow(times, rates, lo, hi, i) :: s[k].1 <= rates[i].v by {
          forall i | InWindow(times, rates, lo, hi, i) ensures s[k].1 <= rates[i].v {
            SampleComplete(times, rates, lo, hi, i);
            var j :| 0 <= j < |s| && s[j] == (times[i], rates[i].v);
          }
        }
        assert exists i :: InWindow(times, rates, lo, hi, i) && rates[i].v == s[k].1 && times[i] == s[k].0 by {
          var i := SampleOrigin(times, rates, lo, hi, k);
        }
        T85Stats(Fin(Mean(xs)), Fin(s[k].1), Fin(s[k].0))
  }

  /** Within the window samples, the reported time is that of the first sample attaining the minimum. */
  lemma TimeAtMinIsFirst(times: seq<real>, temps: seq<real>, rates: seq<Num>, t800: Num, t500: Num) returns (k: nat)
    requires |times| == |rates| && forall i | 0 <= i < |rates| :: !rates[i].Inf?
    requires t800.Fin? && t500.Fin?
    requires CoolingStatsT85(times, temps, rates, t800, t500) != NoStats
    ensures k < |WindowSamples(times, rates, Min(t800.v, t500.v), Max(t800.v, t500.v))|
    ensures WindowSamples(times, rates, Min(t800.v, t500.v), Max(t800.v, t500.v))[k]
            == (CoolingStatsT85(times, temps, rates, t800, t500).timeAtMin.v, CoolingStatsT85(times, temps, rates, t800, t500).minRate.v)
    ensures forall j | 0 <= j < k :: WindowSamples(times, rates, Min(t800.v, t500.v), Max(t800.v, t500.v))[j].1
                                     > CoolingStatsT85(times, temps, rates, t800, t500).minRate.v
  {
    SpanningCurveHasTwoPoints(temps);
    var s := WindowSamples(times, rates, Min(t800.v, t500.v), Max(t800.v, t500.v));
    assert s != [];
    k := FirstArgMin(s);
    var r := CoolingStatsT85(times, temps, rates, t800, t500);
    assert r.minRate == Fin(s[k].1) && r.timeAtMin == Fin(s[k].0);
  }

  // ---------------------------------------------------------------- find_phase_change

  /** A rate that counts as near zero: a valid value with |rate| < threshold. */
  predicate NearZero(x: Num, threshold: real)
  {
    x.Fin? && Abs(x.v) < threshold
  }

  /** Index of the first near-zero rate, or |rates| when there is none. */
  function FirstNearZero(rates: seq<Num>, threshold: real): (k: nat)
    ensures k <= |rates|
    ensures k < |rates| ==> NearZero(rates[k], threshold)
    ensures forall j | 0 <= j < k :: !NearZero(rates[j], threshold)
  {
    if rates == [] then 0
    else if NearZero(rates[0], threshold) then 0
    else 1 + FirstNearZero(rates[1..], threshold)
  }

  /**
   * The time of the first valid rate with |rate| < threshold; NaN when no rate is
   * valid or none is near zero.
   */
  function PhaseChange(times: seq<real>, rates: seq<Num>, threshold: real): (r: Num)
    requires |times| == |rates|
    ensures r.Fin? || r.NaN?
    ensures r.Fin? ==> exists i | 0 <= i < |rates| :: NearZero(rates[i], threshold) && times[i] == r.v
                                                     && forall j | 0 <= j < i :: !NearZero(rates[j], threshold)
    ensures r.NaN? <==> forall i | 0 <= i < |rates| :: !NearZero(rates[i], threshold)
    ensures (forall i | 0 <= i < |rates| :: !rates[i].Fin?) ==> r.NaN?
  {
    var k := FirstNearZero(rates, threshold);
    if k < |rates| then Fin(times[k]) else NaN
  }

  // ---------------------------------------------------------------- analyze_all_curves

  /** Summary of one curve. The spread of the rates is reported as the population variance. */
  datatype Analysis = Analysis(
    t85: Num, averageRate: Num, phaseChangeTime: Num,
    maxTemperature: Num, minTemperature: Num,
    rateMax: Num, rateMin: Num, rateVariance: Num,
    infiniteCount: nat, nanCount: nat, dataPoints: nat,
    t85Stats: T85Stats)

  /** mean, max, min and variance of the finite values, all NaN when there are none. */
  function RateSummary(rates: seq<Num>): (r: (Num, Num, Num, Num))
    ensures (r.0.NaN? && r.1.NaN? && r.2.NaN? && r.3.NaN?) <==> forall i | 0 <= i < |rates| :: !rates[i].Fin?
    ensures (exists i | 0 <= i < |rates| :: rates[i].Fin?) ==> r.0.Fin?
    ensures r.0.Fin? ==> r.1.Fin? && r.2.Fin? && r.3.Fin? && r.2.v <= r.0.v <= r.1.v && r.3.v >= 0.0
    ensures r.0.Fin? ==> forall i | 0 <= i < |rates| && rates[i].Fin? :: r.2.v <= rates[i].v <= r.1.v
    ensures r.0.Fin? ==> Fin(r.1.v) in rates && Fin(r.2.v) in rates
    ensures r.0.Fin? ==> FiniteValues(rates) != [] && r.0.v == Mean(FiniteValues(rates)) && r.3.v == Variance(FiniteValues(rates))
  {
    var xs := FiniteValues(rates);
    FiniteValuesEmpty(rates);
    if xs == [] then (NaN, NaN, NaN, NaN)
    else
      assert forall i | 0 <= i < |rates| && rates[i].Fin? :: rates[i].v in xs by {
        forall i | 0 <= i < |rates| && rates[i].Fin? ensures rates[i].v in xs {
          FiniteValuesContains(rates, i);
        }
      }
      (Fin(Mean(xs)), Fin(SeqMax(xs)), Fin(SeqMin(xs)), Fin(Variance(xs)))
  }

  /** Every finite entry appears among the finite values. */
  lemma {:induction false} FiniteValuesContains(xs: seq<Num>, i: nat)
    requires i < |xs| && xs[i].Fin?
    ensures xs[i].v in FiniteValues(xs)
  {
    if i > 0 {
      FiniteValuesContains(xs[1..], i - 1);
    }
  }

  /**
   * One curve: clean the raw columns, smooth the temperatures (the filter is the
   * parameter `smooth`), compute rates, t8/5 (interpolated times come from
   * `interpolate`, applied to the smoothed temperatures and the times), the phase
   * change time, the t8/5 statistics and the rate summary. When cleaning leaves no
   * point, every step is empty or NaN and np.max / np.min of the empty series are NaN.
   */
  function AnalyzeAllCurves(time: seq<Num>, temp: seq<Num>, threshold: real,
                            smooth: seq<real> -> seq<real>,
                            interpolate: (seq<real>, seq<real>, real) -> Num): (r: Analysis)
    requires |time| == |temp|
    requires forall xs :: |smooth(xs)| == |xs|
    requires forall ts, xs, level :: !interpolate(ts, xs, level).Inf?
    ensures r.dataPoints == |CleanData(time, temp).0|
    ensures r.maxTemperature.NaN? <==> CleanData(time, temp).0 == []
    ensures r.minTemperature.NaN? <==> CleanData(time, temp).0 == []
    ensures !r.maxTemperature.Inf? && !r.minTemperature.Inf?
    ensures r.maxTemperature.Fin? ==>
      r.minTemperature.Fin? &&
      forall x | x in smooth(CleanData(time, temp).1) :: r.minTemperature.v <= x <= r.maxTemperature.v
    ensures r.infiniteCount == 0
    ensures r.nanCount <= r.dataPoints
    ensures CleanData(time, temp).0 == [] ==>
      r.t85.NaN? && r.averageRate.NaN? && r.phaseChangeTime.NaN? && r.t85Stats == NoStats && r.nanCount == 0
    ensures r.averageRate.Fin? ==>
      r.rateMin.Fin? && r.rateMax.Fin? && r.rateVariance.Fin? &&
      r.rateMin.v <= r.averageRate.v <= r.rateMax.v && r.rateVariance.v >= 0.0
    ensures r.maxTemperature.Fin? ==>
      r.maxTemperature.v in smooth(CleanData(time, temp).1) && r.minTemperature.v in smooth(CleanData(time, temp).1)
    ensures var cleaned := CleanData(time, temp);
            var s := smooth(cleaned.1);
            var rates := CoolingRate(cleaned.0, s);
            var t800, t500 := interpolate(s, cleaned.0, 800.0), interpolate(s, cleaned.0, 500.0);
            && (r.averageRate, r.rateMax, r.rateMin, r.rateVariance) == RateSummary(rates)
            && r.nanCount == NaNCount(rates)
            && r.phaseChangeTime == PhaseChange(cleaned.0, rates, threshold)
            && r.t85 == FindT85(s, t800, t500)
            && r.t85Stats == CoolingStatsT85(cleaned.0, s, rates, t800, t500)
  {
    var (times, temps) := CleanData(time, temp);
    var smoothed := smooth(temps);
    var rates := CoolingRate(times, smoothed);
    var t800, t500 := interpolate(smoothed, times, 800.0), interpolate(smoothed, times, 500.0);
    var (avg, hi, lo, variance) := RateSummary(rates);
    Analysis(
      FindT85(smoothed, t800, t500), avg, PhaseChange(times, rates, threshold),
      if smoothed == [] then NaN else Fin(SeqMax(smoothed)),
      if smoothed == [] then NaN else Fin(SeqMin(smoothed)),
      hi, lo, variance,
      InfCount(rates), NaNCount(rates), |times|,
      CoolingStatsT85(times, smoothed, rates, t800, t500))
  }
}
