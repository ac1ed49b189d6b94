/** Samples and one-window aggregation: the pure half of edge/edge_monitor/processing.py,
    over the real numbers. math.sqrt is a parameter known only by what a square root is. */
module Sampling {
  import opened Prelude

  type RealFunction = real -> real

  ghost predicate IsSqrt(sqrt: RealFunction) {
    forall x: real :: x >= 0.0 ==> sqrt(x) >= 0.0 && sqrt(x) * sqrt(x) == x
  }

  datatype SensorSample = SensorSample(tiltX: real, tiltY: real, ax: real, ay: real, az: real)

  datatype PairedSample = PairedSample(measuredAt: Stamp, top: SensorSample, bottom: SensorSample)

  datatype SensorSummary = SensorSummary(tiltX: real, tiltY: real, vibrationRms: real, peakAcceleration: real)

  datatype WindowSummary = WindowSummary(measuredAt: Stamp, sampleCount: nat, top: SensorSummary, bottom: SensorSummary)

  datatype IncompleteWindow = IncompleteWindow(expected: nat, actual: nat, reason: string)

  function Square(x: real): real { x * x }

  function Abs(x: real): real { if x < 0.0 then -x else x }

  function Magnitude(sqrt: RealFunction, s: SensorSample): real {
    sqrt(Square(s.ax) + Square(s.ay) + Square(s.az))
  }

  function Sum<T>(f: T -> real, xs: seq<T>): real {
    if xs == [] then 0.0 else Sum(f, xs[..|xs| - 1]) + f(xs[|xs| - 1])
  }

  function Largest<T>(f: T -> real, xs: seq<T>): real
    requires xs != []
  {
    var last := f(xs[|xs| - 1]);
    if |xs| == 1 then last
    else var rest := Largest(f, xs[..|xs| - 1]); if rest < last then last else rest
  }

  function Mean<T>(f: T -> real, xs: seq<T>): real
    requires xs != []
  {
    Sum(f, xs) / |xs| as real
  }

  function Summarize(sqrt: RealFunction, xs: seq<SensorSample>): SensorSummary
    requires xs != []
  {
    SensorSummary(
      Mean((s: SensorSample) => s.tiltX, xs),
      Mean((s: SensorSample) => s.tiltY, xs),
      sqrt(Mean(MagnitudeSquare(sqrt), xs)),
      Largest(MagnitudeOf(sqrt), xs))
  }

  function MagnitudeOf(sqrt: RealFunction): SensorSample -> real {
    s => Magnitude(sqrt, s)
  }

  function MagnitudeSquare(sqrt: RealFunction): SensorSample -> real {
    s => Square(Magnitude(sqrt, s))
  }

  function Tops(xs: seq<PairedSample>): (r: seq<SensorSample>)
    ensures |r| == |xs| && forall i :: 0 <= i < |xs| ==> r[i] == xs[i].top
  {
    seq(|xs|, i requires 0 <= i < |xs| => xs[i].top)
  }

  function Bottoms(xs: seq<PairedSample>): (r: seq<SensorSample>)
    ensures |r| == |xs| && forall i :: 0 <= i < |xs| ==> r[i] == xs[i].bottom
  {
    seq(|xs|, i requires 0 <= i < |xs| => xs[i].bottom)
  }

  function AggregateWindow(sqrt: RealFunction, xs: seq<PairedSample>, expected: nat)
    : Result<WindowSummary, IncompleteWindow>
    requires expected > 0
  {
    if |xs| != expected then Err(IncompleteWindow(expected, |xs|, "sample_count_mismatch"))
    else Ok(WindowSummary(xs[|xs| - 1].measuredAt, |xs|, Summarize(sqrt, Tops(xs)), Summarize(sqrt, Bottoms(xs))))
  }

  // ----- sums, maxima, means -----

  lemma {:induction false} SumBounds<T>(f: T -> real, xs: seq<T>, lo: real, hi: real)
    requires forall i :: 0 <= i < |xs| ==> lo <= f(xs[i]) <= hi
    ensures lo * |xs| as real <= Sum(f, xs) <= hi * |xs| as real
  {
    if xs != [] {
      SumBounds(f, xs[..|xs| - 1], lo, hi);
    }
  }

  lemma {:induction false} SumDominates<T>(f: T -> real, xs: seq<T>, k: nat)
    requires k < |xs|
    requires forall i :: 0 <= i < |xs| ==> f(xs[i]) >= 0.0
    ensures f(xs[k]) <= Sum(f, xs)
  {
    var front := xs[..|xs| - 1];
    SumBounds(f, front, 0.0, if front == [] then 0.0 else Largest(f, front)) by {
      if front != [] { LargestIsMax(f, front); }
    }
    if k < |front| {
      SumDominates(f, front, k);
    }
  }

  lemma {:induction false} LargestIsMax<T>(f: T -> real, xs: seq<T>)
    requires xs != []
    ensures forall i :: 0 <= i < |xs| ==> f(xs[i]) <= Largest(f, xs)
    ensures exists i :: 0 <= i < |xs| && f(xs[i]) == Largest(f, xs)
  {
    if |xs| == 1 {
      assert f(xs[0]) == Largest(f, xs);
    } else {
      var front := xs[..|xs| - 1];
      LargestIsMax(f, front);
      var k :| 0 <= k < |front| && f(front[k]) == Largest(f, front);
      assert f(xs[k]) == Largest(f, front);
      assert f(xs[|xs| - 1]) <= Largest(f, xs);
    }
  }

  lemma {:induction false} SumOfDifferences<T, U>(f: U -> real, ys: seq<U>, zs: seq<U>, d: T -> real, xs: seq<T>)
    requires |xs| == |ys| == |zs| && forall i :: 0 <= i < |xs| ==> d(xs[i]) == f(ys[i]) - f(zs[i])
    ensures Sum(d, xs) == Sum(f, ys) - Sum(f, zs)
  {
    if xs != [] {
      SumOfDifferences(f, ys[..|ys| - 1], zs[..|zs| - 1], d, xs[..|xs| - 1]);
    }
  }

  lemma Scale(k: real, a: real, b: real)
    requires k >= 0.0 && a <= b
    ensures k * a <= k * b
  {}

  lemma SquareMonotone(a: real, b: real)
    requires a >= 0.0 && b >= 0.0
    ensures Square(a) <= Square(b) <==> a <= b
  {
    if a <= b {
      Scale(a, a, b);
      Scale(b, a, b);
    } else {
      assert a * a > b * b by {
        calc { b * b; <= b * a; < a * a; }
      }
    }
  }

  // ----- what a summary says of its samples -----

  /** The square of the acceleration. */
  function Energy(s: SensorSample): real {
    s.ax * s.ax + s.ay * s.ay + s.az * s.az
  }

  lemma MagnitudeMeans(sqrt: RealFunction, s: SensorSample)
    requires IsSqrt(sqrt)
    ensures Magnitude(sqrt, s) >= 0.0 && Magnitude(sqrt, s) * Magnitude(sqrt, s) == Energy(s)
  {
    MagnitudeNonNegative(sqrt, s);
    assert Square(s.ax) >= 0.0 && Square(s.ay) >= 0.0 && Square(s.az) >= 0.0;
  }

  /** The total of a measure over samples, counted from the front. */
  function Total(f: SensorSample -> real, xs: seq<SensorSample>): real {
    if xs == [] then 0.0 else f(xs[0]) + Total(f, xs[1..])
  }

  lemma {:induction false} TotalOneMore(f: SensorSample -> real, xs: seq<SensorSample>, x: SensorSample)
    ensures Total(f, xs + [x]) == Total(f, xs) + f(x)
  {
    if xs == [] {
      assert [x][1..] == [] && xs + [x] == [x];
    } else {
      assert (xs + [x])[1..] == xs[1..] + [x];
      TotalOneMore(f, xs[1..], x);
    }
  }

  lemma {:induction false} SumIsTotal(f: SensorSample -> real, g: SensorSample -> real, xs: seq<SensorSample>)
    requires forall s :: f(s) == g(s)
    ensures Sum(f, xs) == Total(g, xs)
  {
    if xs != [] {
      var front := xs[..|xs| - 1];
      SumIsTotal(f, g, front);
      TotalOneMore(g, front, xs[|xs| - 1]);
      assert front + [xs[|xs| - 1]] == xs;
    }
  }

  lemma TimesSize(total: real, n: nat)
    requires n > 0
    ensures total / n as real * n as real == total
  {}

  /** The tilts are the means of the samples' tilts, the squared rms is the mean of their energies, and the squared
      peak is the largest energy; rms and peak are not negative. */
  ghost predicate Describes(s: SensorSummary, xs: seq<SensorSample>) {
    var n := |xs| as real;
    && s.tiltX * n == Total((x: SensorSample) => x.tiltX, xs)
    && s.tiltY * n == Total((x: SensorSample) => x.tiltY, xs)
    && s.vibrationRms >= 0.0 && s.vibrationRms * s.vibrationRms * n == Total(Energy, xs)
    && s.peakAcceleration >= 0.0
    && (forall i :: 0 <= i < |xs| ==> Energy(xs[i]) <= s.peakAcceleration * s.peakAcceleration)
    && (exists i :: 0 <= i < |xs| && Energy(xs[i]) == s.peakAcceleration * s.peakAcceleration)
  }

  lemma SummaryDescribes(sqrt: RealFunction, xs: seq<SensorSample>)
    requires IsSqrt(sqrt) && xs != []
    ensures Describes(Summarize(sqrt, xs), xs)
  {
    var s := Summarize(sqrt, xs);
    TiltsDescribe(sqrt, xs);
    RmsDescribes(sqrt, xs);
    PeakDescribes(sqrt, xs);
    hide Summarize, Total, Energy;
  }

  lemma TiltsDescribe(sqrt: RealFunction, xs: seq<SensorSample>)
    requires xs != []
    ensures var s := Summarize(sqrt, xs);
            && s.tiltX * |xs| as real == Total((x: SensorSample) => x.tiltX, xs)
            && s.tiltY * |xs| as real == Total((x: SensorSample) => x.tiltY, xs)
  {
    hide Sum, Total;
    var x, y := (s: SensorSample) => s.tiltX, (s: SensorSample) => s.tiltY;
    SumIsTotal(x, (s: SensorSample) => s.tiltX, xs);
    SumIsTotal(y, (s: SensorSample) => s.tiltY, xs);
    TimesSize(Sum(x, xs), |xs|);
    TimesSize(Sum(y, xs), |xs|);
  }

  lemma RmsDescribes(sqrt: RealFunction, xs: seq<SensorSample>)
    requires IsSqrt(sqrt) && xs != []
    ensures var rms := Summarize(sqrt, xs).vibrationRms;
            rms >= 0.0 && rms * rms * |xs| as real == Total(Energy, xs)
  {
    hide Energy, Total, Sum, IsSqrt, MagnitudeSquare;
    var g := MagnitudeSquare(sqrt);
    forall s ensures g(s) == Energy(s) { SquareIsEnergy(sqrt, s); }
    SumIsTotal(g, Energy, xs);
    EnergiesNotNegative(xs);
    RootOfMean(sqrt, Sum(g, xs), |xs|);
  }

  lemma SquareIsEnergy(sqrt: RealFunction, s: SensorSample)
    requires IsSqrt(sqrt)
    ensures MagnitudeSquare(sqrt)(s) == Energy(s)
  {
    MagnitudeMeans(sqrt, s);
  }

  lemma RootOfMean(sqrt: RealFunction, total: real, n: nat)
    requires IsSqrt(sqrt) && total >= 0.0 && n > 0
    ensures var root := sqrt(total / n as real); root >= 0.0 && root * root * n as real == total
  {
    var mean := total / n as real;
    TimesSize(total, n);
    NotNegative(total, n);
    assert sqrt(mean) * sqrt(mean) == mean;
  }

  lemma NotNegative(total: real, n: nat)
    requires total >= 0.0 && n > 0
    ensures total / n as real >= 0.0
  {}

  lemma {:induction false} EnergiesNotNegative(xs: seq<SensorSample>)
    ensures Total(Energy, xs) >= 0.0
  {
    if xs != [] {
      EnergiesNotNegative(xs[1..]);
      SquaresNotNegative(xs[0]);
    }
  }

  lemma SquaresNotNegative(s: SensorSample)
    ensures Energy(s) >= 0.0
  {
    assert Square(s.ax) >= 0.0 && Square(s.ay) >= 0.0 && Square(s.az) >= 0.0;
  }

  lemma PeakDescribes(sqrt: RealFunction, xs: seq<SensorSample>)
    requires IsSqrt(sqrt) && xs != []
    ensures var peak := Summarize(sqrt, xs).peakAcceleration;
            && peak >= 0.0 && (forall i :: 0 <= i < |xs| ==> Energy(xs[i]) <= peak * peak)
            && (exists i :: 0 <= i < |xs| && Energy(xs[i]) == peak * peak)
  {
    hide Summarize, Magnitude, Energy, IsSqrt;
    PeakFacts(sqrt, xs);
    var peak := Summarize(sqrt, xs).peakAcceleration;
    var k :| 0 <= k < |xs| && Magnitude(sqrt, xs[k]) == peak;
    MagnitudeMeans(sqrt, xs[k]);
    forall i | 0 <= i < |xs| ensures Energy(xs[i]) <= peak * peak {
      EnergyUnder(sqrt, xs[i], peak);
    }
  }

  lemma EnergyUnder(sqrt: RealFunction, s: SensorSample, peak: real)
    requires IsSqrt(sqrt) && Magnitude(sqrt, s) <= peak
    ensures Energy(s) <= peak * peak
  {
    hide Energy, Magnitude, IsSqrt;
    MagnitudeMeans(sqrt, s);
    SquareMonotone(Magnitude(sqrt, s), peak);
  }

  /** A window can be aggregated exactly if it has the expected size, and then the summary has its size and the time
      of its last sample, and describes the samples of either sensor. */
  lemma WindowDescribes(sqrt: RealFunction, xs: seq<PairedSample>, expected: nat)
    requires IsSqrt(sqrt) && expected > 0
    ensures match AggregateWindow(sqrt, xs, expected)
            case Ok(w) =>
              && |xs| == expected && w.sampleCount == expected && w.measuredAt == xs[|xs| - 1].measuredAt
              && Describes(w.top, Tops(xs)) && Describes(w.bottom, Bottoms(xs))
            case Err(e) => |xs| != expected && e == IncompleteWindow(expected, |xs|, "sample_count_mismatch")
  {
    hide Describes, Summarize;
    if |xs| == expected {
      SummaryDescribes(sqrt, Tops(xs));
      SummaryDescribes(sqrt, Bottoms(xs));
    }
  }

  // ----- vibration: rms and peak -----

  lemma PeakFacts(sqrt: RealFunction, xs: seq<SensorSample>)
    requires IsSqrt(sqrt) && xs != []
    ensures var peak := Summarize(sqrt, xs).peakAcceleration;
            && (forall i :: 0 <= i < |xs| ==> 0.0 <= Magnitude(sqrt, xs[i]) <= peak)
            && (exists i :: 0 <= i < |xs| && Magnitude(sqrt, xs[i]) == peak)
  {
    var f := MagnitudeOf(sqrt);
    LargestIsMax(f, xs);
    forall i | 0 <= i < |xs| ensures 0.0 <= Magnitude(sqrt, xs[i]) <= Largest(f, xs) {
      assert f(xs[i]) <= Largest(f, xs);
      MagnitudeNonNegative(sqrt, xs[i]);
    }
    var k :| 0 <= k < |xs| && f(xs[k]) == Largest(f, xs);
    assert Magnitude(sqrt, xs[k]) == Largest(f, xs);
  }

  lemma SquaresBetween<T>(f: T -> real, g: T -> real, xs: seq<T>, k: nat)
    requires k < |xs|
    requires forall i :: 0 <= i < |xs| ==> 0.0 <= f(xs[i]) <= f(xs[k]) && g(xs[i]) == Square(f(xs[i]))
    ensures 0.0 <= Square(f(xs[k])) <= Sum(g, xs) <= Square(f(xs[k])) * |xs| as real
  {
    var top := Square(f(xs[k]));
    forall i | 0 <= i < |xs| ensures 0.0 <= g(xs[i]) <= top {
      SquareMonotone(f(xs[i]), f(xs[k]));
      SquareMonotone(0.0, f(xs[i]));
    }
    SumBounds(g, xs, 0.0, top);
    SumDominates(g, xs, k);
  }

  /** rms^2 <= peak^2 <= n * rms^2, so the rms never exceeds the peak. */
  lemma RmsAndPeak(sqrt: RealFunction, xs: seq<SensorSample>)
    requires IsSqrt(sqrt) && xs != []
    ensures var s := Summarize(sqrt, xs);
            && 0.0 <= s.vibrationRms <= s.peakAcceleration
            && Square(s.vibrationRms) <= Square(s.peakAcceleration) <= |xs| as real * Square(s.vibrationRms)
  {
    var f, g := MagnitudeOf(sqrt), MagnitudeSquare(sqrt);
    forall i | 0 <= i < |xs| ensures 0.0 <= f(xs[i]) {
      MagnitudeNonNegative(sqrt, xs[i]);
    }
    TotalBetween(f, g, xs);
    RmsFromTotal(sqrt, Sum(g, xs), Largest(f, xs), |xs|);
  }

  lemma TotalBetween<T>(f: T -> real, g: T -> real, xs: seq<T>)
    requires xs != [] && forall i :: 0 <= i < |xs| ==> 0.0 <= f(xs[i]) && g(xs[i]) == Square(f(xs[i]))
    ensures var peak := Largest(f, xs);
            0.0 <= peak && Square(peak) <= Sum(g, xs) <= Square(peak) * |xs| as real
  {
    LargestIsMax(f, xs);
    var k :| 0 <= k < |xs| && f(xs[k]) == Largest(f, xs);
    SquaresBetween(f, g, xs, k);
  }

  lemma RmsFromTotal(sqrt: RealFunction, total: real, peak: real, n: nat)
    requires IsSqrt(sqrt) && n > 0 && 0.0 <= peak
    requires Square(peak) <= total <= Square(peak) * n as real
    ensures var rms := sqrt(total / n as real);
            0.0 <= rms <= peak && Square(rms) <= Square(peak) <= n as real * Square(rms)
  {
    SquareMonotone(0.0, peak);
    MeanBetween(total, Square(peak), n);
    RootBelow(sqrt, total / n as real, peak);
  }

  lemma RootBelow(sqrt: RealFunction, x: real, bound: real)
    requires IsSqrt(sqrt) && 0.0 <= x <= Square(bound) && 0.0 <= bound
    ensures 0.0 <= sqrt(x) <= bound && Square(sqrt(x)) == x
  {
    SquareMonotone(sqrt(x), bound);
  }

  lemma MagnitudeNonNegative(sqrt: RealFunction, s: SensorSample)
    requires IsSqrt(sqrt)
    ensures Magnitude(sqrt, s) >= 0.0
  {
    assert Square(s.ax) >= 0.0 && Square(s.ay) >= 0.0 && Square(s.az) >= 0.0;
  }

  lemma MeanBetween(total: real, top: real, n: nat)
    requires n > 0 && 0.0 <= total && top <= total <= top * n as real
    ensures 0.0 <= total / n as real <= top <= n as real * (total / n as real)
  {}

  // ----- tilt: the difference of the means is the mean of the differences -----

  lemma RelativeTiltIsMeanDifference(sqrt: RealFunction, xs: seq<PairedSample>)
    requires xs != []
    ensures var top, bottom := Summarize(sqrt, Tops(xs)), Summarize(sqrt, Bottoms(xs));
            && top.tiltX - bottom.tiltX == Mean((p: PairedSample) => p.top.tiltX - p.bottom.tiltX, xs)
            && top.tiltY - bottom.tiltY == Mean((p: PairedSample) => p.top.tiltY - p.bottom.tiltY, xs)
  {
    DifferenceOfMeans((s: SensorSample) => s.tiltX, xs, (p: PairedSample) => p.top.tiltX - p.bottom.tiltX);
    DifferenceOfMeans((s: SensorSample) => s.tiltY, xs, (p: PairedSample) => p.top.tiltY - p.bottom.tiltY);
  }

  lemma DifferenceOfMeans(f: SensorSample -> real, xs: seq<PairedSample>, d: PairedSample -> real)
    requires xs != []
    requires forall p: PairedSample :: d(p) == f(p.top) - f(p.bottom)
    ensures Mean(f, Tops(xs)) - Mean(f, Bottoms(xs)) == Mean(d, xs)
  {
    SumOfDifferences(f, Tops(xs), Bottoms(xs), d, xs);
    SubtractQuotients(Sum(f, Tops(xs)), Sum(f, Bottoms(xs)), |xs| as real);
  }

  lemma SubtractQuotients(a: real, b: real, n: real)
    requires n > 0.0
    ensures a / n - b / n == (a - b) / n
  {}

  lemma MeanWithin<T>(f: T -> real, xs: seq<T>, limit: real)
    requires xs != [] && forall i :: 0 <= i < |xs| ==> Abs(f(xs[i])) < limit
    ensures Abs(Mean(f, xs)) < limit
  {
    var lo, hi := Extremes(f, xs, limit);
    SumBounds(f, xs, lo, hi);
    MeanInside(Sum(f, xs), lo, hi, |xs|);
  }

  lemma Extremes<T>(f: T -> real, xs: seq<T>, limit: real) returns (lo: real, hi: real)
    requires xs != [] && forall i :: 0 <= i < |xs| ==> Abs(f(xs[i])) < limit
    ensures -limit < lo && hi < limit
    ensures forall i :: 0 <= i < |xs| ==> lo <= f(xs[i]) <= hi
  {
    var negated := (x: T) => -f(x);
    LargestIsMax(f, xs);
    LargestIsMax(negated, xs);
    hi, lo := Largest(f, xs), -Largest(negated, xs);
    forall i | 0 <= i < |xs| ensures lo <= f(xs[i]) <= hi {
      assert negated(xs[i]) <= Largest(negated, xs);
    }
  }

  lemma MeanInside(total: real, lo: real, hi: real, n: nat)
    requires n > 0 && lo * n as real <= total <= hi * n as real
    ensures lo <= total / n as real <= hi
  {}
}
