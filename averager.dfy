/** averagePerformanceResults (index.js:54-81): for each of the six metrics,
    sums `numericValue` over the samples whose `scoreDisplayMode` is
    "numeric", counts them, divides, and copies the first sample's unit. */
module Averager {
  import opened Audits
  import Extractor

  /** The TypeErrors the JavaScript raises by reading a property of
      `undefined`: `results[0]` of an empty array (index.js:61), or a sample
      that lacks the metric (index.js:61 for the first sample, 64-66 for
      the `index`-th). */
  datatype Fault = EmptyResults | MissingMetric(metric: Metric, index: nat)

  datatype Result<T> = Success(value: T) | Failure(fault: Fault)

  /** A JavaScript number as the averager can produce it: a real value, or
      NaN (from adding `undefined`, or from 0 / 0). */
  datatype Num = Finite(x: real) | NaN

  /** One entry of the averaged object (index.js:72-75); the unit is
      `undefined` (`None`) when the first sample has none. */
  datatype Averaged = Averaged(averageNumericValue: Num, numericUnit: Option<Field>)

  type AveragedSet = map<Metric, Averaged>

  /** The loop variables `sum` and `count` of index.js:58-59. */
  datatype Totals = Totals(sum: Num, count: nat)

  /** `+` on the averager's numbers: NaN absorbs. */
  function Add(a: Num, b: Num): Num {
    if a.NaN? || b.NaN? then NaN else Finite(a.x + b.x)
  }

  /** What `sum += metricSample.numericValue` adds: the number, or NaN when
      the property is missing (`undefined`) or not a number. */
  function SampleValue(sample: Audit): Num {
    if "numericValue" in sample && sample["numericValue"].Number? then Finite(sample["numericValue"].x) else NaN
  }

  /** `sum / count` (index.js:73): 0 / 0 is NaN. The sum is always 0 when
      the count is 0 (see TallyCountsNumeric), so no other division by zero
      arises. */
  function Divide(sum: Num, count: nat): Num {
    if sum.NaN? || count == 0 then NaN else Finite(sum.x / count as real)
  }

  /** `results[0][metric].numericUnit` (index.js:61). */
  function UnitOf(sample: Audit): Option<Field> {
    if "numericUnit" in sample then Some(sample["numericUnit"]) else None
  }

  /** The body of the inner loop for a sample that has the metric
      (index.js:64-69). */
  function Accumulate(t: Totals, sample: Audit): Totals {
    if IsNumeric(sample) then Totals(Add(t.sum, SampleValue(sample)), t.count + 1) else t
  }

  /** The totals after the inner loop has visited `results` in order, or the
      fault of the first sample that lacks the metric. */
  function Tally(results: seq<MetricSet>, metric: Metric): Result<Totals>
    decreases |results|
  {
    if results == [] then Success(Totals(Finite(0.0), 0))
    else
      match Tally(results[..|results| - 1], metric)
      case Failure(e) => Failure(e)
      case Success(t) =>
        var last := results[|results| - 1];
        if metric in last then Success(Accumulate(t, last[metric]))
        else Failure(MissingMetric(metric, |results| - 1))
  }

  /** One iteration of the outer `forEach` (index.js:58-77). */
  function AverageMetric(results: seq<MetricSet>, metric: Metric): Result<Averaged> {
    if |results| == 0 then Failure(EmptyResults)
    else if metric !in results[0] then Failure(MissingMetric(metric, 0))
    else
      match Tally(results, metric)
      case Failure(e) => Failure(e)
      case Success(t) => Success(Averaged(Divide(t.sum, t.count), UnitOf(results[0][metric])))
  }

  /** The averaged object after the outer loop has visited `ms` in order,
      or the first fault. */
  function AverageMetrics(results: seq<MetricSet>, ms: seq<Metric>): Result<AveragedSet>
    decreases |ms|
  {
    if ms == [] then Success(map[])
    else
      match AverageMetrics(results, ms[..|ms| - 1])
      case Failure(e) => Failure(e)
      case Success(acc) =>
        match AverageMetric(results, ms[|ms| - 1])
        case Failure(e) => Failure(e)
        case Success(a) => Success(acc[ms[|ms| - 1] := a])
  }

  /** index.js:54-81, with the two nested `forEach` loops. */
  method AveragePerformanceResults(results: seq<MetricSet>) returns (r: Result<AveragedSet>)
    ensures r == AverageMetrics(results, Metrics)
  {
    var averaged: AveragedSet := map[];
    var i := 0;
    while i < |Metrics|
      invariant 0 <= i <= |Metrics|
      invariant AverageMetrics(results, Metrics[..i]) == Success(averaged)
    {
      var metric := Metrics[i];
      assert Metrics[..i + 1][..i] == Metrics[..i];
      var sum := Finite(0.0);
      var count := 0;
      if |results| == 0 {
        AverageMetricsFailurePersists(results, Metrics, i + 1);
        return Failure(EmptyResults);
      }
      if metric !in results[0] {
        AverageMetricsFailurePersists(results, Metrics, i + 1);
        return Failure(MissingMetric(metric, 0));
      }
      var numericUnit := UnitOf(results[0][metric]);
      var j := 0;
      while j < |results|
        invariant 0 <= j <= |results|
        invariant Tally(results[..j], metric) == Success(Totals(sum, count))
      {
        assert results[..j + 1][..j] == results[..j];
        var result := results[j];
        if metric !in result {
          TallyFailurePersists(results, metric, j + 1);
          assert results[..|results|] == results;
          AverageMetricsFailurePersists(results, Metrics, i + 1);
          return Failure(MissingMetric(metric, j));
        }
        var metricSample := result[metric];
        if IsNumeric(metricSample) {
          sum := Add(sum, SampleValue(metricSample));
          count := count + 1;
        }
        j := j + 1;
      }
      assert results[..|results|] == results;
      averaged := averaged[metric := Averaged(Divide(sum, count), numericUnit)];
      i := i + 1;
    }
    assert Metrics[..|Metrics|] == Metrics;
    return Success(averaged);
  }

  /** A fault in a prefix of the samples is the fault of the whole run. */
  lemma {:induction false} TallyFailurePersists(results: seq<MetricSet>, metric: Metric, n: nat)
    requires n <= |results| && Tally(results[..n], metric).Failure?
    ensures Tally(results, metric) == Tally(results[..n], metric)
    decreases |results| - n
  {
    if n < |results| {
      assert results[..n + 1][..n] == results[..n];
      TallyFailurePersists(results, metric, n + 1);
    } else {
      assert results[..n] == results;
    }
  }

  /** A fault for an early metric is the fault of the whole average. */
  lemma {:induction false} AverageMetricsFailurePersists(results: seq<MetricSet>, ms: seq<Metric>, n: nat)
    requires n <= |ms| && AverageMetrics(results, ms[..n]).Failure?
    ensures AverageMetrics(results, ms) == AverageMetrics(results, ms[..n])
    decreases |ms| - n
  {
    if n < |ms| {
      assert ms[..n + 1][..n] == ms[..n];
      AverageMetricsFailurePersists(results, ms, n + 1);
    } else {
      assert ms[..n] == ms;
    }
  }

  // Reference definitions: the metric's column, its "numeric" samples, and
  // their sum, written independently of the loop.

  /** Every sample has the metric, so no read of it faults. */
  predicate AllHave(results: seq<MetricSet>, metric: Metric) {
    forall i :: 0 <= i < |results| ==> metric in results[i]
  }

  /** The metric's record in each sample, in order. */
  function Column(results: seq<MetricSet>, metric: Metric): (col: seq<Audit>)
    requires AllHave(results, metric)
    ensures |col| == |results|
    ensures forall i :: 0 <= i < |results| ==> col[i] == results[i][metric]
  {
    seq(|results|, i requires 0 <= i < |results| => results[i][metric])
  }

  /** The samples whose display mode is "numeric", in order. */
  function NumericOnly(samples: seq<Audit>): seq<Audit> {
    if samples == [] then []
    else (if IsNumeric(samples[0]) then [samples[0]] else []) + NumericOnly(samples[1..])
  }

  /** The sum of the samples' values, NaN as soon as one is not a number. */
  function Sum(samples: seq<Audit>): Num {
    if samples == [] then Finite(0.0) else Add(SampleValue(samples[0]), Sum(samples[1..]))
  }

  /** The sum over exactly the "numeric" samples of a metric. */
  function NumericSum(results: seq<MetricSet>, metric: Metric): Num
    requires AllHave(results, metric)
  {
    Sum(NumericOnly(Column(results, metric)))
  }

  /** The number of "numeric" samples of a metric. */
  function NumericCount(results: seq<MetricSet>, metric: Metric): nat
    requires AllHave(results, metric)
  {
    |NumericOnly(Column(results, metric))|
  }

  lemma {:induction false} NumericOnlyAppend(samples: seq<Audit>, x: Audit)
    ensures NumericOnly(samples + [x]) == NumericOnly(samples) + (if IsNumeric(x) then [x] else [])
  {
    if samples != [] {
      assert (samples + [x])[1..] == samples[1..] + [x];
      NumericOnlyAppend(samples[1..], x);
    }
  }

  lemma {:induction false} SumAppend(samples: seq<Audit>, x: Audit)
    ensures Sum(samples + [x]) == Add(Sum(samples), SampleValue(x))
  {
    if samples != [] {
      assert (samples + [x])[1..] == samples[1..] + [x];
      SumAppend(samples[1..], x);
    }
  }

  lemma ColumnAppend(results: seq<MetricSet>, metric: Metric)
    requires |results| > 0 && AllHave(results, metric)
    ensures AllHave(results[..|results| - 1], metric)
    ensures Column(results, metric) == Column(results[..|results| - 1], metric) + [results[|results| - 1][metric]]
  {
  }

  /** With every sample holding the metric, the inner loop's sum is the sum
      over exactly the "numeric" samples and its count is their number, so
      a sample with any other mode adds to neither (index.js:57-70). */
  lemma {:induction false} TallyTotals(results: seq<MetricSet>, metric: Metric)
    requires AllHave(results, metric)
    ensures Tally(results, metric) == Success(Totals(NumericSum(results, metric), NumericCount(results, metric)))
    decreases |results|
  {
    if results != [] {
      var n := |results|;
      var pre := results[..n - 1];
      ColumnAppend(results, metric);
      TallyTotals(pre, metric);
      var col := Column(pre, metric);
      var x := results[n - 1][metric];
      NumericOnlyAppend(col, x);
      var kept := NumericOnly(col);
      if IsNumeric(x) {
        SumAppend(kept, x);
        assert NumericOnly(Column(results, metric)) == kept + [x];
      } else {
        assert NumericOnly(Column(results, metric)) == kept;
      }
    }
  }

  /** The inner loop succeeds only when every sample holds the metric. */
  lemma {:induction false} TallySuccessAllHave(results: seq<MetricSet>, metric: Metric)
    requires Tally(results, metric).Success?
    ensures AllHave(results, metric)
    decreases |results|
  {
    if results != [] {
      var pre := results[..|results| - 1];
      TallySuccessAllHave(pre, metric);
      assert forall i :: 0 <= i < |pre| ==> pre[i] == results[i];
    }
  }

  /** A sample that lacks the metric, with none before it, is where the
      inner loop faults (index.js:64-66). */
  lemma TallyFirstFault(results: seq<MetricSet>, metric: Metric, i: nat)
    requires i < |results| && metric !in results[i] && AllHave(results[..i], metric)
    ensures Tally(results, metric) == Failure(MissingMetric(metric, i))
  {
    TallyTotals(results[..i], metric);
    assert results[..i + 1][..i] == results[..i];
    assert results[..i + 1][i] == results[i];
    TallyFailurePersists(results, metric, i + 1);
  }

  /** The inner loop faults exactly when some sample lacks the metric, and
      then at the first such sample; otherwise it yields the numeric sum
      and count. */
  lemma TallyCountsNumeric(results: seq<MetricSet>, metric: Metric)
    ensures Tally(results, metric).Success? <==> AllHave(results, metric)
    ensures AllHave(results, metric) ==>
      Tally(results, metric) == Success(Totals(NumericSum(results, metric), NumericCount(results, metric)))
    ensures forall i :: 0 <= i < |results| && metric !in results[i] && AllHave(results[..i], metric) ==>
      Tally(results, metric) == Failure(MissingMetric(metric, i))
  {
    if AllHave(results, metric) {
      TallyTotals(results, metric);
    } else if Tally(results, metric).Success? {
      TallySuccessAllHave(results, metric);
    }
    forall i | 0 <= i < |results| && metric !in results[i] && AllHave(results[..i], metric)
      ensures Tally(results, metric) == Failure(MissingMetric(metric, i))
    {
      TallyFirstFault(results, metric, i);
    }
  }

  /** One metric's average: a fault for an empty input or a sample missing
      the metric; otherwise the sum over the "numeric" samples divided by
      their number, with the first sample's unit whatever its mode
      (index.js:57-77). */
  lemma AverageMetricMeans(results: seq<MetricSet>, metric: Metric)
    ensures |results| == 0 ==> AverageMetric(results, metric) == Failure(EmptyResults)
    ensures |results| > 0 ==> (AverageMetric(results, metric).Success? <==> AllHave(results, metric))
    ensures AverageMetric(results, metric).Success? ==>
      && AllHave(results, metric)
      && AverageMetric(results, metric).value ==
         Averaged(Divide(NumericSum(results, metric), NumericCount(results, metric)), UnitOf(results[0][metric]))
  {
    TallyCountsNumeric(results, metric);
  }

  /** The outer loop: it succeeds exactly when every metric does, and then
      holds one entry per visited metric. */
  lemma {:induction false} AverageMetricsAt(results: seq<MetricSet>, ms: seq<Metric>)
    ensures AverageMetrics(results, ms).Success? <==>
      forall m :: m in ms ==> AverageMetric(results, m).Success?
    ensures AverageMetrics(results, ms).Success? ==>
      forall m :: (m in AverageMetrics(results, ms).value <==> m in ms)
        && (m in ms ==> AverageMetrics(results, ms).value[m] == AverageMetric(results, m).value)
    decreases |ms|
  {
    if ms != [] {
      var pre := ms[..|ms| - 1];
      AverageMetricsAt(results, pre);
      assert ms == pre + [ms[|ms| - 1]];
      assert forall m :: m in ms <==> m in pre || m == ms[|ms| - 1];
    }
  }

  /** Every sample has every metric. */
  predicate Complete(results: seq<MetricSet>) {
    forall m: Metric :: AllHave(results, m)
  }

  /** The whole averager: it faults exactly when the input is empty or some
      sample lacks some metric; otherwise the averaged object has exactly
      the six metric keys and each entry is that metric's average
      (index.js:54-81). */
  lemma AverageOutcome(results: seq<MetricSet>)
    ensures AverageMetrics(results, Metrics).Success? <==> |results| > 0 && Complete(results)
    ensures AverageMetrics(results, Metrics).Success? ==>
      forall m: Metric ::
        && m in AverageMetrics(results, Metrics).value
        && AverageMetric(results, m).Success?
        && AverageMetrics(results, Metrics).value[m] == AverageMetric(results, m).value
  {
    MetricsComplete();
    AverageMetricsAt(results, Metrics);
    forall m: Metric
      ensures AverageMetric(results, m).Success? <==> |results| > 0 && AllHave(results, m)
    {
      AverageMetricMeans(results, m);
    }
  }

  /** An empty input faults (at `results[0]`, index.js:61) rather than
      producing NaN averages. */
  lemma AverageOfEmpty()
    ensures AverageMetrics([], Metrics) == Failure(EmptyResults)
  {
    AverageMetricsFailurePersists([], Metrics, 1);
  }

  lemma {:induction false} AllNumericKept(samples: seq<Audit>)
    requires forall i :: 0 <= i < |samples| ==> IsNumeric(samples[i])
    ensures NumericOnly(samples) == samples
  {
    if samples != [] {
      assert IsNumeric(samples[0]);
      AllNumericKept(samples[1..]);
    }
  }

  lemma {:induction false} NoneNumericDropped(samples: seq<Audit>)
    requires forall i :: 0 <= i < |samples| ==> !IsNumeric(samples[i])
    ensures NumericOnly(samples) == []
  {
    if samples != [] {
      assert !IsNumeric(samples[0]);
      NoneNumericDropped(samples[1..]);
    }
  }

  /** When every sample of a metric is "numeric", every sample is counted
      and the average is the arithmetic mean over all samples, with the
      first sample's unit. */
  lemma AverageAllNumeric(results: seq<MetricSet>, metric: Metric)
    requires |results| > 0 && AllHave(results, metric)
    requires forall i :: 0 <= i < |results| ==> IsNumeric(results[i][metric])
    ensures NumericCount(results, metric) == |results|
    ensures AverageMetric(results, metric) ==
      Success(Averaged(Divide(Sum(Column(results, metric)), |results|), UnitOf(results[0][metric])))
  {
    AverageMetricMeans(results, metric);
    AllNumericKept(Column(results, metric));
  }

  /** When no sample of a metric is "numeric", nothing is counted and the
      average is 0 / 0, that is NaN; the unit is still the first sample's. */
  lemma AverageNoneNumeric(results: seq<MetricSet>, metric: Metric)
    requires |results| > 0 && AllHave(results, metric)
    requires forall i :: 0 <= i < |results| ==> !IsNumeric(results[i][metric])
    ensures NumericCount(results, metric) == 0 && NumericSum(results, metric) == Finite(0.0)
    ensures AverageMetric(results, metric) == Success(Averaged(NaN, UnitOf(results[0][metric])))
  {
    AverageMetricMeans(results, metric);
    NoneNumericDropped(Column(results, metric));
  }

  /** The extractor drops `scoreDisplayMode`, so averaging its output counts
      no sample at all: every metric either faults or averages to NaN. */
  lemma AverageOfParsed(reports: seq<Report>)
    ensures var results := seq(|reports|, i requires 0 <= i < |reports| => Extractor.ParsePerformanceResults(reports[i]));
      forall m :: AllHave(results, m) ==> NumericCount(results, m) == 0
    ensures var results := seq(|reports|, i requires 0 <= i < |reports| => Extractor.ParsePerformanceResults(reports[i]));
      AverageMetrics(results, Metrics).Success? ==>
        forall m :: m in AverageMetrics(results, Metrics).value ==>
          AverageMetrics(results, Metrics).value[m].averageNumericValue == NaN
  {
    var results := seq(|reports|, i requires 0 <= i < |reports| => Extractor.ParsePerformanceResults(reports[i]));
    forall m | AllHave(results, m)
      ensures NumericCount(results, m) == 0
    {
      forall i | 0 <= i < |results|
        ensures !IsNumeric(Column(results, m)[i])
      {
        assert results[i] == Extractor.ParsePerformanceResults(reports[i]);
        Extractor.ParseDropsDisplayMode(reports[i]);
      }
      NoneNumericDropped(Column(results, m));
    }
    AverageOutcome(results);
    if AverageMetrics(results, Metrics).Success? {
      forall m: Metric
        ensures AverageMetrics(results, Metrics).value[m].averageNumericValue == NaN
      {
        assert AllHave(results, m);
        forall i | 0 <= i < |results|
          ensures !IsNumeric(results[i][m])
        {
          assert results[i] == Extractor.ParsePerformanceResults(reports[i]);
          Extractor.ParseDropsDisplayMode(reports[i]);
        }
        AverageNoneNumeric(results, m);
      }
    }
  }
}
