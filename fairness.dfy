/** `calc_fairness_metrics`: per regional office, the share of its error
    records above the overall 75th percentile of mean actual cost, its
    relative error rate (mean MAE over mean actual), and the spread of those
    rates across offices; then an ANOVA and two Kruskal-Wallis tests across
    the offices' MAE and bias values, with a neutral result when a test fails. */
module Fairness {
  import opened Wrappers
  import opened Stats
  import opened Dataset
  import opened Backtest

  /** IEEE subtraction. */
  function Subtract(a: Rate, b: Rate): Rate
  {
    match (a, b)
    case (NaN, _) => NaN
    case (_, NaN) => NaN
    case (Finite(x), Finite(y)) => Finite(x - y)
    case (PosInf, PosInf) => NaN
    case (NegInf, NegInf) => NaN
    case (PosInf, _) => PosInf
    case (NegInf, _) => NegInf
    case (Finite(_), PosInf) => NegInf
    case (Finite(_), NegInf) => PosInf
  }

  /** The order of the extended reals, on values other than NaN. */
  predicate RateLe(a: Rate, b: Rate)
  {
    a == NegInf || b == PosInf || (a.Finite? && b.Finite? && a.value <= b.value)
  }

  /** `Series.max()` over values none of which is NaN. */
  function RateMax(xs: seq<Rate>): Rate
    requires |xs| > 0
  {
    if |xs| == 1 then xs[0]
    else
      var m := RateMax(xs[1..]);
      if RateLe(xs[0], m) then m else xs[0]
  }

  function RateMin(xs: seq<Rate>): Rate
    requires |xs| > 0
  {
    if |xs| == 1 then xs[0]
    else
      var m := RateMin(xs[1..]);
      if RateLe(m, xs[0]) then m else xs[0]
  }

  ghost predicate NoNaN(xs: seq<Rate>)
  {
    forall i :: 0 <= i < |xs| ==> xs[i] != NaN
  }

  lemma {:induction false} RateMaxMinBounds(xs: seq<Rate>)
    requires |xs| > 0 && NoNaN(xs)
    ensures RateMax(xs) in xs && RateMin(xs) in xs
    ensures forall i :: 0 <= i < |xs| ==> RateLe(xs[i], RateMax(xs)) && RateLe(RateMin(xs), xs[i])
  {
    if |xs| > 1 {
      RateMaxMinBounds(xs[1..]);
      assert forall i :: 1 <= i < |xs| ==> xs[i] == xs[1..][i - 1];
    }
  }

  // ---------------------------------------------------------------------------
  // The parity table
  // ---------------------------------------------------------------------------

  /** One row of `parity_df`. */
  datatype RegionParity = RegionParity(
    region: string, highCostRate: real, relativeErrorRate: Rate, maeMean: real, biasMean: real)

  function MeanActuals(errors: seq<ErrorRecord>): (r: seq<real>)
    ensures |r| == |errors|
  {
    seq(|errors|, i requires 0 <= i < |errors| => errors[i].meanActual)
  }

  function Maes(errors: seq<ErrorRecord>): (r: seq<real>)
    ensures |r| == |errors|
  {
    seq(|errors|, i requires 0 <= i < |errors| => errors[i].mae)
  }

  function Biases(errors: seq<ErrorRecord>): (r: seq<real>)
    ensures |r| == |errors|
  {
    seq(|errors|, i requires 0 <= i < |errors| => errors[i].bias)
  }

  function ErrorRegions(errors: seq<ErrorRecord>): (r: seq<string>)
    ensures |r| == |errors|
  {
    seq(|errors|, i requires 0 <= i < |errors| => errors[i].region)
  }

  /** `df_errors['Mean_Actual'].quantile(0.75)`. */
  function CostThreshold(errors: seq<ErrorRecord>): real
    requires |errors| > 0
  {
    Quantile(MeanActuals(errors), 0.75).value
  }

  /** How many of the values reach the threshold. */
  function CountAtLeast(xs: seq<real>, threshold: real): (n: nat)
    ensures n <= |xs|
  {
    if xs == [] then 0
    else (if xs[0] >= threshold then 1 else 0) + CountAtLeast(xs[1..], threshold)
  }

  /** `(values >= threshold).mean()`: the share of the values reaching the threshold. */
  function ShareAtLeast(xs: seq<real>, threshold: real): real
    requires |xs| > 0
  {
    CountAtLeast(xs, threshold) as real / |xs| as real
  }

  /** The rows of one office. */
  function RegionData(errors: seq<ErrorRecord>, region: string): seq<ErrorRecord>
  {
    Filter(errors, (e: ErrorRecord) => e.region == region)
  }

  /** The parity row of one office, from its (non-empty) rows. */
  function ParityRow(region: string, data: seq<ErrorRecord>, threshold: real): RegionParity
    requires |data| > 0
  {
    RegionParity(
      region,
      ShareAtLeast(MeanActuals(data), threshold),
      Divide(Mean(Maes(data)), Mean(MeanActuals(data))),
      Mean(Maes(data)),
      Mean(Biases(data)))
  }

  lemma RegionDataNonEmpty(errors: seq<ErrorRecord>, region: string)
    requires region in ErrorRegions(errors)
    ensures |RegionData(errors, region)| > 0
  {
    var i :| 0 <= i < |errors| && ErrorRegions(errors)[i] == region;
    FilterSelects(errors, (e: ErrorRecord) => e.region == region);
    assert errors[i] in RegionData(errors, region);
  }

  /** An office's rows are the rows of the frame that belong to that office,
      each as often as it occurs there. */
  lemma RegionDataMembers(errors: seq<ErrorRecord>, region: string)
    ensures var data := RegionData(errors, region);
      (forall k :: 0 <= k < |data| ==> data[k] in errors && data[k].region == region) &&
      (forall x :: multiset(data)[x] == if x.region == region then multiset(errors)[x] else 0)
  {
    var data := RegionData(errors, region);
    FilterSelects(errors, (e: ErrorRecord) => e.region == region);
    forall k | 0 <= k < |data| ensures data[k] in errors {
      assert data[k] in multiset(data);
    }
  }

  /** The offices of the frame, in order of first appearance. */
  function Offices(errors: seq<ErrorRecord>): seq<string>
  {
    Distinct(ErrorRegions(errors))
  }

  function RegionRow(errors: seq<ErrorRecord>, region: string, threshold: real): RegionParity
    requires region in ErrorRegions(errors)
  {
    RegionDataNonEmpty(errors, region);
    ParityRow(region, RegionData(errors, region), threshold)
  }

  function ParityRows(errors: seq<ErrorRecord>, regions: seq<string>, threshold: real): (rows: seq<RegionParity>)
    requires forall i :: 0 <= i < |regions| ==> regions[i] in ErrorRegions(errors)
    ensures |rows| == |regions|
  {
    seq(|regions|, i requires 0 <= i < |regions| => RegionRow(errors, regions[i], threshold))
  }

  function Rates(rows: seq<RegionParity>): (r: seq<Rate>)
    ensures |r| == |rows|
  {
    seq(|rows|, i requires 0 <= i < |rows| => rows[i].relativeErrorRate)
  }

  /** The rates that are not NaN (pandas' max and min skip NaN). */
  function Present(rates: seq<Rate>): seq<Rate>
  {
    Filter(rates, (r: Rate) => r != NaN)
  }

  /** `parity_df['Relative_Error_Rate'].max() - ...min()`. */
  function ParityGap(rates: seq<Rate>): Rate
  {
    var present := Present(rates);
    if present == [] then NaN else Subtract(RateMax(present), RateMin(present))
  }

  // ---------------------------------------------------------------------------
  // The significance tests
  // ---------------------------------------------------------------------------

  /** A test's statistic and p-value. */
  datatype TestOutcome = TestOutcome(statistic: real, pValue: real)

  /** `f_oneway(*groups)` or `kruskal(*groups)`; None when the call raises. */
  type GroupTest = seq<seq<real>> -> Option<TestOutcome>

  /** What the except-branch reports for every test. */
  const Neutral: TestOutcome := TestOutcome(0.0, 1.0)

  datatype StatisticalTests = StatisticalTests(fBias: TestOutcome, kwMae: TestOutcome, kwBias: TestOutcome)

  /** The MAE (or bias) values of each office, one group per office. */
  function MaeGroups(errors: seq<ErrorRecord>, regions: seq<string>): seq<seq<real>>
  {
    seq(|regions|, i requires 0 <= i < |regions| => Maes(RegionData(errors, regions[i])))
  }

  function BiasGroups(errors: seq<ErrorRecord>, regions: seq<string>): seq<seq<real>>
  {
    seq(|regions|, i requires 0 <= i < |regions| => Biases(RegionData(errors, regions[i])))
  }

  const AllNeutral := StatisticalTests(Neutral, Neutral, Neutral)

  /** The try block: the three calls in turn; the first that raises abandons
      the rest and the except branch reports the neutral outcome for all three. */
  function RunTests(errors: seq<ErrorRecord>, anova: GroupTest, kruskal: GroupTest): StatisticalTests
  {
    var regions := Offices(errors);
    match anova(BiasGroups(errors, regions))
    case None => AllNeutral
    case Some(f) =>
      match kruskal(MaeGroups(errors, regions))
      case None => AllNeutral
      case Some(km) =>
        match kruskal(BiasGroups(errors, regions))
        case None => AllNeutral
        case Some(kb) => StatisticalTests(f, km, kb)
  }

  datatype FairnessReport = FairnessReport(parity: seq<RegionParity>, parityGap: Rate, tests: StatisticalTests)

  /** The dictionary calc_fairness_metrics returns. */
  function FairnessMetrics(errors: seq<ErrorRecord>, anova: GroupTest, kruskal: GroupTest): FairnessReport
    requires |errors| > 0
  {
    var regions := Offices(errors);
    DistinctMembers(ErrorRegions(errors));
    var rows := ParityRows(errors, regions, CostThreshold(errors));
    FairnessReport(rows, ParityGap(Rates(rows)), RunTests(errors, anova, kruskal))
  }

  /** The loop over offices, then the three tests. The frame is never empty
      here: the page checks for an empty frame first, and an empty frame has no
      columns to select. The tests report the library's three results when no
      call raises, and the neutral outcome for all three when any call does. */
  method CalcFairnessMetrics(errors: seq<ErrorRecord>, anova: GroupTest, kruskal: GroupTest)
    returns (report: FairnessReport)
    requires |errors| > 0
    ensures report == FairnessMetrics(errors, anova, kruskal)
    ensures var regions := Offices(errors);
      var f := anova(BiasGroups(errors, regions));
      var km := kruskal(MaeGroups(errors, regions));
      var kb := kruskal(BiasGroups(errors, regions));
      (f.None? || km.None? || kb.None? ==> report.tests == AllNeutral) &&
      (f.Some? && km.Some? && kb.Some? ==> report.tests == StatisticalTests(f.value, km.value, kb.value))
  {
    var threshold := CostThreshold(errors);
    var regions := Offices(errors);
    DistinctMembers(ErrorRegions(errors));
    var parity: seq<RegionParity> := [];
    for i := 0 to |regions|
      invariant parity == ParityRows(errors, regions[..i], threshold)
    {
      var region := regions[i];
      RegionDataNonEmpty(errors, region);
      var regionData := RegionData(errors, region);
      var row := ParityRow(region, regionData, threshold);
      parity := parity + [row];
    }
    assert regions[..|regions|] == regions;
    var gap := ParityGap(Rates(parity));
    var tests := CallTests(errors, anova, kruskal);
    report := FairnessReport(parity, gap, tests);
  }

  /** The try block run call by call: the ANOVA on the biases, then the
      Kruskal-Wallis tests on the MAEs and on the biases, stopping at the
      first that raises. */
  method CallTests(errors: seq<ErrorRecord>, anova: GroupTest, kruskal: GroupTest) returns (tests: StatisticalTests)
    ensures tests == RunTests(errors, anova, kruskal)
    ensures var regions := Offices(errors);
      var f := anova(BiasGroups(errors, regions));
      var km := kruskal(MaeGroups(errors, regions));
      var kb := kruskal(BiasGroups(errors, regions));
      (f.None? || km.None? || kb.None? ==> tests == AllNeutral) &&
      (f.Some? && km.Some? && kb.Some? ==> tests == StatisticalTests(f.value, km.value, kb.value))
  {
    var regions := Offices(errors);
    tests := AllNeutral;
    var f := anova(BiasGroups(errors, regions));
    if f.None? {
      return;
    }
    var km := kruskal(MaeGroups(errors, regions));
    if km.None? {
      return;
    }
    var kb := kruskal(BiasGroups(errors, regions));
    if kb.None? {
      return;
    }
    tests := StatisticalTests(f.value, km.value, kb.value);
  }

  // ---------------------------------------------------------------------------
  // What the report promises
  // ---------------------------------------------------------------------------

  /** The table has one row per office, in order of first appearance, and no office twice. */
  lemma ParityOnePerOffice(errors: seq<ErrorRecord>, anova: GroupTest, kruskal: GroupTest)
    requires |errors| > 0
    ensures var rows := FairnessMetrics(errors, anova, kruskal).parity;
      |rows| == |Offices(errors)| &&
      (forall i :: 0 <= i < |rows| ==> rows[i].region == Offices(errors)[i]) &&
      (forall i, j :: 0 <= i < j < |rows| ==> rows[i].region != rows[j].region) &&
      (forall k :: 0 <= k < |errors| ==> exists i :: 0 <= i < |rows| && rows[i].region == errors[k].region)
  {
    var regions := Offices(errors);
    DistinctMembers(ErrorRegions(errors));
    var rows := FairnessMetrics(errors, anova, kruskal).parity;
    forall k | 0 <= k < |errors|
      ensures exists i :: 0 <= i < |rows| && rows[i].region == errors[k].region
    {
      assert ErrorRegions(errors)[k] in regions;
      var i :| 0 <= i < |regions| && regions[i] == errors[k].region;
      assert rows[i].region == regions[i];
    }
  }

  lemma {:induction false} CountAtLeastBounds(xs: seq<real>, threshold: real, i: nat)
    requires i < |xs| && xs[i] >= threshold
    ensures CountAtLeast(xs, threshold) >= 1
  {
    if i > 0 {
      CountAtLeastBounds(xs[1..], threshold, i - 1);
    }
  }

  /** Every share is a fraction, and it is positive exactly when some row of
      the office reaches the threshold. */
  lemma ShareBounds(xs: seq<real>, threshold: real)
    requires |xs| > 0
    ensures 0.0 <= ShareAtLeast(xs, threshold) <= 1.0
    ensures ShareAtLeast(xs, threshold) > 0.0 <==> exists i :: 0 <= i < |xs| && xs[i] >= threshold
  {
    var c := CountAtLeast(xs, threshold);
    FractionBounds(c as real, |xs| as real);
    if exists i :: 0 <= i < |xs| && xs[i] >= threshold {
      var i :| 0 <= i < |xs| && xs[i] >= threshold;
      CountAtLeastBounds(xs, threshold, i);
    } else {
      CountZero(xs, threshold);
    }
  }

  lemma {:induction false} CountZero(xs: seq<real>, threshold: real)
    requires forall i :: 0 <= i < |xs| ==> xs[i] < threshold
    ensures CountAtLeast(xs, threshold) == 0
  {
    if xs != [] {
      assert forall i :: 1 <= i < |xs| ==> xs[i] == xs[1..][i - 1];
      CountZero(xs[1..], threshold);
    }
  }

  /** Every High_Cost_Rate is a fraction, and the office holding the highest
      mean actual cost always has a positive one: the 75th percentile never
      exceeds the maximum. */
  lemma SomeOfficeHighCost(errors: seq<ErrorRecord>, anova: GroupTest, kruskal: GroupTest)
    requires |errors| > 0
    ensures var rows := FairnessMetrics(errors, anova, kruskal).parity;
      (forall i :: 0 <= i < |rows| ==> 0.0 <= rows[i].highCostRate <= 1.0) &&
      (forall i, k :: 0 <= i < |rows| && HoldsTopCost(errors, k) && rows[i].region == errors[k].region ==>
        rows[i].highCostRate > 0.0) &&
      exists i :: 0 <= i < |rows| && rows[i].highCostRate > 0.0
  {
    var regions := Offices(errors);
    var threshold := CostThreshold(errors);
    ParityRowsOf(errors, anova, kruskal);
    var rows := FairnessMetrics(errors, anova, kruskal).parity;
    forall i | 0 <= i < |rows| ensures 0.0 <= rows[i].highCostRate <= 1.0 {
      HighCostRate(errors, regions[i], threshold);
    }
    forall i, k | 0 <= i < |rows| && HoldsTopCost(errors, k) && rows[i].region == errors[k].region
      ensures rows[i].highCostRate > 0.0
    {
      TopOfficeHighCost(errors, anova, kruskal, i, k);
    }
    var top := ThresholdReached(errors);
    DistinctMembers(ErrorRegions(errors));
    assert ErrorRegions(errors)[top] in regions;
    var i :| 0 <= i < |regions| && regions[i] == errors[top].region;
    TopOfficeHighCost(errors, anova, kruskal, i, top);
  }

  lemma TopOfficeHighCost(errors: seq<ErrorRecord>, anova: GroupTest, kruskal: GroupTest, i: nat, k: nat)
    requires HoldsTopCost(errors, k)
    requires i < |Offices(errors)| && Offices(errors)[i] == errors[k].region
    ensures i < |FairnessMetrics(errors, anova, kruskal).parity|
    ensures FairnessMetrics(errors, anova, kruskal).parity[i].highCostRate > 0.0
  {
    var threshold := CostThreshold(errors);
    ParityRowsOf(errors, anova, kruskal);
    MaxReachesThreshold(errors, k);
    HighCostRate(errors, errors[k].region, threshold);
  }

  /** The row with the largest Mean_Actual reaches the 75th percentile. */
  lemma ThresholdReached(errors: seq<ErrorRecord>) returns (top: nat)
    requires |errors| > 0
    ensures HoldsTopCost(errors, top) && errors[top].meanActual >= CostThreshold(errors)
  {
    var actuals := MeanActuals(errors);
    top := TopIndex(actuals);
    assert forall j :: 0 <= j < |errors| ==> actuals[j] == errors[j].meanActual;
    MaxReachesThreshold(errors, top);
  }

  /** Row k holds the largest Mean_Actual of the frame. */
  ghost predicate HoldsTopCost(errors: seq<ErrorRecord>, k: int)
  {
    0 <= k < |errors| && forall j :: 0 <= j < |errors| ==> errors[j].meanActual <= errors[k].meanActual
  }

  /** Any row holding the largest Mean_Actual reaches the 75th percentile. */
  lemma MaxReachesThreshold(errors: seq<ErrorRecord>, k: nat)
    requires HoldsTopCost(errors, k)
    ensures errors[k].meanActual >= CostThreshold(errors)
  {
    var actuals := MeanActuals(errors);
    QuantileWithinBounds(actuals, 0.75, MinReal(actuals), errors[k].meanActual);
  }

  /** Each parity row is the row of the office at the same position. */
  lemma ParityRowsOf(errors: seq<ErrorRecord>, anova: GroupTest, kruskal: GroupTest)
    requires |errors| > 0
    ensures var rows := FairnessMetrics(errors, anova, kruskal).parity;
      var regions := Offices(errors);
      |rows| == |regions| &&
      forall i :: 0 <= i < |rows| ==>
        regions[i] in ErrorRegions(errors) && rows[i] == RegionRow(errors, regions[i], CostThreshold(errors))
  {
    DistinctMembers(ErrorRegions(errors));
  }

  /** An office's High_Cost_Rate is a fraction, positive exactly when one of its
      rows reaches the threshold. */
  lemma HighCostRate(errors: seq<ErrorRecord>, region: string, threshold: real)
    requires region in ErrorRegions(errors)
    ensures var r := RegionRow(errors, region, threshold).highCostRate;
      0.0 <= r <= 1.0 &&
      (r > 0.0 <==> exists k :: 0 <= k < |errors| && errors[k].region == region && errors[k].meanActual >= threshold)
  {
    var data := RegionData(errors, region);
    RegionDataNonEmpty(errors, region);
    RegionDataMembers(errors, region);
    FilterSelects(errors, (e: ErrorRecord) => e.region == region);
    var m := MeanActuals(data);
    ShareBounds(m, threshold);
    assert RegionRow(errors, region, threshold).highCostRate == ShareAtLeast(m, threshold);
    if exists i :: 0 <= i < |m| && m[i] >= threshold {
      var i :| 0 <= i < |m| && m[i] >= threshold;
      var k :| 0 <= k < |errors| && errors[k] == data[i];
      assert errors[k].region == region && errors[k].meanActual >= threshold;
    }
    if exists k :: 0 <= k < |errors| && errors[k].region == region && errors[k].meanActual >= threshold {
      var k :| 0 <= k < |errors| && errors[k].region == region && errors[k].meanActual >= threshold;
      assert errors[k] in data;
      var i :| 0 <= i < |data| && data[i] == errors[k];
      assert m[i] >= threshold;
    }
  }

  /** The index of a largest value. */
  function TopIndex(xs: seq<real>): (t: nat)
    requires |xs| > 0
    ensures t < |xs| && forall i :: 0 <= i < |xs| ==> xs[i] <= xs[t]
  {
    if |xs| == 1 then 0
    else
      var t := TopIndex(xs[1..]);
      assert forall i :: 1 <= i < |xs| ==> xs[i] == xs[1..][i - 1];
      if xs[0] >= xs[t + 1] then 0 else t + 1
  }

  function MinReal(xs: seq<real>): (m: real)
    requires |xs| > 0
    ensures forall i :: 0 <= i < |xs| ==> m <= xs[i]
  {
    if |xs| == 1 then xs[0]
    else
      var m := MinReal(xs[1..]);
      assert forall i :: 1 <= i < |xs| ==> xs[i] == xs[1..][i - 1];
      if xs[0] <= m then xs[0] else m
  }

  /** When every pair has the same mean actual cost, every office is entirely "high cost". */
  lemma UniformCostsAllHighCost(errors: seq<ErrorRecord>, c: real, anova: GroupTest, kruskal: GroupTest)
    requires |errors| > 0 && forall k :: 0 <= k < |errors| ==> errors[k].meanActual == c
    ensures var rows := FairnessMetrics(errors, anova, kruskal).parity;
      forall i :: 0 <= i < |rows| ==> rows[i].highCostRate == 1.0
  {
    var regions := Offices(errors);
    DistinctMembers(ErrorRegions(errors));
    QuantileOfConstant(MeanActuals(errors), c, 0.75);
    assert CostThreshold(errors) == c;
    var rows := FairnessMetrics(errors, anova, kruskal).parity;
    forall i | 0 <= i < |rows| ensures rows[i].highCostRate == 1.0 {
      assert rows[i] == RegionRow(errors, regions[i], c);
      RegionShareOne(errors, regions[i], c);
    }
  }

  lemma RegionShareOne(errors: seq<ErrorRecord>, region: string, c: real)
    requires region in ErrorRegions(errors)
    requires forall k :: 0 <= k < |errors| ==> errors[k].meanActual == c
    ensures RegionRow(errors, region, c).highCostRate == 1.0
  {
    var data := RegionData(errors, region);
    RegionDataNonEmpty(errors, region);
    RegionDataMembers(errors, region);
    var m := MeanActuals(data);
    forall k | 0 <= k < |m| ensures m[k] >= c {
      assert m[k] == data[k].meanActual;
      var j :| 0 <= j < |errors| && errors[j] == data[k];
    }
    ShareAll(m, c);
    assert RegionRow(errors, region, c).highCostRate == ShareAtLeast(m, c);
  }

  /** When every value reaches the threshold, the share is 1. */
  lemma ShareAll(xs: seq<real>, threshold: real)
    requires |xs| > 0 && forall i :: 0 <= i < |xs| ==> xs[i] >= threshold
    ensures ShareAtLeast(xs, threshold) == 1.0
  {
    CountAll(xs, threshold);
    var n := |xs| as real;
    assert n / n == 1.0;
    assert ShareAtLeast(xs, threshold) == n / n;
  }

  lemma {:induction false} CountAll(xs: seq<real>, threshold: real)
    requires forall i :: 0 <= i < |xs| ==> xs[i] >= threshold
    ensures CountAtLeast(xs, threshold) == |xs|
  {
    if xs != [] {
      assert forall i :: 1 <= i < |xs| ==> xs[i] == xs[1..][i - 1];
      CountAll(xs[1..], threshold);
    }
  }

  /** When every record is well formed, as the backtest guarantees, each office's
      mean MAE is never negative and bounds the size of its mean bias. */
  lemma OfficeMeansBounded(errors: seq<ErrorRecord>, anova: GroupTest, kruskal: GroupTest)
    requires |errors| > 0 && forall k :: 0 <= k < |errors| ==> WellFormed(errors[k])
    ensures var rows := FairnessMetrics(errors, anova, kruskal).parity;
      forall i :: 0 <= i < |rows| ==> rows[i].maeMean >= 0.0 && Abs(rows[i].biasMean) <= rows[i].maeMean
  {
    var regions := Offices(errors);
    DistinctMembers(ErrorRegions(errors));
    var rows := FairnessMetrics(errors, anova, kruskal).parity;
    forall i | 0 <= i < |rows| ensures rows[i].maeMean >= 0.0 && Abs(rows[i].biasMean) <= rows[i].maeMean {
      var data := RegionData(errors, regions[i]);
      RegionDataNonEmpty(errors, regions[i]);
      RegionDataMembers(errors, regions[i]);
      MeanNonNegative(Maes(data));
      MeanAbsBound(Biases(data), Maes(data));
    }
  }

  /** The rates that are not NaN, and no other. */
  lemma PresentMembers(rates: seq<Rate>)
    ensures var present := Present(rates);
      NoNaN(present) &&
      (forall i :: 0 <= i < |present| ==> present[i] in rates) &&
      (forall i :: 0 <= i < |rates| && rates[i] != NaN ==> rates[i] in present)
  {
    var present := Present(rates);
    FilterSelects(rates, (r: Rate) => r != NaN);
    forall i | 0 <= i < |present| ensures present[i] in rates {
      assert present[i] in multiset(present);
    }
  }

  /** max - min over rates none of which is NaN. */
  lemma {:induction false} SpreadShape(xs: seq<Rate>)
    requires |xs| > 0 && NoNaN(xs)
    ensures var d := Subtract(RateMax(xs), RateMin(xs));
      d != NegInf &&
      (d.Finite? ==> d.value >= 0.0) &&
      (d.Finite? <==> forall i :: 0 <= i < |xs| ==> xs[i].Finite?) &&
      (d == Finite(0.0) <==> forall i, j :: 0 <= i < |xs| && 0 <= j < |xs| ==> xs[i].Finite? && xs[i] == xs[j])
  {
    RateMaxMinBounds(xs);
    var hi, lo := RateMax(xs), RateMin(xs);
    if forall i :: 0 <= i < |xs| ==> xs[i].Finite? {
      assert hi.Finite? && lo.Finite?;
      if hi.value - lo.value == 0.0 {
        forall i, j | 0 <= i < |xs| && 0 <= j < |xs| ensures xs[i] == xs[j] {
          assert RateLe(xs[i], hi) && RateLe(lo, xs[i]);
          assert RateLe(xs[j], hi) && RateLe(lo, xs[j]);
        }
      }
    } else {
      var k :| 0 <= k < |xs| && !xs[k].Finite?;
      if xs[k] == PosInf {
        assert RateLe(xs[k], hi);
        assert hi == PosInf;
      } else {
        assert RateLe(lo, xs[k]);
        assert lo == NegInf;
      }
    }
  }

  /** The parity gap is never negative; it is a finite number exactly when some
      office has a rate that is not NaN and no office's rate is infinite, and it
      is zero exactly when, in addition, all those rates are equal. */
  lemma ParityGapShape(rates: seq<Rate>)
    ensures ParityGap(rates) != NegInf
    ensures ParityGap(rates).Finite? ==> ParityGap(rates).value >= 0.0
    ensures ParityGap(rates).Finite? <==>
      (exists i :: 0 <= i < |rates| && rates[i] != NaN) &&
      (forall i :: 0 <= i < |rates| ==> rates[i] != PosInf && rates[i] != NegInf)
    ensures ParityGap(rates) == Finite(0.0) <==>
      (exists i :: 0 <= i < |rates| && rates[i] != NaN) &&
      (forall i, j :: 0 <= i < |rates| && 0 <= j < |rates| && rates[i] != NaN && rates[j] != NaN ==>
        rates[i].Finite? && rates[i] == rates[j])
  {
    var present := Present(rates);
    PresentMembers(rates);
    if exists i :: 0 <= i < |rates| && rates[i] != NaN {
      var i :| 0 <= i < |rates| && rates[i] != NaN;
      assert rates[i] in present;
      SpreadShape(present);
      PresentFiniteIff(rates);
      PresentEqualIff(rates);
    }
  }

  /** The present rates are all finite exactly when no rate is infinite. */
  lemma PresentFiniteIff(rates: seq<Rate>)
    ensures var present := Present(rates);
      (forall i :: 0 <= i < |present| ==> present[i].Finite?) <==>
      (forall i :: 0 <= i < |rates| ==> rates[i] != PosInf && rates[i] != NegInf)
  {
    var present := Present(rates);
    PresentMembers(rates);
    if forall i :: 0 <= i < |present| ==> present[i].Finite? {
      forall i | 0 <= i < |rates| ensures rates[i] != PosInf && rates[i] != NegInf {
        if rates[i] != NaN {
          var k :| 0 <= k < |present| && present[k] == rates[i];
        }
      }
    }
    if forall i :: 0 <= i < |rates| ==> rates[i] != PosInf && rates[i] != NegInf {
      forall k | 0 <= k < |present| ensures present[k].Finite? {
        var i :| 0 <= i < |rates| && rates[i] == present[k];
      }
    }
  }

  /** The present rates are finite and all equal exactly when the rates other than NaN are. */
  lemma PresentEqualIff(rates: seq<Rate>)
    ensures var present := Present(rates);
      (forall i, j :: 0 <= i < |present| && 0 <= j < |present| ==> present[i].Finite? && present[i] == present[j]) <==>
      (forall i, j :: 0 <= i < |rates| && 0 <= j < |rates| && rates[i] != NaN && rates[j] != NaN ==>
        rates[i].Finite? && rates[i] == rates[j])
  {
    var present := Present(rates);
    PresentMembers(rates);
    if forall i, j :: 0 <= i < |present| && 0 <= j < |present| ==> present[i].Finite? && present[i] == present[j] {
      forall i, j | 0 <= i < |rates| && 0 <= j < |rates| && rates[i] != NaN && rates[j] != NaN
        ensures rates[i].Finite? && rates[i] == rates[j]
      {
        var k :| 0 <= k < |present| && present[k] == rates[i];
        var l :| 0 <= l < |present| && present[l] == rates[j];
      }
    }
    if forall i, j :: 0 <= i < |rates| && 0 <= j < |rates| && rates[i] != NaN && rates[j] != NaN ==>
        rates[i].Finite? && rates[i] == rates[j] {
      forall k, l | 0 <= k < |present| && 0 <= l < |present| ensures present[k].Finite? && present[k] == present[l] {
        var i :| 0 <= i < |rates| && rates[i] == present[k];
        var j :| 0 <= j < |rates| && rates[j] == present[l];
      }
    }
  }
}
